/** The strings that name things in Redis, in the search index and in the event log's partitions:
    Go's "%d" and the cache keys built from it. */
module Keys {

  const DIGITS := "0123456789"

  function Digits(n: nat): (s: string)
    ensures |s| >= 1 && (n >= 10 ==> |s| >= 2)
    ensures forall k :: 0 <= k < |s| ==> s[k] in DIGITS
  {
    if n < 10 then [DIGITS[n]] else Digits(n / 10) + [DIGITS[n % 10]]
  }

  /** fmt.Sprintf("%d", n). */
  function Dec(n: int): string {
    if n < 0 then "-" + Digits(-n) else Digits(n)
  }

  function ProductKey(id: int): string {
    "product:" + Dec(id)
  }

  /** The key that every write drops; no read ever fills it. */
  const ALL_KEY := "products:all"

  /** "products:page:%d:limit:%d:search:%s". */
  function ListKey(page: int, limit: int, search: string): string {
    "products:page:" + (Dec(page) + ":" + LimitPart(limit, search))
  }

  function LimitPart(limit: int, search: string): string {
    "limit:" + (Dec(limit) + ":" + ("search:" + search))
  }

  lemma DigitsApart(m: nat, n: nat)
    requires m < 10 && n < 10 && DIGITS[m] == DIGITS[n]
    ensures m == n
  {
  }

  lemma {:induction false} DigitsInjective(m: nat, n: nat)
    requires Digits(m) == Digits(n)
    ensures m == n
  {
    var a, b := Digits(m), Digits(n);
    assert a[|a| - 1] == b[|b| - 1];
    DigitsApart(m % 10, n % 10);
    if m >= 10 {
      assert a[..|a| - 1] == Digits(m / 10) && b[..|b| - 1] == Digits(n / 10);
      DigitsInjective(m / 10, n / 10);
    }
  }

  /** The number that a row of decimal digits denotes. */
  function NumeralValue(s: string): int {
    if s == "" then 0 else 10 * NumeralValue(s[..|s| - 1]) + (s[|s| - 1] as int - '0' as int)
  }

  predicate IsNumeral(s: string) {
    && s != "" && (forall k :: 0 <= k < |s| ==> '0' <= s[k] <= '9')
    && (|s| > 1 ==> s[0] != '0')
  }

  lemma {:induction false} DigitsValue(n: nat)
    ensures IsNumeral(Digits(n)) && NumeralValue(Digits(n)) == n
    ensures n > 0 ==> Digits(n)[0] != '0'
  {
    var s := Digits(n);
    if n >= 10 {
      DigitsValue(n / 10);
      assert s[..|s| - 1] == Digits(n / 10);
      assert s[0] == Digits(n / 10)[0];
    } else {
      assert s[..0] == "";
    }
  }

  /** Dec is decimal notation: digits without leading zeros that denote the number, after a minus if negative. */
  lemma DecIsDecimal(n: int)
    ensures n >= 0 ==> IsNumeral(Dec(n)) && NumeralValue(Dec(n)) == n
    ensures n < 0 ==> Dec(n)[0] == '-' && IsNumeral(Dec(n)[1..]) && NumeralValue(Dec(n)[1..]) == -n
  {
    DigitsValue(if n < 0 then -n else n);
    if n < 0 {
      assert Dec(n)[1..] == Digits(-n);
    }
  }

  /** Different ids have different keys, hence different documents and cache entries. */
  lemma DecInjective(m: int, n: int)
    requires Dec(m) == Dec(n)
    ensures m == n
  {
    assert Dec(m)[0] == Dec(n)[0];
    if m < 0 {
      assert Dec(m)[1..] == Digits(-m) && Dec(n)[1..] == Digits(-n);
      DigitsInjective(-m, -n);
    } else {
      DigitsInjective(m, n);
    }
  }

  lemma ProductKeyInjective(m: int, n: int)
    requires ProductKey(m) == ProductKey(n)
    ensures m == n
  {
    assert ProductKey(m)[8..] == Dec(m) && ProductKey(n)[8..] == Dec(n);
    DecInjective(m, n);
  }

  lemma DecHasNoColon(n: int)
    ensures ':' !in Dec(n)
  {
  }

  /** Text up to the first colon determines how a string splits there. */
  lemma SplitAtColon(a: string, x: string, b: string, y: string)
    requires ':' !in a && ':' !in b
    requires a + ":" + x == b + ":" + y
    ensures a == b && x == y
  {
    var s, u := a + ":" + x, b + ":" + y;
    ColonIsFirst(a, x);
    ColonIsFirst(b, y);
    assert s[..|a|] == a && u[..|b|] == b;
    assert s[|a| + 1..] == x && u[|b| + 1..] == y;
  }

  lemma ColonIsFirst(a: string, x: string)
    requires ':' !in a
    ensures var s := a + ":" + x; s[|a|] == ':' && forall k :: 0 <= k < |a| ==> s[k] != ':'
  {
  }

  lemma SamePrefix(c: string, x: string, y: string)
    requires c + x == c + y
    ensures x == y
  {
    assert (c + x)[|c|..] == x && (c + y)[|c|..] == y;
  }

  /** The list key determines page, limit and search text, whatever the search text contains. */
  lemma ListKeyInjective(p: int, l: int, s: string, p': int, l': int, s': string)
    requires ListKey(p, l, s) == ListKey(p', l', s')
    ensures p == p' && l == l' && s == s'
  {
    SamePrefix("products:page:", Dec(p) + ":" + LimitPart(l, s), Dec(p') + ":" + LimitPart(l', s'));
    DecHasNoColon(p);
    DecHasNoColon(p');
    SplitAtColon(Dec(p), LimitPart(l, s), Dec(p'), LimitPart(l', s'));
    DecInjective(p, p');
    LimitPartInjective(l, s, l', s');
  }

  lemma LimitPartInjective(l: int, s: string, l': int, s': string)
    requires LimitPart(l, s) == LimitPart(l', s')
    ensures l == l' && s == s'
  {
    SamePrefix("limit:", Dec(l) + ":" + ("search:" + s), Dec(l') + ":" + ("search:" + s'));
    DecHasNoColon(l);
    DecHasNoColon(l');
    SplitAtColon(Dec(l), "search:" + s, Dec(l'), "search:" + s');
    DecInjective(l, l');
    SamePrefix("search:", s, s');
  }

  /** The three families of keys never meet: dropping ALL_KEY drops no page and no product. */
  lemma KeyFamiliesDisjoint(id: int, p: int, l: int, s: string)
    ensures ProductKey(id) != ListKey(p, l, s)
    ensures ALL_KEY != ListKey(p, l, s)
    ensures ALL_KEY != ProductKey(id)
  {
    assert ProductKey(id)[7] == ':';
    assert ListKey(p, l, s)[7] == 's' && ListKey(p, l, s)[9] == 'p';
    assert ALL_KEY[7] == 's' && ALL_KEY[9] == 'a';
  }
}
