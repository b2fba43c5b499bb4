/** The list query: pagination parameters, the SQL the repository builds, and what that SQL means. */
module Query {
  import opened Models
  import opened Tables

  /** models.ProductFilter as GetAll receives it, by value. */
  datatype Filter = Filter(page: int, limit: int, search: string)

  /** models.ProductFilter as GetOffset sees it, through its pointer receiver. */
  class ProductFilter {
    var page: int
    var limit: int
    const search: string

    constructor (f: Filter)
      ensures page == f.page && limit == f.limit && search == f.search
    {
      page, limit, search := f.page, f.limit, f.search;
    }

    /** Normalises page and limit in place, then multiplies in a 64-bit int. */
    method GetOffset() returns (offset: int)
      modifies this
      ensures page == (if old(page) < 1 then 1 else old(page))
      ensures limit == (if old(limit) < 1 then 10 else old(limit))
      ensures offset == Wrap64((page - 1) * limit) == Offset(Filter(old(page), old(limit), search))
    {
      if page < 1 {
        page := 1;
      }
      if limit < 1 {
        limit := 10;
      }
      offset := Wrap64((page - 1) * limit);
    }
  }

  function Offset(f: Filter): int {
    Wrap64((if f.page < 1 then 0 else f.page - 1) * if f.limit < 1 then 10 else f.limit)
  }

  // ----- ILIKE -----

  /** Case folding of ASCII letters. */
  function FoldCase(c: char): char {
    if 'A' <= c <= 'Z' then c - 'A' + 'a' else c
  }

  /** Two characters are the same in any case exactly if they are equal or the two cases of one ASCII letter. */
  lemma SameInAnyCase(c: char, d: char)
    ensures FoldCase(c) == FoldCase(d) <==>
            || c == d
            || ('a' <= c <= 'z' && c as int - 'a' as int == d as int - 'A' as int)
            || ('a' <= d <= 'z' && d as int - 'a' as int == c as int - 'A' as int)
  {
  }

  /** ILIKE: '%' is any text, '_' is any one character, '\' quotes the next character. */
  predicate ILike(pattern: string, s: string)
    decreases |pattern| + |s|
  {
    if pattern == "" then s == ""
    else if pattern[0] == '%' then ILike(pattern[1..], s) || (s != "" && ILike(pattern, s[1..]))
    else if pattern[0] == '_' then s != "" && ILike(pattern[1..], s[1..])
    else if pattern[0] == '\\' && |pattern| > 1 then
      s != "" && FoldCase(s[0]) == FoldCase(pattern[1]) && ILike(pattern[2..], s[1..])
    else s != "" && FoldCase(s[0]) == FoldCase(pattern[0]) && ILike(pattern[1..], s[1..])
  }

  /** '%' stands for any text at its place. */
  lemma {:induction false} PercentIsAnyText(pattern: string, s: string)
    ensures ILike("%" + pattern, s) <==> exists k :: 0 <= k <= |s| && ILike(pattern, s[k..])
  {
    assert ("%" + pattern)[1..] == pattern && s[0..] == s;
    if s != "" {
      PercentIsAnyText(pattern, s[1..]);
      if k :| 0 <= k <= |s[1..]| && ILike(pattern, s[1..][k..]) {
        assert s[1..][k..] == s[k + 1..];
      }
      if k :| 0 < k <= |s| && ILike(pattern, s[k..]) {
        assert s[1..][k - 1..] == s[k..];
      }
    }
  }

  /** '_' stands for any one character, and any other unquoted character for itself in any case. */
  lemma {:induction false} UnderscoreIsAnyCharacter(w: string, s: string)
    requires '%' !in w && '\\' !in w
    ensures ILike(w, s) <==>
            |w| == |s| && forall k :: 0 <= k < |w| ==> w[k] == '_' || FoldCase(w[k]) == FoldCase(s[k])
  {
    if w != "" && s != "" {
      UnderscoreIsAnyCharacter(w[1..], s[1..]);
      if ILike(w[1..], s[1..]) && (w[0] == '_' || FoldCase(w[0]) == FoldCase(s[0])) {
        forall k | 0 <= k < |w| ensures w[k] == '_' || FoldCase(w[k]) == FoldCase(s[k]) {
          if k > 0 {
            assert w[1..][k - 1] == w[k] && s[1..][k - 1] == s[k];
          }
        }
      }
      if |w| == |s| && forall k :: 0 <= k < |w| ==> w[k] == '_' || FoldCase(w[k]) == FoldCase(s[k]) {
        forall k | 0 <= k < |w[1..]| ensures w[1..][k] == '_' || FoldCase(w[1..][k]) == FoldCase(s[1..][k]) {
          assert w[1..][k] == w[k + 1] && s[1..][k] == s[k + 1];
        }
      }
    }
  }

  predicate Plain(c: char) {
    c != '%' && c != '_' && c != '\\'
  }

  /** s starts with w, ignoring case. */
  predicate StartsWith(w: string, s: string) {
    |w| <= |s| && forall k :: 0 <= k < |w| ==> FoldCase(s[k]) == FoldCase(w[k])
  }

  lemma {:induction false} AnyTextMatches(s: string)
    ensures ILike("%", s)
  {
    if s != "" {
      AnyTextMatches(s[1..]);
    } else {
      assert "%"[1..] == "";
    }
  }

  lemma {:induction false} PlainPrefix(w: string, s: string)
    requires forall k :: 0 <= k < |w| ==> Plain(w[k])
    ensures ILike(w + "%", s) <==> StartsWith(w, s)
  {
    if w == "" {
      assert w + "%" == "%";
      AnyTextMatches(s);
    } else {
      assert (w + "%")[1..] == w[1..] + "%";
      if s != "" {
        PlainPrefix(w[1..], s[1..]);
        assert StartsWith(w, s) <==> FoldCase(s[0]) == FoldCase(w[0]) && StartsWith(w[1..], s[1..]) by {
          if FoldCase(s[0]) == FoldCase(w[0]) && StartsWith(w[1..], s[1..]) {
            forall k | 0 <= k < |w| ensures FoldCase(s[k]) == FoldCase(w[k]) {
              if k > 0 {
                assert s[k] == s[1..][k - 1] && w[k] == w[1..][k - 1];
              }
            }
          }
          if StartsWith(w, s) {
            forall k | 0 <= k < |w[1..]| ensures FoldCase(s[1..][k]) == FoldCase(w[1..][k]) {
              assert s[1..][k] == s[k + 1] && w[1..][k] == w[k + 1];
            }
          }
        }
      }
    }
  }

  predicate Contains(w: string, s: string) {
    exists k :: 0 <= k <= |s| && StartsWith(w, s[k..])
  }

  predicate AllPlain(w: string) {
    forall k :: 0 <= k < |w| ==> Plain(w[k])
  }

  /** What the search box promises: without wildcard characters in it, the filter keeps exactly the names that
      contain the search text somewhere, in any case. */
  lemma {:induction false} SearchIsSubstring(w: string, s: string)
    requires AllPlain(w)
    ensures ILike("%" + w + "%", s) <==> Contains(w, s)
  {
    var p := "%" + w + "%";
    assert p[1..] == w + "%";
    PlainPrefix(w, s);
    assert s[0..] == s;
    if s != "" {
      SearchIsSubstring(w, s[1..]);
      if k :| 0 <= k <= |s[1..]| && StartsWith(w, s[1..][k..]) {
        assert s[1..][k..] == s[k + 1..];
      }
      if k :| 0 <= k <= |s| && StartsWith(w, s[k..]) {
        if k > 0 {
          assert s[1..][k - 1..] == s[k..];
        }
      }
    }
  }

  /** A name that the pattern built from w accepts: wildcards and quotes of w are resolved, not copied. */
  function Sample(w: string): (s: string)
    ensures |s| <= |w|
  {
    if w == "" then ""
    else if w[0] == '%' then Sample(w[1..])
    else if w[0] == '_' then "a" + Sample(w[1..])
    else if w[0] == '\\' then if |w| > 1 then [w[1]] + Sample(w[2..]) else "%"
    else [w[0]] + Sample(w[1..])
  }

  lemma {:induction false} SampleMatches(w: string)
    ensures ILike(w + "%", Sample(w))
  {
    var p := w + "%";
    if w == "" {
      assert p == "%";
      AnyTextMatches("");
    } else if w[0] == '\\' && |w| > 1 {
      assert p[2..] == w[2..] + "%";
      SampleMatches(w[2..]);
    } else if w == "\\" {
      assert p[2..] == "";
    } else {
      assert p[1..] == w[1..] + "%";
      SampleMatches(w[1..]);
    }
  }

  /** The fewest characters a name can have that the pattern built from w accepts. */
  function Needs(w: string): nat {
    |Sample(w)|
  }

  lemma {:induction false} MatchNeeds(w: string, s: string)
    requires ILike(w + "%", s)
    ensures |s| >= Needs(w)
    decreases |w| + |s|
  {
    var p := w + "%";
    if w != "" {
      if w[0] == '\\' && |w| > 1 {
        assert p[2..] == w[2..] + "%";
        MatchNeeds(w[2..], s[1..]);
      } else if w[0] != '\\' {
        assert p[1..] == w[1..] + "%";
        if w[0] != '%' {
          MatchNeeds(w[1..], s[1..]);
        } else if ILike(p[1..], s) {
          MatchNeeds(w[1..], s);
        } else {
          MatchNeeds(w, s[1..]);
        }
      }
    }
  }

  // Backslashes tell a quoting text from the names it matches: it has one more per quoted character.

  function Slashes(s: string): nat {
    if s == "" then 0 else (if s[0] == '\\' then 1 else 0) + Slashes(s[1..])
  }

  lemma {:induction false} PrefixSlashes(w: string, s: string)
    requires StartsWith(w, s)
    ensures Slashes(w) <= Slashes(s)
  {
    if w != "" {
      assert FoldCase(s[0]) == FoldCase(w[0]);
      forall k | 0 <= k < |w[1..]| ensures FoldCase(s[1..][k]) == FoldCase(w[1..][k]) {
        assert s[1..][k] == s[k + 1] && w[1..][k] == w[k + 1];
      }
      PrefixSlashes(w[1..], s[1..]);
    }
  }

  lemma {:induction false} SuffixSlashes(s: string, k: nat)
    requires k <= |s|
    ensures Slashes(s[k..]) <= Slashes(s)
  {
    if k == 0 {
      assert s[0..] == s;
    } else {
      SuffixSlashes(s[1..], k - 1);
      assert s[1..][k - 1..] == s[k..];
    }
  }

  lemma {:induction false} SampleUnquotes(w: string)
    ensures Slashes(Sample(w)) <= Slashes(w)
    ensures '\\' in w ==> Slashes(Sample(w)) < Slashes(w)
  {
    if w != "" {
      if w[0] == '\\' && |w| > 1 {
        SampleUnquotes(w[2..]);
        assert Sample(w)[1..] == Sample(w[2..]);
        assert w[1..][1..] == w[2..];
      } else if w[0] != '\\' {
        SampleUnquotes(w[1..]);
        if w[0] != '%' {
          assert Sample(w)[1..] == Sample(w[1..]);
        }
        assert '\\' in w ==> '\\' in w[1..];
      }
    }
  }

  lemma {:induction false} SampleResolves(w: string)
    requires '\\' !in w
    ensures '%' !in Sample(w) && '_' !in Sample(w)
  {
    if w != "" {
      SampleResolves(w[1..]);
    }
  }

  /** The sample, filled up in front to the three characters a product name has at least. */
  function Padded(s: string): (r: string)
    ensures |r| == if |s| < 3 then 3 else |s|
    decreases 3 - |s|
  {
    if |s| < 3 then Padded("a" + s) else s
  }

  lemma {:induction false} PaddedMatches(w: string, s: string)
    requires ILike("%" + w, s)
    ensures ILike("%" + w, Padded(s))
    decreases 3 - |s|
  {
    if |s| < 3 {
      assert ("a" + s)[1..] == s;
      PaddedMatches(w, "a" + s);
    }
  }

  lemma {:induction false} PaddedAdds(s: string)
    ensures Slashes(Padded(s)) == Slashes(s)
    ensures forall c :: c != 'a' && c !in s ==> c !in Padded(s)
    decreases 3 - |s|
  {
    if |s| < 3 {
      assert ("a" + s)[1..] == s;
      PaddedAdds("a" + s);
    }
  }

  lemma ContainsCharacters(w: string, s: string)
    requires Contains(w, s)
    ensures |w| <= |s| && Slashes(w) <= Slashes(s)
    ensures ('%' in w ==> '%' in s) && ('_' in w ==> '_' in s)
  {
    var k :| 0 <= k <= |s| && StartsWith(w, s[k..]);
    PrefixSlashes(w, s[k..]);
    SuffixSlashes(s, k);
    forall c | c in w && (c == '%' || c == '_') ensures c in s {
      var j :| 0 <= j < |w| && w[j] == c;
      assert FoldCase(s[k..][j]) == c;
      assert s[k + j] == c;
    }
  }

  /** A name of the length the column and the validator allow that is listed without containing the text. */
  lemma WildcardOverlists(w: string) returns (s: string)
    requires !AllPlain(w) && Needs(w) <= 100
    ensures 3 <= |s| <= 100 && ILike("%" + w + "%", s) && !Contains(w, s)
  {
    s := Padded(Sample(w));
    SampleMatches(w);
    assert ("%" + (w + "%"))[1..] == w + "%";
    PaddedMatches(w + "%", Sample(w));
    assert "%" + (w + "%") == "%" + w + "%";
    PaddedAdds(Sample(w));
    SampleUnquotes(w);
    if '\\' !in w {
      SampleResolves(w);
    }
    if Contains(w, s) {
      ContainsCharacters(w, s);
    }
  }

  /** The search text is not escaped. Over the names a product can have, of 3 to 100 characters, the list is the
      substring search the API describes exactly for the texts without '%', '_' and '\' and for those that no
      such name is long enough to match; for any other text some name is listed that does not contain it. */
  lemma SearchIsSubstringExactly(w: string)
    ensures AllPlain(w) || Needs(w) > 100 <==>
            forall s :: 3 <= |s| <= 100 ==> (ILike("%" + w + "%", s) <==> Contains(w, s))
  {
    if AllPlain(w) {
      forall s ensures ILike("%" + w + "%", s) <==> Contains(w, s) {
        SearchIsSubstring(w, s);
      }
    } else if Needs(w) > 100 {
      forall s | 3 <= |s| <= 100 ensures ILike("%" + w + "%", s) <==> Contains(w, s) {
        if ILike("%" + w + "%", s) {
          assert ("%" + w)[1..] == w;
          MatchNeeds("%" + w, s);
        }
        if Contains(w, s) {
          ContainsCharacters(w, s);
        }
      }
    } else {
      var s := WildcardOverlists(w);
    }
  }

  // ----- The query -----

  datatype Arg = Text(s: string) | Num(n: int)

  /** The clauses GetAll can append; the numbers are placeholder positions, from 1. */
  datatype Clause = NameLike(pattern: nat) | LimitOffset(limit: nat, offset: nat)

  function TextArg(args: seq<Arg>, k: nat): Option<string> {
    if 1 <= k <= |args| && args[k - 1].Text? then Some(args[k - 1].s) else None
  }

  function NumArg(args: seq<Arg>, k: nat): Option<int> {
    if 1 <= k <= |args| && args[k - 1].Num? then Some(args[k - 1].n) else None
  }

  function Matching(pattern: string, ps: seq<Product>): (r: seq<Product>) {
    if ps == [] then []
    else Matching(pattern, ps[..|ps| - 1]) + if ILike(pattern, ps[|ps| - 1].name) then [ps[|ps| - 1]] else []
  }

  function DropTake(ps: seq<Product>, drop: nat, take: nat): seq<Product> {
    var from := if drop < |ps| then drop else |ps|;
    ps[from..if take < |ps| - from then from + take else |ps|]
  }

  /** What the database answers when it holds the rows in the given order; None is an SQL error. */
  function Evaluate(q: seq<Clause>, args: seq<Arg>, ps: seq<Product>): Option<seq<Product>> {
    if q == [] then Some(ps)
    else match q[0]
      case NameLike(k) => (
        match TextArg(args, k)
        case None => None
        case Some(pattern) => Evaluate(q[1..], args, Matching(pattern, ps)))
      case LimitOffset(k, l) => (
        match (NumArg(args, k), NumArg(args, l))
        case (Some(limit), Some(offset)) =>
          if limit < 0 || offset < 0 then None else Evaluate(q[1..], args, DropTake(ps, offset, limit))
        case _ => None)
  }

  /** The limit that reaches the argument list. GetAll reads filter.Limit in the same expression that calls
      GetOffset, which may change it; Go leaves open which comes first, so `early` is the compiler's choice. */
  function LimitArg(f: Filter, early: bool): int {
    if early || f.limit >= 1 then f.limit else 10
  }

  /** PostgreSQL refuses a negative LIMIT or OFFSET. */
  predicate Answerable(f: Filter, early: bool) {
    Offset(f) >= 0 && LimitArg(f, early) >= 0
  }

  /** What a list request asks for: the rows whose name matches, minus the pages before, at most one page. */
  function Page(f: Filter, early: bool, ps: seq<Product>): seq<Product>
    requires Answerable(f, early)
  {
    DropTake(if f.search == "" then ps else Matching("%" + f.search + "%", ps), Offset(f), LimitArg(f, early))
  }

  // ----- What a page holds -----

  /** The name is one that the search asks for; what that means for texts with wildcards is ILIKE's business. */
  predicate NameFits(search: string, name: string) {
    search == "" || if AllPlain(search) then Contains(search, name) else ILike("%" + search + "%", name)
  }

  /** r[k] is ps[at[k]], in the order of ps and no place twice. */
  ghost predicate Places(r: seq<Product>, ps: seq<Product>, at: seq<nat>) {
    && |at| == |r|
    && (forall k :: 0 <= k < |at| ==> at[k] < |ps| && r[k] == ps[at[k]])
    && (forall j, k :: 0 <= j < k < |at| ==> at[j] < at[k])
  }

  ghost predicate Sublist(r: seq<Product>, ps: seq<Product>) {
    exists at: seq<nat> :: Places(r, ps, at)
  }

  /** The rows a search asks for, as a test. */
  function Fitting(search: string): Product -> bool {
    (p: Product) => NameFits(search, p.name)
  }

  function Filtered(keep: Product -> bool, ps: seq<Product>): seq<Product> {
    if ps == [] then []
    else Filtered(keep, ps[..|ps| - 1]) + if keep(ps[|ps| - 1]) then [ps[|ps| - 1]] else []
  }

  function Hits(keep: Product -> bool, ps: seq<Product>): nat {
    if ps == [] then 0 else Hits(keep, ps[..|ps| - 1]) + if keep(ps[|ps| - 1]) then 1 else 0
  }

  /** Place k is where the k-th row that passes is, counting from 0. */
  ghost predicate HitPlaces(keep: Product -> bool, ps: seq<Product>, at: seq<nat>) {
    && |at| == Hits(keep, ps)
    && (forall k :: 0 <= k < |at| ==> at[k] < |ps| && keep(ps[at[k]]) && Hits(keep, ps[..at[k]]) == k)
  }

  ghost predicate AllHits(keep: Product -> bool, ps: seq<Product>, at: seq<nat>) {
    forall j: nat :: j < |ps| && keep(ps[j]) ==> j in at
  }

  /** A filter keeps exactly the rows that pass, in order. */
  lemma {:induction false} FilteredPlaces(keep: Product -> bool, ps: seq<Product>) returns (at: seq<nat>)
    ensures Places(Filtered(keep, ps), ps, at) && HitPlaces(keep, ps, at) && AllHits(keep, ps, at)
  {
    if ps == [] {
      at := [];
    } else {
      var n := |ps| - 1;
      at := FilteredPlaces(keep, ps[..n]);
      PlacesGrow(Filtered(keep, ps[..n]), ps, at, keep(ps[n]));
      HitPlacesGrow(keep, ps, at);
      at := at + if keep(ps[n]) then [n] else [];
    }
  }

  lemma PlacesGrow(r: seq<Product>, ps: seq<Product>, at: seq<nat>, last: bool)
    requires ps != [] && Places(r, ps[..|ps| - 1], at)
    ensures Places(r + if last then [ps[|ps| - 1]] else [], ps, at + if last then [|ps| - 1] else [])
  {
  }

  lemma HitPlacesGrow(keep: Product -> bool, ps: seq<Product>, at: seq<nat>)
    requires ps != [] && HitPlaces(keep, ps[..|ps| - 1], at) && AllHits(keep, ps[..|ps| - 1], at)
    ensures var more := at + if keep(ps[|ps| - 1]) then [|ps| - 1] else [];
            HitPlaces(keep, ps, more) && AllHits(keep, ps, more)
  {
    var n := |ps| - 1;
    var more := at + if keep(ps[n]) then [n] else [];
    forall k | 0 <= k < |more| ensures more[k] < |ps| && keep(ps[more[k]]) && Hits(keep, ps[..more[k]]) == k {
      if k < |at| {
        assert ps[..n][..at[k]] == ps[..at[k]] && ps[..n][at[k]] == ps[at[k]];
      }
    }
    forall j: nat | j < |ps| && keep(ps[j]) ensures j in more {
      if j < n {
        assert ps[..n][j] == ps[j] && j in at;
      } else {
        assert more[|more| - 1] == n;
      }
    }
  }

  /** DropTake by index: how many there are and which. */
  lemma DropTakeIs(ps: seq<Product>, drop: nat, take: nat)
    ensures var r := DropTake(ps, drop, take);
            && |r| == (if |ps| <= drop then 0 else if |ps| - drop < take then |ps| - drop else take)
            && forall k :: 0 <= k < |r| ==> r[k] == ps[drop + k]
  {
  }

  /** The page of the rows that starts after the first `skip` that pass and has at most `most` of them: every row on
      it passes, is the one with that many passing rows before it, and is listed once and in order; and a page that
      starts at the front and has room for all rows has every row that passes. */
  ghost predicate RightPage(keep: Product -> bool, skip: nat, most: nat, rows: seq<Product>, page: seq<Product>) {
    && Sublist(page, rows)
    && (forall p :: p in page ==> keep(p))
    && |page| == (if Hits(keep, rows) <= skip then 0
                  else if Hits(keep, rows) - skip < most then Hits(keep, rows) - skip else most)
    && (forall k :: 0 <= k < |page| ==> PlacedAt(keep, rows, page[k], skip + k))
    && (skip == 0 && |rows| <= most ==> forall p :: p in rows && keep(p) ==> p in page)
  }

  ghost predicate PlacedAt(keep: Product -> bool, rows: seq<Product>, p: Product, n: nat) {
    exists j :: 0 <= j < |rows| && rows[j] == p && Hits(keep, rows[..j]) == n
  }

  lemma {:induction false} HitsBound(keep: Product -> bool, ps: seq<Product>)
    ensures Hits(keep, ps) <= |ps|
  {
    if ps != [] {
      HitsBound(keep, ps[..|ps| - 1]);
    }
  }

  lemma PlacesSlice(r: seq<Product>, ps: seq<Product>, at: seq<nat>, from: nat, to: nat)
    requires Places(r, ps, at) && from <= to <= |r|
    ensures Places(r[from..to], ps, at[from..to])
  {
  }

  lemma PlaceOf(keep: Product -> bool, ps: seq<Product>, all: seq<Product>, at: seq<nat>, k: nat)
    requires Places(all, ps, at) && HitPlaces(keep, ps, at) && k < |all|
    ensures keep(all[k]) && PlacedAt(keep, ps, all[k], k)
  {
    assert ps[at[k]] == all[k];
  }

  lemma SliceIsRight(
    keep: Product -> bool, skip: nat, most: nat, ps: seq<Product>, all: seq<Product>, at: seq<nat>, page: seq<Product>)
    requires Places(all, ps, at) && HitPlaces(keep, ps, at) && page == DropTake(all, skip, most)
    ensures Sublist(page, ps) && (forall p :: p in page ==> keep(p))
    ensures forall k :: 0 <= k < |page| ==> PlacedAt(keep, ps, page[k], skip + k)
  {
    var from := if skip < |all| then skip else |all|;
    PlacesSlice(all, ps, at, from, from + |page|);
    forall k | 0 <= k < |page| ensures keep(page[k]) && PlacedAt(keep, ps, page[k], skip + k) {
      assert page[k] == all[skip + k];
      PlaceOf(keep, ps, all, at, skip + k);
    }
  }

  lemma AllAreListed(keep: Product -> bool, ps: seq<Product>, all: seq<Product>, at: seq<nat>)
    requires Places(all, ps, at) && AllHits(keep, ps, at)
    ensures forall p :: p in ps && keep(p) ==> p in all
  {
    forall p | p in ps && keep(p) ensures p in all {
      var j: nat :| j < |ps| && ps[j] == p;
      assert j in at;
      var k :| 0 <= k < |at| && at[k] == j;
      assert all[k] == p;
    }
  }

  lemma FilterIsRight(keep: Product -> bool, skip: nat, most: nat, ps: seq<Product>)
    ensures RightPage(keep, skip, most, ps, DropTake(Filtered(keep, ps), skip, most))
  {
    var all := Filtered(keep, ps);
    var at := FilteredPlaces(keep, ps);
    SliceIsRight(keep, skip, most, ps, all, at, DropTake(all, skip, most));
    HitsBound(keep, ps);
    AllAreListed(keep, ps, all, at);
    DropTakeIs(all, skip, most);
    if skip == 0 && |ps| <= most {
      assert DropTake(all, skip, most) == all;
    }
  }

  lemma FitsIsLike(search: string, name: string)
    ensures NameFits(search, name) <==> search == "" || ILike("%" + search + "%", name)
  {
    if AllPlain(search) {
      SearchIsSubstring(search, name);
    }
  }

  lemma {:induction false} SameTestSameRows(keep: Product -> bool, pattern: string, ps: seq<Product>)
    requires forall p :: p in ps ==> (keep(p) <==> ILike(pattern, p.name))
    ensures Filtered(keep, ps) == Matching(pattern, ps)
  {
    if ps != [] {
      SameTestSameRows(keep, pattern, ps[..|ps| - 1]);
    }
  }

  lemma {:induction false} AllPass(keep: Product -> bool, ps: seq<Product>)
    requires forall p :: p in ps ==> keep(p)
    ensures Filtered(keep, ps) == ps
  {
    if ps != [] {
      AllPass(keep, ps[..|ps| - 1]);
      assert ps == ps[..|ps| - 1] + [ps[|ps| - 1]];
    }
  }

  lemma MatchingIsFiltered(search: string, ps: seq<Product>)
    ensures Filtered(Fitting(search), ps) == if search == "" then ps else Matching("%" + search + "%", ps)
  {
    if search == "" {
      AllPass(Fitting(search), ps);
    } else {
      forall p | p in ps ensures Fitting(search)(p) <==> ILike("%" + search + "%", p.name) {
        FitsIsLike(search, p.name);
      }
      SameTestSameRows(Fitting(search), "%" + search + "%", ps);
    }
  }

  /** Every page is the right one. */
  lemma PageIsRight(f: Filter, early: bool, ps: seq<Product>)
    requires Answerable(f, early)
    ensures RightPage(Fitting(f.search), Offset(f), LimitArg(f, early), ps, Page(f, early, ps))
  {
    MatchingIsFiltered(f.search, ps);
    FilterIsRight(Fitting(f.search), Offset(f), LimitArg(f, early), ps);
  }

  /** The query builder of GetAll: clauses, argument list and placeholder counter grow together, and every
      placeholder ends up bound to its own argument. */
  method BuildQuery(f: Filter, early: bool) returns (q: seq<Clause>, args: seq<Arg>)
    ensures forall ps :: Evaluate(q, args, ps) == if Answerable(f, early) then Some(Page(f, early, ps)) else None
    ensures forall ps :: Evaluate(q, args, ps).Some? ==>
              Offset(f) >= 0 && LimitArg(f, early) >= 0
              && RightPage(Fitting(f.search), Offset(f), LimitArg(f, early), ps, Evaluate(q, args, ps).value)
    ensures args == (if f.search == "" then [] else [Text("%" + f.search + "%")])
                    + [Num(if early || f.limit >= 1 then f.limit else 10)]
                    + [Num(Wrap64(((if f.page < 1 then 1 else f.page) - 1) * (if f.limit < 1 then 10 else f.limit)))]
  {
    q, args := [], [];
    var argCounter := 1;
    if f.search != "" {
      q := q + [NameLike(argCounter)];
      args := args + [Text("%" + f.search + "%")];
      argCounter := argCounter + 1;
    }
    q := q + [LimitOffset(argCounter, argCounter + 1)];
    var filter := new ProductFilter(f);
    var limit := filter.limit;
    var offset := filter.GetOffset();
    if !early {
      limit := filter.limit;
    }
    args := args + [Num(limit), Num(offset)];
    forall ps
      ensures Evaluate(q, args, ps) == if Answerable(f, early) then Some(Page(f, early, ps)) else None
    {
      QueryMeaning(f, early, q, args, ps);
    }
    forall ps | Evaluate(q, args, ps).Some?
      ensures Offset(f) >= 0 && LimitArg(f, early) >= 0
              && RightPage(Fitting(f.search), Offset(f), LimitArg(f, early), ps, Evaluate(q, args, ps).value)
    {
      QueryMeaning(f, early, q, args, ps);
      PageIsRight(f, early, ps);
    }
  }

  lemma QueryMeaning(f: Filter, early: bool, q: seq<Clause>, args: seq<Arg>, ps: seq<Product>)
    requires q == if f.search == "" then [LimitOffset(1, 2)] else [NameLike(1), LimitOffset(2, 3)]
    requires args == (if f.search == "" then [] else [Text("%" + f.search + "%")])
                     + [Num(LimitArg(f, early)), Num(Offset(f))]
    ensures Evaluate(q, args, ps) == if Answerable(f, early) then Some(Page(f, early, ps)) else None
  {
    if f.search == "" {
      assert q[1..] == [];
    } else {
      assert q[1..] == [LimitOffset(2, 3)];
      var ms := Matching("%" + f.search + "%", ps);
      assert Evaluate(q, args, ps) == Evaluate(q[1..], args, ms);
      assert [LimitOffset(2, 3)][1..] == [];
    }
  }

  // ----- Pages tile the result -----

  function FirstPages(limit: int, search: string, n: nat, early: bool, ps: seq<Product>): seq<Product>
    requires limit >= 1 && n * limit <= INT64_MAX
  {
    if n == 0 then []
    else
      OffsetExact(n, limit, search);
      FirstPages(limit, search, n - 1, early, ps) + Page(Filter(n, limit, search), early, ps)
  }

  lemma OffsetExact(n: nat, limit: int, search: string)
    requires n >= 1 && limit >= 1 && n * limit <= INT64_MAX
    ensures Offset(Filter(n, limit, search)) == (n - 1) * limit == n * limit - limit
    ensures 0 <= (n - 1) * limit <= INT64_MAX
  {
  }

  lemma DropTakeExtends(ps: seq<Product>, drop: nat, take: nat)
    ensures DropTake(ps, 0, drop) + DropTake(ps, drop, take) == DropTake(ps, 0, drop + take)
  {
  }

  /** For one fixed row order, the pages 1..n one after another are the first n * limit matches: no row is
      lost between two pages and none is repeated. */
  lemma {:induction false} PagesTile(limit: int, search: string, n: nat, early: bool, ps: seq<Product>)
    requires limit >= 1 && n * limit <= INT64_MAX
    ensures var all := if search == "" then ps else Matching("%" + search + "%", ps);
            n * limit >= 0 && FirstPages(limit, search, n, early, ps) == DropTake(all, 0, n * limit)
  {
    if n > 0 {
      OffsetExact(n, limit, search);
      PagesTile(limit, search, n - 1, early, ps);
      var all := if search == "" then ps else Matching("%" + search + "%", ps);
      DropTakeExtends(all, (n - 1) * limit, limit);
    }
  }

  /** Without ORDER BY the database may return the rows in any order; this says ps is one of them. */
  ghost predicate Lists(ps: seq<Product>, rows: map<int, Row>) {
    && (forall k :: 0 <= k < |ps| ==> ps[k].id in rows && ps[k] == AsProduct(ps[k].id, rows[ps[k].id]))
    && (forall k, l :: 0 <= k < l < |ps| ==> ps[k].id != ps[l].id)
    && |ps| == |rows|
  }

  /** What a list answer for a filter may be, when the database gives its rows in this order: rows of it whose name
      fits, in order and none twice, the right ones for the offset and the limit, and all of them when one page has
      room for the whole table. */
  ghost predicate RightList(f: Filter, early: bool, order: seq<Product>, ps: seq<Product>) {
    && Answerable(f, early)
    && RightPage(Fitting(f.search), Offset(f), LimitArg(f, early), order, ps)
    && (forall p :: p in ps ==> p in order && NameFits(f.search, p.name))
    && (Offset(f) == 0 && |order| <= LimitArg(f, early) ==>
          forall p :: p in order && NameFits(f.search, p.name) ==> p in ps)
    && forall j, k :: 0 <= j < k < |ps| ==> ps[j].id != ps[k].id
  }

  lemma PageIsRightList(f: Filter, early: bool, order: seq<Product>, rows: map<int, Row>)
    requires Answerable(f, early) && Lists(order, rows)
    ensures RightList(f, early, order, Page(f, early, order))
  {
    var ps := Page(f, early, order);
    PageIsRight(f, early, order);
    var at :| Places(ps, order, at);
    forall p | p in ps ensures p in order && NameFits(f.search, p.name) {
      assert Fitting(f.search)(p);
    }
    forall p | Offset(f) == 0 && |order| <= LimitArg(f, early) && p in order && NameFits(f.search, p.name)
      ensures p in ps
    {
      assert Fitting(f.search)(p);
    }
  }
}
