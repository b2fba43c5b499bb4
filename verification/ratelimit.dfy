/** The per-IP rate limiter: a map of token buckets that is thrown away as a whole from time to time. */
module RateLimit {
  import opened Models

  // ----- The token bucket of golang.org/x/time/rate, over exact arithmetic -----

  datatype Bucket = Bucket(tokens: real, last: real)

  datatype Rate = Rate(r: real, b: nat)

  predicate RateOk(c: Rate) {
    0.0 <= c.r
  }

  function FullBucket(c: Rate, now: real): Bucket {
    Bucket(c.b as real, now)
  }

  /** Tokens that d seconds bring. */
  function Gain(c: Rate, d: real): real {
    d * c.r
  }

  /** Tokens at time now: refilled at rate r since the last use, at most b. */
  function TokensAt(c: Rate, k: Bucket, now: real): real {
    var t := k.tokens + if now < k.last then 0.0 else Gain(c, now - k.last);
    if t > c.b as real then c.b as real else t
  }

  /** Allow(): whether a token was there, and the bucket afterwards. */
  function AllowAt(c: Rate, k: Bucket, now: real): (bool, Bucket) {
    var t := TokensAt(c, k, now);
    if t >= 1.0 then (true, Bucket(t - 1.0, now)) else (false, k)
  }

  // ----- The middleware's objects -----

  /** rate.Limiter. */
  class Limiter {
    const rate: Rate
    var bucket: Bucket

    constructor (rate: Rate, now: real)
      ensures this.rate == rate && bucket == FullBucket(rate, now)
    {
      this.rate := rate;
      this.bucket := FullBucket(rate, now);
    }

    method Allow(now: real) returns (ok: bool)
      modifies this
      ensures (ok, bucket) == AllowAt(rate, old(bucket), now)
      ensures var gained := if now < old(bucket).last then 0.0 else Gain(rate, now - old(bucket).last);
              var tokens := if old(bucket).tokens + gained > rate.b as real then rate.b as real
                            else old(bucket).tokens + gained;
              && (ok <==> tokens >= 1.0)
              && bucket == if ok then Bucket(tokens - 1.0, now) else old(bucket)
    {
      var t := TokensAt(rate, bucket, now);
      ok := t >= 1.0;
      if ok {
        bucket := Bucket(t - 1.0, now);
      }
    }
  }

  class IPRateLimiter {
    var ips: map<string, Limiter>
    const rate: Rate

    /** Every limiter in the map has the configured rate, and no two addresses share one. */
    ghost predicate Valid()
      reads this
    {
      && (forall ip :: ip in ips ==> ips[ip].rate == rate)
      && (forall ip, other :: ip in ips && other in ips && ip != other ==> ips[ip] != ips[other])
    }

    constructor (rate: Rate)
      ensures Valid() && this.rate == rate && ips == map[]
    {
      this.rate := rate;
      this.ips := map[];
    }

    /** Gets or creates, under the lock. */
    method GetLimiter(ip: string, now: real) returns (limiter: Limiter)
      requires Valid()
      modifies this
      ensures Valid() && ip in ips && limiter == ips[ip]
      ensures ip in old(ips) ==> ips == old(ips)
      ensures ip !in old(ips) ==>
                fresh(limiter) && limiter.bucket == FullBucket(rate, now) && ips == old(ips)[ip := limiter]
    {
      if ip in ips {
        limiter := ips[ip];
      } else {
        limiter := new Limiter(rate, now);
        ips := ips[ip := limiter];
      }
    }

    /** One round of cleanupVisitors: the map is replaced; limiters already handed out live on. */
    method Reset()
      modifies this
      ensures Valid() && ips == map[]
    {
      ips := map[];
    }

    /** What a request meets: lookup and Allow. A remote address that does not parse is let through. */
    method Limit(ip: Option<string>, now: real) returns (served: bool)
      requires Valid()
      modifies this, set a | a in ips :: ips[a]
      ensures Valid()
      ensures ip.None? ==> served && ips == old(ips) && forall a :: a in ips ==> ips[a].bucket == old(ips[a].bucket)
      ensures ip.Some? ==>
                && ip.value in ips && (forall a :: a in old(ips) ==> a in ips && ips[a] == old(ips[a]))
                && (forall a :: a in old(ips) && a != ip.value ==> ips[a].bucket == old(ips[a].bucket))
                && (served, ips[ip.value].bucket) ==
                     Asked(rate, Visitor(if ip.value in old(ips) then Some(old(ips[ip.value].bucket)) else None, now))
    {
      if ip.None? {
        return true;
      }
      var limiter := GetLimiter(ip.value, now);
      served := limiter.Allow(now);
    }
  }

  // ----- Runs -----

  /** Buckets are objects with an identity, so that a handler may still hold one the map has dropped. */
  datatype Gate = Gate(rate: Rate, heap: seq<Bucket>, ips: map<string, nat>, now: real)

  /** LookUp and Allow are separate calls: any number of requests may come between them. */
  datatype GateEvent = Pass(elapsed: real) | LookUp(ip: string) | Allow(obj: nat) | Reset

  predicate GatePossible(s: Gate, e: GateEvent) {
    match e
    case Pass(d) => d >= 0.0
    case LookUp(_) => true
    case Allow(obj) => obj < |s.heap|
    case Reset => true
  }

  function GateNext(s: Gate, e: GateEvent): Gate
    requires GatePossible(s, e)
  {
    match e
    case Pass(d) => s.(now := s.now + d)
    case LookUp(ip) =>
      if ip in s.ips then s
      else s.(heap := s.heap + [FullBucket(s.rate, s.now)], ips := s.ips[ip := |s.heap|])
    case Allow(obj) => s.(heap := s.heap[obj := AllowAt(s.rate, s.heap[obj], s.now).1])
    case Reset => s.(ips := map[])
  }

  function GateRun(s: Gate, es: seq<GateEvent>): Option<Gate> {
    if es == [] then Some(s)
    else match GateRun(s, es[..|es| - 1])
      case None => None
      case Some(u) => if GatePossible(u, es[|es| - 1]) then Some(GateNext(u, es[|es| - 1])) else None
  }

  ghost predicate BucketsOk(s: Gate) {
    && RateOk(s.rate)
    && (forall o :: 0 <= o < |s.heap| ==> BucketOk(s.rate, s.heap[o], s.now))
    && (forall ip :: ip in s.ips ==> s.ips[ip] < |s.heap|)
  }

  lemma GainNonNegative(c: Rate, d: real)
    requires RateOk(c) && 0.0 <= d
    ensures 0.0 <= Gain(c, d)
  {
  }

  lemma GainAdds(c: Rate, a: real, b: real)
    ensures Gain(c, a + b) == Gain(c, a) + Gain(c, b)
  {
  }

  ghost predicate BucketOk(c: Rate, k: Bucket, now: real) {
    RateOk(c) && 0.0 <= k.tokens <= c.b as real && k.last <= now
  }

  lemma TokensInBounds(c: Rate, k: Bucket, now: real)
    requires BucketOk(c, k, now)
    ensures 0.0 <= TokensAt(c, k, now) <= c.b as real
  {
    GainNonNegative(c, now - k.last);
  }

  lemma NextKeepsBuckets(s: Gate, e: GateEvent)
    requires BucketsOk(s) && GatePossible(s, e)
    ensures BucketsOk(GateNext(s, e))
  {
    if e.Allow? {
      TokensInBounds(s.rate, s.heap[e.obj], s.now);
    }
  }

  lemma {:induction false} RunKeepsBuckets(s: Gate, es: seq<GateEvent>)
    requires BucketsOk(s) && GateRun(s, es).Some?
    ensures BucketsOk(GateRun(s, es).value)
  {
    if es != [] {
      RunKeepsBuckets(s, es[..|es| - 1]);
      NextKeepsBuckets(GateRun(s, es[..|es| - 1]).value, es[|es| - 1]);
    }
  }

  /** Requests admitted by one bucket object during a run. */
  function Admitted(s: Gate, es: seq<GateEvent>, obj: nat): nat
    requires GateRun(s, es).Some?
  {
    if es == [] then 0
    else
      var pre, e := es[..|es| - 1], es[|es| - 1];
      var u := GateRun(s, pre).value;
      Admitted(s, pre, obj)
      + if e.Allow? && e.obj == obj && AllowAt(u.rate, u.heap[obj], u.now).0 then 1 else 0
  }

  /** Tokens the object could still hand out, counting a full bucket for one that does not exist yet. */
  function Left(s: Gate, obj: nat): real {
    if obj < |s.heap| then TokensAt(s.rate, s.heap[obj], s.now) else s.rate.b as real
  }

  lemma PassRefills(c: Rate, k: Bucket, now: real, d: real)
    requires BucketOk(c, k, now) && d >= 0.0
    ensures TokensAt(c, k, now + d) <= TokensAt(c, k, now) + Gain(c, d)
  {
    GainNonNegative(c, d);
    GainAdds(c, now - k.last, d);
    assert now + d - k.last == now - k.last + d;
  }

  lemma AllowSpends(c: Rate, k: Bucket, now: real)
    requires BucketOk(c, k, now)
    ensures TokensAt(c, AllowAt(c, k, now).1, now) ==
            TokensAt(c, k, now) - if AllowAt(c, k, now).0 then 1.0 else 0.0
    ensures BucketOk(c, AllowAt(c, k, now).1, now)
  {
    TokensInBounds(c, k, now);
    assert Gain(c, now - now) == 0.0;
  }

  /** One event: what an object admits and still has left grows at most by the refill. */
  lemma NextSpends(s: Gate, e: GateEvent, obj: nat)
    requires BucketsOk(s) && GatePossible(s, e)
    ensures var hit := e.Allow? && e.obj == obj && AllowAt(s.rate, s.heap[obj], s.now).0;
            (if hit then 1.0 else 0.0) + Left(GateNext(s, e), obj)
            <= Left(s, obj) + if e.Pass? then Gain(s.rate, e.elapsed) else 0.0
  {
    match e
    case Pass(d) => {
      GainNonNegative(s.rate, d);
      if obj < |s.heap| { PassRefills(s.rate, s.heap[obj], s.now, d); }
    }
    case Allow(o) => if o == obj { AllowSpends(s.rate, s.heap[obj], s.now); }
    case _ =>
  }

  /** Tokens that the time passing in a run brings. */
  function Refilled(c: Rate, es: seq<GateEvent>): real {
    if es == [] then 0.0
    else Refilled(c, es[..|es| - 1]) + if es[|es| - 1].Pass? then Gain(c, es[|es| - 1].elapsed) else 0.0
  }

  lemma {:induction false} RefilledIsGain(s: Gate, es: seq<GateEvent>)
    requires GateRun(s, es).Some?
    ensures GateRun(s, es).value.rate == s.rate
    ensures Refilled(s.rate, es) == Gain(s.rate, GateRun(s, es).value.now - s.now)
  {
    if es != [] {
      var pre, e := es[..|es| - 1], es[|es| - 1];
      RefilledIsGain(s, pre);
      if e.Pass? {
        GainAdds(s.rate, GateRun(s, pre).value.now - s.now, e.elapsed);
      }
    }
  }

  lemma {:induction false} ObjectSpends(s: Gate, es: seq<GateEvent>, obj: nat)
    requires BucketsOk(s) && GateRun(s, es).Some?
    ensures GateRun(s, es).value.rate == s.rate
    ensures Admitted(s, es, obj) as real + Left(GateRun(s, es).value, obj) <= Left(s, obj) + Refilled(s.rate, es)
  {
    if es != [] {
      var pre, e := es[..|es| - 1], es[|es| - 1];
      ObjectSpends(s, pre, obj);
      RunKeepsBuckets(s, pre);
      NextSpends(GateRun(s, pre).value, e, obj);
    }
  }

  lemma LeftInBounds(s: Gate, obj: nat)
    requires BucketsOk(s)
    ensures 0.0 <= Left(s, obj) <= s.rate.b as real
  {
    if obj < |s.heap| {
      TokensInBounds(s.rate, s.heap[obj], s.now);
    }
  }

  /** With lookup and Allow interleaved freely, a limiter object admits at most b + r * T requests in T seconds,
      also when the map has long forgotten it. */
  lemma ObjectBound(s: Gate, es: seq<GateEvent>, obj: nat)
    requires BucketsOk(s) && GateRun(s, es).Some?
    ensures Admitted(s, es, obj) as real <= s.rate.b as real + Gain(s.rate, GateRun(s, es).value.now - s.now)
  {
    ObjectSpends(s, es, obj);
    RefilledIsGain(s, es);
    RunKeepsBuckets(s, es);
    LeftInBounds(s, obj);
    LeftInBounds(GateRun(s, es).value, obj);
  }

  // ----- One address over time, with lookup and Allow as one step -----

  /** What the life of one address consists of: waiting, asking, and losing its bucket with the whole map. */
  datatype Visit = Wait(elapsed: real) | Ask | Cleared

  /** None: the address is not in the map. */
  datatype Visitor = Visitor(bucket: Option<Bucket>, now: real)

  function Asked(c: Rate, v: Visitor): (bool, Bucket) {
    AllowAt(c, match v.bucket case Some(k) => k case None => FullBucket(c, v.now), v.now)
  }

  function VisitNext(c: Rate, v: Visitor, e: Visit): Visitor {
    match e
    case Wait(d) => v.(now := v.now + d)
    case Ask => v.(bucket := Some(Asked(c, v).1))
    case Cleared => v.(bucket := None)
  }

  function VisitRun(c: Rate, v: Visitor, es: seq<Visit>): Visitor {
    if es == [] then v else VisitNext(c, VisitRun(c, v, es[..|es| - 1]), es[|es| - 1])
  }

  function Served(c: Rate, v: Visitor, es: seq<Visit>): nat {
    if es == [] then 0
    else
      var pre := es[..|es| - 1];
      Served(c, v, pre) + if es[|es| - 1].Ask? && Asked(c, VisitRun(c, v, pre)).0 then 1 else 0
  }

  function Resets(es: seq<Visit>): nat {
    if es == [] then 0 else Resets(es[..|es| - 1]) + if es[|es| - 1].Cleared? then 1 else 0
  }

  ghost predicate VisitorOk(c: Rate, v: Visitor) {
    RateOk(c) && (v.bucket.Some? ==> BucketOk(c, v.bucket.value, v.now))
  }

  ghost predicate TimeForward(es: seq<Visit>) {
    forall k :: 0 <= k < |es| && es[k].Wait? ==> es[k].elapsed >= 0.0
  }

  function VisitorLeft(c: Rate, v: Visitor): real {
    match v.bucket case Some(k) => TokensAt(c, k, v.now) case None => c.b as real
  }

  function VisitGain(c: Rate, e: Visit): real {
    match e case Wait(d) => Gain(c, d) case Ask => 0.0 case Cleared => c.b as real
  }

  lemma VisitSpends(c: Rate, v: Visitor, e: Visit)
    requires VisitorOk(c, v) && (e.Wait? ==> e.elapsed >= 0.0)
    ensures VisitorOk(c, VisitNext(c, v, e))
    ensures (if e.Ask? && Asked(c, v).0 then 1.0 else 0.0) + VisitorLeft(c, VisitNext(c, v, e))
            <= VisitorLeft(c, v) + VisitGain(c, e)
  {
    match e
    case Wait(d) => {
      GainNonNegative(c, d);
      if v.bucket.Some? { PassRefills(c, v.bucket.value, v.now, d); }
    }
    case Ask => {
      var k := match v.bucket case Some(k) => k case None => FullBucket(c, v.now);
      assert Gain(c, v.now - v.now) == 0.0;
      AllowSpends(c, k, v.now);
    }
    case Cleared => {
      if v.bucket.Some? { TokensInBounds(c, v.bucket.value, v.now); }
    }
  }

  function Gained(c: Rate, es: seq<Visit>): real {
    if es == [] then 0.0 else Gained(c, es[..|es| - 1]) + VisitGain(c, es[|es| - 1])
  }

  lemma {:induction false} GainedIsRefillAndResets(c: Rate, v: Visitor, es: seq<Visit>)
    ensures Gained(c, es) == Gain(c, VisitRun(c, v, es).now - v.now) + (c.b * Resets(es)) as real
  {
    if es != [] {
      var pre, e := es[..|es| - 1], es[|es| - 1];
      GainedIsRefillAndResets(c, v, pre);
      match e
      case Wait(d) => GainAdds(c, VisitRun(c, v, pre).now - v.now, d);
      case Cleared => assert c.b * (Resets(pre) + 1) == c.b * Resets(pre) + c.b;
      case Ask =>
    }
  }

  lemma {:induction false} VisitorSpends(c: Rate, v: Visitor, es: seq<Visit>)
    requires VisitorOk(c, v) && TimeForward(es)
    ensures VisitorOk(c, VisitRun(c, v, es))
    ensures Served(c, v, es) as real + VisitorLeft(c, VisitRun(c, v, es)) <= VisitorLeft(c, v) + Gained(c, es)
  {
    if es != [] {
      var pre := es[..|es| - 1];
      VisitorSpends(c, v, pre);
      VisitSpends(c, VisitRun(c, v, pre), es[|es| - 1]);
    }
  }

  lemma VisitorLeftInBounds(c: Rate, v: Visitor)
    requires VisitorOk(c, v)
    ensures 0.0 <= VisitorLeft(c, v) <= c.b as real
  {
    if v.bucket.Some? {
      TokensInBounds(c, v.bucket.value, v.now);
    }
  }

  /** Per-IP admission bound: in T seconds with k map resets an address is served at most b * (k + 1) + r * T
      requests, from any state. */
  lemma VisitorBound(c: Rate, v: Visitor, es: seq<Visit>)
    requires VisitorOk(c, v) && TimeForward(es)
    ensures Served(c, v, es) as real
            <= (c.b * (Resets(es) + 1)) as real + Gain(c, VisitRun(c, v, es).now - v.now)
  {
    VisitorSpends(c, v, es);
    GainedIsRefillAndResets(c, v, es);
    VisitorLeftInBounds(c, v);
    VisitorLeftInBounds(c, VisitRun(c, v, es));
    assert c.b * (Resets(es) + 1) == c.b * Resets(es) + c.b;
  }

  // ----- Requests within the rate are served -----

  /** Waiting brings r tokens per second, up to b. */
  lemma WaitingRefills(c: Rate, k: Bucket, now: real, d: real)
    requires BucketOk(c, k, now) && d >= 0.0
    ensures TokensAt(c, k, now + d) ==
            if TokensAt(c, k, now) + d * c.r > c.b as real then c.b as real else TokensAt(c, k, now) + d * c.r
  {
    GainNonNegative(c, d);
    GainAdds(c, now - k.last, d);
    assert now + d - k.last == now - k.last + d;
  }

  /** One request after each of these pauses. */
  function Paced(pauses: seq<real>): seq<Visit> {
    if pauses == [] then [] else Paced(pauses[..|pauses| - 1]) + [Wait(pauses[|pauses| - 1])] + [Ask]
  }

  lemma PacedStep(c: Rate, v: Visitor, d: real)
    requires VisitorOk(c, v) && c.b >= 1 && d >= 0.0 && d * c.r >= 1.0
    ensures Asked(c, VisitNext(c, v, Wait(d))).0
    ensures VisitorOk(c, VisitNext(c, VisitNext(c, v, Wait(d)), Ask))
  {
    VisitSpends(c, v, Wait(d));
    VisitSpends(c, VisitNext(c, v, Wait(d)), Ask);
    if v.bucket.Some? {
      WaitingRefills(c, v.bucket.value, v.now, d);
      TokensInBounds(c, v.bucket.value, v.now);
    }
  }

  /** An address that waits at least 1 / r seconds before each request is always served, from any state. */
  lemma {:induction false} PacedIsServed(c: Rate, v: Visitor, pauses: seq<real>)
    requires VisitorOk(c, v) && c.b >= 1
    requires forall k :: 0 <= k < |pauses| ==> pauses[k] >= 0.0 && pauses[k] * c.r >= 1.0
    ensures VisitorOk(c, VisitRun(c, v, Paced(pauses))) && Served(c, v, Paced(pauses)) == |pauses|
  {
    if pauses != [] {
      var n := |pauses| - 1;
      var before := Paced(pauses[..n]);
      PacedIsServed(c, v, pauses[..n]);
      PacedStep(c, VisitRun(c, v, before), pauses[n]);
      assert (before + [Wait(pauses[n])])[..|before|] == before;
      assert (before + [Wait(pauses[n])] + [Ask])[..|before| + 1] == before + [Wait(pauses[n])];
    }
  }

  function Asks(n: nat): seq<Visit> {
    if n == 0 then [] else Asks(n - 1) + [Ask]
  }

  /** And an address the map does not know is served b requests at once, and no more. */
  lemma {:induction false} BurstIsServed(c: Rate, now: real, n: nat)
    requires RateOk(c)
    ensures Served(c, Visitor(None, now), Asks(n)) == if n <= c.b then n else c.b
    ensures var u := VisitRun(c, Visitor(None, now), Asks(n));
            && u.now == now && VisitorOk(c, u)
            && VisitorLeft(c, u) == (if n <= c.b then c.b - n else 0) as real
  {
    if n > 0 {
      BurstIsServed(c, now, n - 1);
      assert Asks(n)[..|Asks(n)| - 1] == Asks(n - 1);
      BurstStep(c, VisitRun(c, Visitor(None, now), Asks(n - 1)));
    }
  }

  lemma BurstStep(c: Rate, v: Visitor)
    requires VisitorOk(c, v)
    ensures Asked(c, v).0 <==> VisitorLeft(c, v) >= 1.0
    ensures VisitorOk(c, VisitNext(c, v, Ask))
    ensures VisitorLeft(c, VisitNext(c, v, Ask)) == VisitorLeft(c, v) - if Asked(c, v).0 then 1.0 else 0.0
  {
    var k := match v.bucket case Some(k) => k case None => FullBucket(c, v.now);
    FullBucketOk(c, v.now);
    assert Gain(c, v.now - v.now) == 0.0;
    AllowSpends(c, k, v.now);
  }

  // ----- The map, when every lookup is followed at once by its Allow -----

  /** What the middleware and the cleanup do when requests do not overlap. */
  datatype Call = Elapse(seconds: real) | Request(ip: string) | Cleanup

  predicate CallPossible(s: Gate, c: Call) {
    match c
    case Elapse(d) => d >= 0.0
    case Request(ip) => ip in s.ips ==> s.ips[ip] < |s.heap|
    case Cleanup => true
  }

  /** A request is a lookup and then an Allow of the bucket it found. */
  function CallNext(s: Gate, c: Call): Gate
    requires CallPossible(s, c)
  {
    match c
    case Elapse(d) => GateNext(s, Pass(d))
    case Request(ip) => var u := GateNext(s, LookUp(ip)); GateNext(u, Allow(u.ips[ip]))
    case Cleanup => GateNext(s, Reset)
  }

  /** Whether the limiter lets a request pass. */
  predicate Passes(s: Gate, ip: string)
    requires CallPossible(s, Request(ip))
  {
    var u := GateNext(s, LookUp(ip)); AllowAt(u.rate, u.heap[u.ips[ip]], u.now).0
  }

  function CallRun(s: Gate, cs: seq<Call>): Option<Gate> {
    if cs == [] then Some(s)
    else match CallRun(s, cs[..|cs| - 1])
      case None => None
      case Some(u) => if CallPossible(u, cs[|cs| - 1]) then Some(CallNext(u, cs[|cs| - 1])) else None
  }

  /** The requests of an address that were let through. */
  function LetThrough(s: Gate, cs: seq<Call>, ip: string): nat
    requires CallRun(s, cs).Some?
  {
    if cs == [] then 0
    else
      var pre := cs[..|cs| - 1];
      LetThrough(s, pre, ip) + if cs[|cs| - 1] == Request(ip) && Passes(CallRun(s, pre).value, ip) then 1 else 0
  }

  lemma GateRunAppend(s: Gate, es: seq<GateEvent>, e: GateEvent)
    requires GateRun(s, es).Some? && GatePossible(GateRun(s, es).value, e)
    ensures GateRun(s, es + [e]) == Some(GateNext(GateRun(s, es).value, e))
  {
    assert (es + [e])[..|es + [e]| - 1] == es;
  }

  /** Such a run is a run of the free machine. */
  lemma {:induction false} CallsAreEvents(s: Gate, cs: seq<Call>) returns (es: seq<GateEvent>)
    requires CallRun(s, cs).Some?
    ensures GateRun(s, es) == CallRun(s, cs)
  {
    if cs == [] {
      es := [];
    } else {
      es := CallsAreEvents(s, cs[..|cs| - 1]);
      var u := GateRun(s, es).value;
      match cs[|cs| - 1]
      case Elapse(d) => {
        GateRunAppend(s, es, Pass(d));
        es := es + [Pass(d)];
      }
      case Request(ip) => {
        GateRunAppend(s, es, LookUp(ip));
        var v := GateNext(u, LookUp(ip));
        GateRunAppend(s, es + [LookUp(ip)], Allow(v.ips[ip]));
        es := es + [LookUp(ip)] + [Allow(v.ips[ip])];
      }
      case Cleanup => {
        GateRunAppend(s, es, Reset);
        es := es + [Reset];
      }
    }
  }

  // ----- What one address sees of it -----

  /** No two addresses share a bucket. */
  ghost predicate NoneShared(s: Gate) {
    forall ip, other :: ip in s.ips && other in s.ips && ip != other ==> s.ips[ip] != s.ips[other]
  }

  ghost predicate GateOk(s: Gate) {
    BucketsOk(s) && NoneShared(s)
  }

  function SeenBy(s: Gate, ip: string): Visitor {
    Visitor(if ip in s.ips && s.ips[ip] < |s.heap| then Some(s.heap[s.ips[ip]]) else None, s.now)
  }

  function VisitOf(c: Call, ip: string): seq<Visit> {
    match c
    case Elapse(d) => [Wait(d)]
    case Request(a) => if a == ip then [Ask] else []
    case Cleanup => [Cleared]
  }

  function VisitsOf(cs: seq<Call>, ip: string): seq<Visit> {
    if cs == [] then [] else VisitsOf(cs[..|cs| - 1], ip) + VisitOf(cs[|cs| - 1], ip)
  }

  lemma CallKeepsGate(s: Gate, c: Call)
    requires GateOk(s) && CallPossible(s, c)
    ensures GateOk(CallNext(s, c)) && CallNext(s, c).rate == s.rate
  {
    match c
    case Elapse(d) => NextKeepsBuckets(s, Pass(d));
    case Request(ip) => {
      var u := GateNext(s, LookUp(ip));
      FullBucketOk(s.rate, s.now);
      NextKeepsBuckets(s, LookUp(ip));
      NextKeepsBuckets(u, Allow(u.ips[ip]));
    }
    case Cleanup => NextKeepsBuckets(s, Reset);
  }

  lemma FullBucketOk(c: Rate, now: real)
    requires RateOk(c)
    ensures BucketOk(c, FullBucket(c, now), now)
  {
  }

  /** One call moves an address's view by that address's visit, if it is one, and not at all otherwise. */
  lemma CallIsVisit(s: Gate, c: Call, ip: string)
    requires GateOk(s) && CallPossible(s, c)
    ensures SeenBy(CallNext(s, c), ip) ==
            if VisitOf(c, ip) == [] then SeenBy(s, ip) else VisitNext(s.rate, SeenBy(s, ip), VisitOf(c, ip)[0])
    ensures c == Request(ip) ==> Passes(s, ip) == Asked(s.rate, SeenBy(s, ip)).0
  {
  }

  lemma {:induction false} RunIsVisits(s: Gate, cs: seq<Call>, ip: string)
    requires GateOk(s) && CallRun(s, cs).Some?
    ensures var u := CallRun(s, cs).value;
            && GateOk(u) && u.rate == s.rate
            && SeenBy(u, ip) == VisitRun(s.rate, SeenBy(s, ip), VisitsOf(cs, ip))
    ensures LetThrough(s, cs, ip) == Served(s.rate, SeenBy(s, ip), VisitsOf(cs, ip))
    ensures TimeForward(VisitsOf(cs, ip))
  {
    if cs != [] {
      var pre, c := cs[..|cs| - 1], cs[|cs| - 1];
      RunIsVisits(s, pre, ip);
      CallKeepsGate(CallRun(s, pre).value, c);
      CallIsVisit(CallRun(s, pre).value, c, ip);
      VisitsGrow(s.rate, SeenBy(s, ip), VisitsOf(pre, ip), VisitOf(c, ip));
    }
  }

  lemma VisitsGrow(c: Rate, v: Visitor, es: seq<Visit>, more: seq<Visit>)
    requires |more| <= 1
    ensures VisitRun(c, v, es + more) ==
            if more == [] then VisitRun(c, v, es) else VisitNext(c, VisitRun(c, v, es), more[0])
    ensures Served(c, v, es + more) ==
            Served(c, v, es) + if more == [Ask] && Asked(c, VisitRun(c, v, es)).0 then 1 else 0
  {
    if more == [] {
      assert es + more == es;
    } else {
      assert (es + more)[..|es|] == es;
    }
  }

  function Cleanups(cs: seq<Call>): nat {
    if cs == [] then 0 else Cleanups(cs[..|cs| - 1]) + if cs[|cs| - 1].Cleanup? then 1 else 0
  }

  lemma {:induction false} CleanupsAreResets(cs: seq<Call>, ip: string)
    ensures Resets(VisitsOf(cs, ip)) == Cleanups(cs)
  {
    if cs != [] {
      var pre, more := cs[..|cs| - 1], VisitOf(cs[|cs| - 1], ip);
      CleanupsAreResets(pre, ip);
      if more == [] {
        assert VisitsOf(pre, ip) + more == VisitsOf(pre, ip);
      } else {
        assert (VisitsOf(pre, ip) + more)[..|VisitsOf(pre, ip)|] == VisitsOf(pre, ip);
      }
    }
  }

  /** Per-IP admission bound on the map itself: with any number of addresses, over T seconds with k cleanups each
      of them is let through at most b * (k + 1) + r * T times, from any state. */
  lemma AddressBound(s: Gate, cs: seq<Call>, ip: string)
    requires GateOk(s) && CallRun(s, cs).Some?
    ensures LetThrough(s, cs, ip) as real
            <= (s.rate.b * (Cleanups(cs) + 1)) as real + Gain(s.rate, CallRun(s, cs).value.now - s.now)
  {
    RunIsVisits(s, cs, ip);
    CleanupsAreResets(cs, ip);
    VisitorBound(s.rate, SeenBy(s, ip), VisitsOf(cs, ip));
  }

  // ----- How many cleanups -----

  const CLEANUP_SECONDS := 300.0

  /** The cleanup goroutine sleeps at least five minutes between two resets: at each reset after the first, that
      much time has passed since the one before. */
  ghost predicate CleanupPaced(cs: seq<Call>) {
    forall j, k :: 0 <= j < k < |cs| && cs[j].Cleanup? && cs[k].Cleanup? ==> Waited(cs, j, k) >= CLEANUP_SECONDS
  }

  ghost predicate Forward(cs: seq<Call>) {
    forall k :: 0 <= k < |cs| && cs[k].Elapse? ==> cs[k].seconds >= 0.0
  }

  /** Time between call j and call k. */
  function Waited(cs: seq<Call>, j: nat, k: nat): real
    requires j <= k <= |cs|
    decreases k
  {
    if j == k then 0.0 else Waited(cs, j, k - 1) + if cs[k - 1].Elapse? then cs[k - 1].seconds else 0.0
  }

  lemma {:induction false} WaitedAdds(cs: seq<Call>, i: nat, j: nat, k: nat)
    requires i <= j <= k <= |cs|
    ensures Waited(cs, i, k) == Waited(cs, i, j) + Waited(cs, j, k)
    decreases k
  {
    if j < k {
      WaitedAdds(cs, i, j, k - 1);
    }
  }

  lemma {:induction false} WaitedPrefix(cs: seq<Call>, j: nat, k: nat, n: nat)
    requires j <= k <= n <= |cs|
    ensures Waited(cs[..n], j, k) == Waited(cs, j, k)
    decreases k
  {
    if j < k {
      WaitedPrefix(cs, j, k - 1, n);
    }
  }

  lemma {:induction false} WaitedNonNegative(cs: seq<Call>, j: nat, k: nat)
    requires Forward(cs) && j <= k <= |cs|
    ensures Waited(cs, j, k) >= 0.0
    decreases k
  {
    if j < k {
      WaitedNonNegative(cs, j, k - 1);
    }
  }

  lemma {:induction false} WaitedIsElapsed(s: Gate, cs: seq<Call>)
    requires CallRun(s, cs).Some?
    ensures CallRun(s, cs).value.now == s.now + Waited(cs, 0, |cs|) && Forward(cs)
  {
    if cs != [] {
      var n := |cs| - 1;
      WaitedIsElapsed(s, cs[..n]);
      WaitedPrefix(cs, 0, n, n);
    }
  }

  lemma PacedPrefix(cs: seq<Call>, n: nat)
    requires CleanupPaced(cs) && n <= |cs|
    ensures CleanupPaced(cs[..n])
  {
    forall j, k | 0 <= j < k < n && cs[..n][j].Cleanup? && cs[..n][k].Cleanup?
      ensures Waited(cs[..n], j, k) >= CLEANUP_SECONDS
    {
      WaitedPrefix(cs, j, k, n);
    }
  }

  /** The last reset of a run with at least one, and the time that all the pauses up to it took. */
  lemma {:induction false} LastCleanup(cs: seq<Call>) returns (j: nat)
    requires Forward(cs) && CleanupPaced(cs) && Cleanups(cs) >= 1
    ensures j < |cs| && cs[j].Cleanup?
    ensures Waited(cs, 0, j) >= CLEANUP_SECONDS * (Cleanups(cs) - 1) as real
  {
    var n := |cs| - 1;
    var pre := cs[..n];
    PacedPrefix(cs, n);
    if cs[n].Cleanup? {
      j := n;
      if Cleanups(pre) >= 1 {
        var i := LastCleanup(pre);
        WaitedPrefix(cs, 0, i, n);
        WaitedAdds(cs, 0, i, n);
      } else {
        WaitedNonNegative(cs, 0, n);
      }
    } else {
      j := LastCleanup(pre);
      WaitedPrefix(cs, 0, j, n);
    }
  }

  /** The map is reset at most floor(T / 300) + 1 times in T seconds. */
  lemma ResetsAreRare(s: Gate, cs: seq<Call>)
    requires CallRun(s, cs).Some? && CleanupPaced(cs)
    ensures var elapsed := CallRun(s, cs).value.now - s.now;
            elapsed >= 0.0 && Cleanups(cs) <= (elapsed / 300.0).Floor + 1
  {
    WaitedIsElapsed(s, cs);
    WaitedNonNegative(cs, 0, |cs|);
    if Cleanups(cs) >= 1 {
      var j := LastCleanup(cs);
      WaitedAdds(cs, 0, j, |cs|);
      WaitedNonNegative(cs, j, |cs|);
      var elapsed := CallRun(s, cs).value.now - s.now;
      assert elapsed / CLEANUP_SECONDS >= (Cleanups(cs) - 1) as real;
    }
  }

  lemma MoreResetsServeMore(served: nat, b: nat, k: nat, n: nat, gain: real)
    requires k <= n && served as real <= (b * (k + 1)) as real + gain
    ensures served as real <= (b * (n + 1)) as real + gain
  {
    MulMonotone(k + 1, n + 1, b);
    assert b * (k + 1) <= b * (n + 1);
  }

  /** Together: a bound on every address of the map that needs nothing but the length of the window. */
  lemma AddressBoundInWindow(s: Gate, cs: seq<Call>, ip: string)
    requires GateOk(s) && CallRun(s, cs).Some? && CleanupPaced(cs)
    ensures var elapsed := CallRun(s, cs).value.now - s.now;
            var n := (elapsed / 300.0).Floor + 1;
            n >= 0 && LetThrough(s, cs, ip) as real <= (s.rate.b * (n + 1)) as real + Gain(s.rate, elapsed)
  {
    AddressBound(s, cs, ip);
    ResetsAreRare(s, cs);
    var elapsed := CallRun(s, cs).value.now - s.now;
    MoreResetsServeMore(LetThrough(s, cs, ip), s.rate.b, Cleanups(cs), (elapsed / CLEANUP_SECONDS).Floor + 1,
                        Gain(s.rate, elapsed));
  }
}
