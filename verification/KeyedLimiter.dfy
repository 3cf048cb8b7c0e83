/** One bucket per key, with the idle ones swept away: when sweeping can be told from never sweeping. */
module KeyedLimiter {
  import opened TokenBucket

  datatype Limits = Limits(rate: Rate, idleFor: real)

  type Key = nat

  datatype Op = Call(key: Key, now: real) | Sweep(now: real)

  function BucketOf(l: Limits, m: map<Key, Bucket>, key: Key, now: real): Bucket {
    if key in m then m[key] else Full(l.rate, now)
  }

  function Called(l: Limits, m: map<Key, Bucket>, key: Key, now: real): (map<Key, Bucket>, bool) {
    var (after, ok) := Allow(l.rate, BucketOf(l, m, key, now), now);
    (m[key := after], ok)
  }

  function Swept(l: Limits, m: map<Key, Bucket>, now: real): map<Key, Bucket> {
    map k | k in m && now - m[k].last <= l.idleFor :: m[k]
  }

  class KeyedLimiter {
    const limits: Limits
    var buckets: map<Key, Bucket>

    constructor (limits: Limits)
      ensures this.limits == limits && buckets == map[]
    {
      this.limits, buckets := limits, map[];
    }

    method AllowCall(key: Key, now: real) returns (ok: bool)
      modifies this
      ensures (buckets, ok) == Called(limits, old(buckets), key, now)
    {
      if key !in buckets {
        buckets := buckets[key := Full(limits.rate, now)];
      }
      var (after, allowed) := Allow(limits.rate, buckets[key], now);
      assert buckets[key := after] == old(buckets)[key := after];
      buckets := buckets[key := after];
      ok := allowed;
    }

    method SweepIdle(now: real)
      modifies this
      ensures buckets == Swept(limits, old(buckets), now)
    {
      var keys := buckets.Keys;
      while keys != {}
        invariant keys <= old(buckets).Keys
        invariant buckets == map k | k in old(buckets) && (k in keys || now - old(buckets)[k].last <= limits.idleFor) :: old(buckets)[k]
        decreases |keys|
      {
        var k :| k in keys;
        if now - buckets[k].last > limits.idleFor {
          buckets := buckets - {k};
        }
        keys := keys - {k};
      }
    }
  }

  // ----- any run of calls and sweeps -----

  /** The answers to the calls, in order, starting from these buckets. */
  function Answers(l: Limits, m: map<Key, Bucket>, ops: seq<Op>): seq<bool>
    decreases |ops|
  {
    if ops == [] then []
    else
      match ops[0]
      case Call(key, now) =>
        var (after, ok) := Called(l, m, key, now);
        [ok] + Answers(l, after, ops[1..])
      case Sweep(now) => Answers(l, Swept(l, m, now), ops[1..])
  }

  /** The same calls with no sweep among them. */
  function Calls(ops: seq<Op>): seq<Op> {
    if ops == [] then []
    else (if ops[0].Call? then [ops[0]] else []) + Calls(ops[1..])
  }

  /** The clock never steps back. */
  predicate Forward(ops: seq<Op>, start: real)
    decreases |ops|
  {
    ops != [] ==> ops[0].now >= start && Forward(ops[1..], ops[0].now)
  }

  /** Swept and unswept buckets that no call from now on can tell apart: the missing ones would be full again. */
  ghost predicate Alike(l: Limits, m: map<Key, Bucket>, n: map<Key, Bucket>, now: real) {
    && (forall k <- m :: k in n && n[k] == m[k])
    && (forall k <- n :: BucketOk(l.rate, n[k]) && n[k].last <= now)
    && (forall k <- n :: k !in m ==> now > n[k].last && Earned(l.rate, now - n[k].last) >= l.rate.capacity as real)
  }

  lemma LaterAlike(l: Limits, m: map<Key, Bucket>, n: map<Key, Bucket>, now: real, later: real)
    requires RateOk(l.rate) && Alike(l, m, n, now) && later >= now
    ensures Alike(l, m, n, later)
  {
    forall k | k in n && k !in m ensures Earned(l.rate, later - n[k].last) >= l.rate.capacity as real {
      EarnedGrows(l.rate, now - n[k].last, later - n[k].last);
    }
  }

  /** A bucket idle that long is full when it is next asked, as a new one would be. */
  lemma SameAnswer(l: Limits, m: map<Key, Bucket>, n: map<Key, Bucket>, key: Key, now: real)
    requires RateOk(l.rate) && Alike(l, m, n, now)
    ensures Called(l, m, key, now).1 == Called(l, n, key, now).1
    ensures Alike(l, Called(l, m, key, now).0, Called(l, n, key, now).0, now)
  {
    hide Earned;
    Earns(l.rate, BucketOf(l, n, key, now), now);
    assert Allow(l.rate, BucketOf(l, m, key, now), now) == Allow(l.rate, BucketOf(l, n, key, now), now);
  }

  lemma SweepAlike(l: Limits, m: map<Key, Bucket>, n: map<Key, Bucket>, now: real)
    requires RateOk(l.rate) && l.idleFor >= 0.0 && Earned(l.rate, l.idleFor) >= l.rate.capacity as real
    requires Alike(l, m, n, now)
    ensures Alike(l, Swept(l, m, now), n, now)
  {
    forall k | k in n && k !in Swept(l, m, now)
      ensures now > n[k].last && Earned(l.rate, now - n[k].last) >= l.rate.capacity as real
    {
      if k in m { EarnedGrows(l.rate, l.idleFor, now - n[k].last); }
    }
  }

  lemma {:induction false} SweptRunsAlike(l: Limits, m: map<Key, Bucket>, n: map<Key, Bucket>, ops: seq<Op>, start: real)
    requires RateOk(l.rate) && l.idleFor >= 0.0 && Earned(l.rate, l.idleFor) >= l.rate.capacity as real
    requires Alike(l, m, n, start) && Forward(ops, start)
    ensures Answers(l, m, ops) == Answers(l, n, Calls(ops))
    decreases |ops|
  {
    if ops != [] {
      var now := ops[0].now;
      LaterAlike(l, m, n, start, now);
      hide Alike, Earned, Called, Swept;
      match ops[0]
      case Call(key, _) =>
        SameAnswer(l, m, n, key, now);
        SweptRunsAlike(l, Called(l, m, key, now).0, Called(l, n, key, now).0, ops[1..], now);
        var calls := [ops[0]] + Calls(ops[1..]);
        assert calls[0] == ops[0] && calls[1..] == Calls(ops[1..]);
      case Sweep(_) =>
        SweepAlike(l, m, n, now);
        SweptRunsAlike(l, Swept(l, m, now), n, ops[1..], now);
        assert [] + Calls(ops[1..]) == Calls(ops[1..]);
    }
  }

  // ----- one key's calls are no business of another's -----

  /** The calls under one key, and the sweeps. */
  function Under(ops: seq<Op>, key: Key): seq<Op> {
    if ops == [] then []
    else (if ops[0].Sweep? || ops[0].key == key then [ops[0]] else []) + Under(ops[1..], key)
  }

  /** The answers to the calls under one key, whatever else is asked in between. */
  function AnswersUnder(l: Limits, m: map<Key, Bucket>, ops: seq<Op>, key: Key): seq<bool>
    decreases |ops|
  {
    if ops == [] then []
    else
      match ops[0]
      case Call(k, now) =>
        var (after, ok) := Called(l, m, k, now);
        (if k == key then [ok] else []) + AnswersUnder(l, after, ops[1..], key)
      case Sweep(now) => AnswersUnder(l, Swept(l, m, now), ops[1..], key)
  }

  /** Two tables that hold the same under one key. */
  predicate SameUnder(m: map<Key, Bucket>, n: map<Key, Bucket>, key: Key) {
    (key in m <==> key in n) && (key in m ==> m[key] == n[key])
  }

  /** However many other keys are in use, a key is answered as if it were the only one. */
  lemma {:induction false} KeysAreApart(l: Limits, m: map<Key, Bucket>, n: map<Key, Bucket>, ops: seq<Op>, key: Key)
    requires SameUnder(m, n, key)
    ensures AnswersUnder(l, m, ops, key) == Answers(l, n, Under(ops, key))
    decreases |ops|
  {
    hide Allow;
    if ops != [] {
      var rest, op := Under(ops[1..], key), ops[0];
      assert ([op] + rest)[0] == op && ([op] + rest)[1..] == rest && [] + rest == rest;
      match op
      case Call(k, now) =>
        if k == key {
          KeysAreApart(l, Called(l, m, k, now).0, Called(l, n, k, now).0, ops[1..], key);
        } else {
          KeysAreApart(l, Called(l, m, k, now).0, n, ops[1..], key);
          assert [] + AnswersUnder(l, Called(l, m, k, now).0, ops[1..], key) == AnswersUnder(l, Called(l, m, k, now).0, ops[1..], key);
        }
      case Sweep(now) => KeysAreApart(l, Swept(l, m, now), Swept(l, n, now), ops[1..], key);
    }
  }

  // ----- sweeping too soon shows -----

  /** n calls under one key in one instant, and then the rest. */
  function Burst(n: nat, now: real, rest: seq<Op>): seq<Op> {
    if n == 0 then rest else [Call(0, now)] + Burst(n - 1, now, rest)
  }

  function Trues(n: nat): (r: seq<bool>)
    ensures |r| == n
  {
    if n == 0 then [] else [true] + Trues(n - 1)
  }

  lemma OneCall(l: Limits, m: map<Key, Bucket>, key: Key, now: real, rest: seq<Op>)
    ensures var (after, ok) := Called(l, m, key, now);
            Answers(l, m, [Call(key, now)] + rest) == [ok] + Answers(l, after, rest)
  {
    var ops := [Call(key, now)] + rest;
    assert ops[0] == Call(key, now) && ops[1..] == rest;
  }

  /** As many calls as there are tokens are all allowed. */
  lemma {:induction false} BurstAllowed(l: Limits, m: map<Key, Bucket>, n: nat, now: real, rest: seq<Op>)
    requires 0 in m && now <= m[0].last && n as real <= m[0].tokens
    ensures Answers(l, m, Burst(n, now, rest))
            == Trues(n) + Answers(l, m[0 := m[0].(tokens := m[0].tokens - n as real)], rest)
  {
    if n == 0 {
      assert m[0 := m[0].(tokens := m[0].tokens - n as real)] == m;
      assert Trues(0) + Answers(l, m, rest) == Answers(l, m, rest);
    } else {
      var b := m[0].(tokens := m[0].tokens - 1.0);
      hide Earned;
      OneCall(l, m, 0, now, Burst(n - 1, now, rest));
      assert Called(l, m, 0, now) == (m[0 := b], true);
      BurstAllowed(l, m[0 := b], n - 1, now, rest);
      assert m[0 := b][0 := b.(tokens := b.tokens - (n - 1) as real)] == m[0 := m[0].(tokens := m[0].tokens - n as real)];
      assert [true] + (Trues(n - 1) + Answers(l, m[0 := m[0].(tokens := m[0].tokens - n as real)], rest))
             == Trues(n) + Answers(l, m[0 := m[0].(tokens := m[0].tokens - n as real)], rest);
    }
  }

  /** With fewer tokens than calls, some call is refused. */
  lemma {:induction false} BurstRefused(l: Limits, m: map<Key, Bucket>, n: nat, now: real)
    requires 0 in m && now <= m[0].last && 0.0 <= m[0].tokens < n as real
    ensures Answers(l, m, Burst(n, now, [])) != Trues(n)
  {
    hide Earned;
    var (after, ok) := Called(l, m, 0, now);
    OneCall(l, m, 0, now, Burst(n - 1, now, []));
    assert Trues(n)[0] && ([ok] + Answers(l, after, Burst(n - 1, now, [])))[0] == ok;
    if ok {
      BurstRefused(l, after, n - 1, now);
      assert ([ok] + Answers(l, after, Burst(n - 1, now, [])))[1..] == Answers(l, after, Burst(n - 1, now, []));
      assert ([true] + Trues(n - 1))[1..] == Trues(n - 1);
    }
  }

  /** Asking a bucket is asking what it has been refilled to, and asking for a missing one is asking for a full one. */
  lemma AskedNow(l: Limits, m: map<Key, Bucket>, n: nat, now: real)
    requires n >= 1
    ensures Answers(l, m, Burst(n, now, []))
            == Answers(l, m[0 := Refilled(l.rate, BucketOf(l, m, 0, now), now)], Burst(n, now, []))
  {
    hide Earned;
    var b := Refilled(l.rate, BucketOf(l, m, 0, now), now);
    OneCall(l, m, 0, now, Burst(n - 1, now, []));
    OneCall(l, m[0 := b], 0, now, Burst(n - 1, now, []));
    var after := Allow(l.rate, b, now).0;
    assert Called(l, m, 0, now) == Called(l, m[0 := b], 0, now) by {
      assert m[0 := b][0 := after] == m[0 := after];
    }
  }

  /** All a bucket holds at once, a sweep when it has been idle just too long, and as many calls again. */
  function TwoBursts(l: Limits, at: real): seq<Op> {
    Burst(l.rate.capacity, 0.0, [Sweep(at)] + Burst(l.rate.capacity, at, []))
  }

  lemma {:induction false} CallsOfBurst(n: nat, now: real, rest: seq<Op>)
    ensures Calls(Burst(n, now, rest)) == Burst(n, now, Calls(rest))
  {
    if n > 0 {
      CallsOfBurst(n - 1, now, rest);
      assert Burst(n, now, rest)[1..] == Burst(n - 1, now, rest);
    }
  }

  lemma {:induction false} ForwardBurst(n: nat, now: real, rest: seq<Op>)
    requires Forward(rest, now)
    ensures Forward(Burst(n, now, rest), now)
  {
    if n > 0 {
      ForwardBurst(n - 1, now, rest);
      assert Burst(n, now, rest)[1..] == Burst(n - 1, now, rest);
    }
  }

  /** No run of calls and sweeps on a clock that goes forward shows that there were sweeps. */
  ghost predicate Transparent(l: Limits) {
    forall ops: seq<Op>, start: real :: Forward(ops, start) ==> Answers(l, map[], ops) == Answers(l, map[], Calls(ops))
  }

  lemma {:induction false} BurstFromNothing(l: Limits, at: real, rest: seq<Op>)
    requires l.rate.capacity >= 1
    ensures Answers(l, map[], Burst(l.rate.capacity, at, rest))
            == Trues(l.rate.capacity) + Answers(l, map[0 := Bucket(0.0, at)], rest)
  {
    hide Earned;
    var n, m := l.rate.capacity, map[0 := Full(l.rate, at)];
    OneCall(l, map[], 0, at, Burst(n - 1, at, rest));
    OneCall(l, m, 0, at, Burst(n - 1, at, rest));
    var after := Allow(l.rate, Full(l.rate, at), at).0;
    assert Called(l, map[], 0, at) == Called(l, m, 0, at) by { assert m[0 := after] == map[0 := after]; }
    BurstAllowed(l, m, n, at, rest);
    assert m[0 := m[0].(tokens := m[0].tokens - n as real)] == map[0 := Bucket(0.0, at)];
  }

  /** A time past the idle limit at which a spent bucket is still not full. */
  lemma TooSoon(l: Limits) returns (at: real)
    requires RateOk(l.rate) && l.idleFor >= 0.0 && Earned(l.rate, l.idleFor) < l.rate.capacity as real
    ensures at > l.idleFor && Earned(l.rate, at) < l.rate.capacity as real
  {
    if l.rate.perSec == 0.0 {
      at := l.idleFor + 1.0;
    } else {
      var lack := l.rate.capacity as real - l.idleFor * l.rate.perSec;
      at := l.idleFor + lack / (2.0 * l.rate.perSec);
      Half(lack, l.rate.perSec);
      EarnedAdds(l.rate, l.idleFor, lack / (2.0 * l.rate.perSec));
    }
  }

  lemma Half(x: real, y: real)
    requires x > 0.0 && y > 0.0
    ensures x / (2.0 * y) > 0.0 && (x / (2.0 * y)) * y == x / 2.0
  {
  }

  lemma SweepShows(l: Limits)
    requires RateOk(l.rate) && l.idleFor >= 0.0 && l.rate.capacity >= 1 && Earned(l.rate, l.idleFor) < l.rate.capacity as real
    ensures !Transparent(l)
  {
    var at := TooSoon(l);
    EarnedGrows(l.rate, 0.0, at);
    hide Earned;
    var n := l.rate.capacity;
    var again := Burst(n, at, []);
    var ops := TwoBursts(l, at);
    ForwardBurst(n, at, []);
    assert ([Sweep(at)] + again)[1..] == again;
    ForwardBurst(n, 0.0, [Sweep(at)] + again);
    CallsOfBurst(n, at, []);
    CallsOfBurst(n, 0.0, [Sweep(at)] + again);
    assert [] + Calls(again) == Calls(again);
    var spent := map[0 := Bucket(0.0, 0.0)];
    BurstFromNothing(l, 0.0, [Sweep(at)] + again);
    BurstFromNothing(l, 0.0, again);
    assert Swept(l, spent, at) == map[];
    BurstFromNothing(l, at, []);
    AskedNow(l, spent, n, at);
    BurstRefused(l, spent[0 := Refilled(l.rate, spent[0], at)], n, at);
    assert Answers(l, map[], ops) == Trues(n) + (Trues(n) + []);
    assert Answers(l, map[], Calls(ops)) == Trues(n) + Answers(l, spent, again);
    SameTail(Trues(n), Trues(n) + [], Answers(l, spent, again));
  }

  lemma SameTail(a: seq<bool>, b: seq<bool>, c: seq<bool>)
    ensures a + b == a + c ==> b == c
  {
    if a + b == a + c {
      assert b == (a + b)[|a|..] && c == (a + c)[|a|..];
    }
  }

  /** Sweeping is invisible exactly when the idle limit is at least the time a bucket takes to fill. */
  lemma SweepIsTransparentIff(l: Limits)
    requires RateOk(l.rate) && l.idleFor >= 0.0 && l.rate.capacity >= 1
    ensures Transparent(l) <==> Earned(l.rate, l.idleFor) >= l.rate.capacity as real
  {
    if Earned(l.rate, l.idleFor) >= l.rate.capacity as real {
      forall ops: seq<Op>, start: real | Forward(ops, start)
        ensures Answers(l, map[], ops) == Answers(l, map[], Calls(ops))
      {
        SweptRunsAlike(l, map[], map[], ops, start);
      }
    } else {
      SweepShows(l);
    }
  }

  /**
   * On a clock that steps back no limiter sweeps unseen, whatever its limits: spend a bucket, sweep it away, and ask
   * again at the time it was spent.
   */
  lemma SteppingBackShows(l: Limits)
    requires l.idleFor >= 0.0 && l.rate.capacity >= 1
    ensures var ops := Burst(l.rate.capacity, 0.0, [Sweep(l.idleFor + 1.0), Call(0, 0.0)]);
            Answers(l, map[], ops) != Answers(l, map[], Calls(ops))
  {
    hide Earned;
    var n, late, call := l.rate.capacity, l.idleFor + 1.0, Call(0, 0.0);
    var spent := map[0 := Bucket(0.0, 0.0)];
    CallsOfBurst(n, 0.0, [Sweep(late), call]);
    assert [Sweep(late), call][1..] == [call] && [call][1..] == [] && [call] == [call] + [];
    assert Calls([]) == [] && Calls([call]) == [call];
    assert [] + Calls([call]) == Calls([call]);
    assert Calls([Sweep(late), call]) == [call];
    BurstFromNothing(l, 0.0, [Sweep(late), call]);
    BurstFromNothing(l, 0.0, [call]);
    assert Swept(l, spent, late) == map[];
    OneCall(l, map[], 0, 0.0, []);
    OneCall(l, spent, 0, 0.0, []);
    assert Answers(l, map[], [call]) == [true] && Answers(l, spent, [call]) == [false];
    SameTail(Trues(n), [true], [false]);
  }

  const JOINS := Limits(Rate(5.0, 20), 300.0)
  const ADDRESS_ROOMS := Limits(Rate(0.5, 30), 300.0)

  /** The hub's own two limiters may be swept freely. */
  lemma HubLimitersAreTransparent()
    ensures Transparent(JOINS) && Transparent(ADDRESS_ROOMS)
  {
    SweepIsTransparentIff(JOINS);
    SweepIsTransparentIff(ADDRESS_ROOMS);
  }
}
