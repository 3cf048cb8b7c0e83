/** The token bucket: how many calls it lets through, whatever the clock does. */
module TokenBucket {

  /** Tokens per second, and how many there can be at once. */
  datatype Rate = Rate(perSec: real, capacity: nat)

  datatype Bucket = Bucket(tokens: real, last: real)

  predicate RateOk(r: Rate) { r.perSec >= 0.0 }

  predicate BucketOk(r: Rate, b: Bucket) { 0.0 <= b.tokens <= r.capacity as real }

  function Full(r: Rate, now: real): Bucket { Bucket(r.capacity as real, now) }

  function Least(x: real, y: real): real { if x < y then x else y }

  /** What is earned in so many seconds. */
  function Earned(r: Rate, seconds: real): real { seconds * r.perSec }

  lemma EarnedGrows(r: Rate, x: real, y: real)
    requires RateOk(r) && x <= y
    ensures Earned(r, x) <= Earned(r, y) && (x >= 0.0 ==> Earned(r, x) >= 0.0)
  {
    Product(y - x, r.perSec);
    if x >= 0.0 { Product(x, r.perSec); }
    assert (y - x) * r.perSec == y * r.perSec - x * r.perSec;
  }

  lemma Product(x: real, y: real)
    requires x >= 0.0 && y >= 0.0
    ensures x * y >= 0.0
  {
  }

  lemma EarnedAdds(r: Rate, x: real, y: real)
    ensures Earned(r, x + y) == Earned(r, x) + Earned(r, y)
  {
  }

  /** The tokens earned since the last call; a clock that has stepped back earns nothing and takes nothing. */
  function Refilled(r: Rate, b: Bucket, now: real): Bucket {
    if now > b.last then Bucket(Least(r.capacity as real, b.tokens + Earned(r, now - b.last)), now) else b
  }

  function Allow(r: Rate, b: Bucket, now: real): (Bucket, bool) {
    var f := Refilled(r, b, now);
    if f.tokens < 1.0 then (f, false) else (f.(tokens := f.tokens - 1.0), true)
  }

  class TokenBucket {
    const rate: Rate
    var tokens: real
    var last: real

    constructor (rate: Rate, now: real)
      ensures this.rate == rate && View() == Full(rate, now)
    {
      this.rate, tokens, last := rate, rate.capacity as real, now;
    }

    function View(): Bucket
      reads this
    {
      Bucket(tokens, last)
    }

    method AllowCall(now: real) returns (ok: bool)
      modifies this
      ensures (View(), ok) == Allow(rate, old(View()), now)
    {
      hide Earned;
      var elapsed := now - last;
      if elapsed > 0.0 {
        tokens := Least(rate.capacity as real, tokens + Earned(rate, elapsed));
        last := now;
      }
      if tokens < 1.0 {
        return false;
      }
      tokens := tokens - 1.0;
      return true;
    }
  }

  // ----- any run of calls -----

  /** The bucket after the calls at these times, and how many of them were allowed. */
  function Run(r: Rate, b: Bucket, times: seq<real>): (Bucket, nat) {
    if times == [] then (b, 0)
    else
      var n := |times| - 1;
      var (before, allowed) := Run(r, b, times[..n]);
      var (after, ok) := Allow(r, before, times[n]);
      (after, allowed + (if ok then 1 else 0))
  }

  lemma Earns(r: Rate, b: Bucket, now: real)
    requires RateOk(r) && BucketOk(r, b)
    ensures BucketOk(r, Allow(r, b, now).0)
    ensures Allow(r, b, now).0.last == if now > b.last then now else b.last
    ensures var (after, ok) := Allow(r, b, now);
            after.tokens + (if ok then 1.0 else 0.0) <= b.tokens + Earned(r, after.last - b.last)
  {
    hide Earned;
    if now > b.last {
      EarnedGrows(r, 0.0, now - b.last);
      EarnedAdds(r, 0.0, 0.0);
    } else {
      EarnedGrows(r, 0.0, 0.0);
    }
  }

  /**
   * Of the calls made from the first one at or after `start` on, or from any call of a bucket that has already seen that
   * time, no more are allowed than the bucket holds at once and what it earns from `start` to the latest time seen. The
   * clock may step back between them, past `start` too.
   */
  lemma {:induction false} WindowBound(r: Rate, b: Bucket, start: real, times: seq<real>)
    requires RateOk(r) && BucketOk(r, b) && times != [] && (times[0] >= start || b.last >= start)
    ensures var (after, allowed) := Run(r, b, times);
            && BucketOk(r, after) && after.last >= b.last && after.last >= start
            && (allowed as real) + after.tokens <= r.capacity as real + Earned(r, after.last - start)
  {
    hide Earned, Allow;
    var n := |times| - 1;
    var now := times[n];
    var (before, allowed) := Run(r, b, times[..n]);
    if n == 0 {
      assert times[..n] == [];
      Earns(r, b, now);
      FirstCall(r, b, start, now);
    } else {
      WindowBound(r, b, start, times[..n]);
      Earns(r, before, now);
      EarnedAdds(r, before.last - start, Allow(r, before, now).0.last - before.last);
    }
  }

  lemma FirstCall(r: Rate, b: Bucket, start: real, now: real)
    requires RateOk(r) && BucketOk(r, b) && (now >= start || b.last >= start)
    ensures var (after, ok) := Allow(r, b, now);
            after.last >= start
            && (if ok then 1.0 else 0.0) + after.tokens <= r.capacity as real + Earned(r, after.last - start)
  {
    hide Earned;
    Earns(r, b, now);
    EarnedGrows(r, 0.0, Allow(r, b, now).0.last - start);
    EarnedGrows(r, 0.0, 0.0);
  }

  // ----- a refusal costs nothing -----

  /** Refilling on the way makes no difference to refilling once. */
  lemma RefilledTwice(r: Rate, b: Bucket, now: real, later: real)
    requires RateOk(r) && BucketOk(r, b) && now <= later
    ensures Refilled(r, Refilled(r, b, now), later) == Refilled(r, b, later)
  {
    hide Earned;
    if b.last < now {
      EarnedGrows(r, 0.0, now - b.last);
      EarnedGrows(r, 0.0, later - now);
      EarnedAdds(r, 0.0, 0.0);
      EarnedAdds(r, now - b.last, later - now);
    }
  }

  /** Asking and being refused leaves every later answer as it would have been. */
  lemma RefusalCostsNothing(r: Rate, b: Bucket, now: real, later: real)
    requires RateOk(r) && BucketOk(r, b) && now <= later && !Allow(r, b, now).1
    ensures Allow(r, Allow(r, b, now).0, later) == Allow(r, b, later)
  {
    RefilledTwice(r, b, now, later);
  }

  /** The calls among these that are allowed. */
  function Granted(r: Rate, b: Bucket, times: seq<real>): seq<real> {
    if times == [] then []
    else
      var n := |times| - 1;
      var granted := Granted(r, b, times[..n]);
      if Allow(r, Run(r, b, times[..n]).0, times[n]).1 then granted + [times[n]] else granted
  }

  predicate Ascending(times: seq<real>) { forall i, j :: 0 <= i < j < |times| ==> times[i] <= times[j] }

  /**
   * On a clock that goes forward the refused calls might as well not have been made: without them every call that was
   * allowed still is, and whatever is asked afterwards is answered the same.
   */
  lemma {:induction false} RefusalsCostNothing(r: Rate, b: Bucket, times: seq<real>, now: real)
    requires RateOk(r) && BucketOk(r, b) && Ascending(times) && (times != [] ==> times[|times| - 1] <= now)
    ensures var (after, allowed), (spared, all) := Run(r, b, times), Run(r, b, Granted(r, b, times));
            && BucketOk(r, after) && BucketOk(r, spared)
            && Allow(r, after, now) == Allow(r, spared, now)
            && all == |Granted(r, b, times)| == allowed
  {
    hide Earned;
    if times != [] {
      var n := |times| - 1;
      var at, front := times[n], times[..n];
      assert forall i :: 0 <= i < n ==> front[i] == times[i];
      RefusalsCostNothing(r, b, front, at);
      var before, spared := Run(r, b, front).0, Run(r, b, Granted(r, b, front)).0;
      Earns(r, before, at);
      Earns(r, spared, at);
      if Allow(r, before, at).1 {
        var granted := Granted(r, b, front);
        assert (granted + [at])[..|granted|] == granted;
      } else {
        RefusalCostsNothing(r, before, at, now);
        RefusalCostsNothing(r, spared, at, now);
      }
    }
  }

  /** Whoever waits as long as one token takes is never refused. */
  lemma PatienceIsAllowed(r: Rate, b: Bucket, now: real)
    requires BucketOk(r, b) && r.capacity >= 1 && now > b.last && Earned(r, now - b.last) >= 1.0
    ensures Allow(r, b, now).1
  {
  }

  /** The bound is reached: a full bucket lets through all it holds in one instant. */
  lemma {:induction false} BurstIsCapacity(r: Rate, b: Bucket, n: nat, now: real)
    requires BucketOk(r, b) && now <= b.last && n as real <= b.tokens
    ensures Run(r, b, seq(n, _ => now)) == (b.(tokens := b.tokens - n as real), n)
  {
    var times := seq(n, _ => now);
    if n > 0 {
      BurstIsCapacity(r, b, n - 1, now);
      assert times[..n - 1] == seq(n - 1, _ => now);
    }
  }
}
