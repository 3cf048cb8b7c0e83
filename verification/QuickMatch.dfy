/** The quick-match queue: strangers are paired first come, first served, and never with a connection that has gone. */
module QuickMatch {
  import opened Basics

  type Session = nat

  datatype Outcome = AlreadyQueued | Queued | Paired(waiter: Session)

  /** The first waiter from k on whose connection is alive, or the length of the queue. */
  function NextAlive(waiting: seq<Session>, dead: set<Session>, k: nat): (i: nat)
    requires k <= |waiting|
    ensures k <= i <= |waiting| && (i < |waiting| ==> waiting[i] !in dead)
    ensures forall j :: k <= j < i ==> waiting[j] in dead
    decreases |waiting| - k
  {
    if k == |waiting| || waiting[k] !in dead then k else NextAlive(waiting, dead, k + 1)
  }

  function Match(waiting: seq<Session>, s: Session, dead: set<Session>): (seq<Session>, Outcome) {
    if s in waiting then (waiting, AlreadyQueued)
    else
      var i := NextAlive(waiting, dead, 0);
      if i == |waiting| then ([s], Queued) else (waiting[i + 1..], Paired(waiting[i]))
  }

  function Cancel(waiting: seq<Session>, s: Session): seq<Session> {
    if waiting == [] then []
    else if waiting[0] == s then waiting[1..]
    else [waiting[0]] + Cancel(waiting[1..], s)
  }

  /** The queue once whoever has just been seated, if anybody has, no longer waits in it. */
  function Without(waiting: seq<Session>, seated: Option<Session>): seq<Session> {
    if seated.Some? then Cancel(waiting, seated.value) else waiting
  }

  /** A pairing takes the longest-waiting live stranger, and neither side of it is left in the queue. */
  lemma MatchIsFair(waiting: seq<Session>, s: Session, dead: set<Session>)
    requires Distinct(waiting)
    ensures var (left, outcome) := Match(waiting, s, dead);
            && Distinct(left)
            && (outcome.Paired? ==>
                  && outcome.waiter != s && outcome.waiter !in dead && outcome.waiter !in left && s !in left
                  && exists i :: 0 <= i < |waiting| && waiting[i] == outcome.waiter && left == waiting[i + 1..]
                                 && forall j :: 0 <= j < i ==> waiting[j] in dead)
            && (outcome.AlreadyQueued? <==> s in waiting) && (outcome.AlreadyQueued? ==> left == waiting)
            && (outcome.Queued? ==> left == [s] && forall x <- waiting :: x in dead)
  {
    var i := NextAlive(waiting, dead, 0);
    if s !in waiting && i < |waiting| {
      assert waiting[i] in waiting;
      forall x | x in waiting[i + 1..] ensures x != waiting[i] && x in waiting {}
    }
  }

  lemma {:induction false} CancelRemoves(waiting: seq<Session>, s: Session)
    requires Distinct(waiting)
    ensures Distinct(Cancel(waiting, s))
    ensures forall x :: x in Cancel(waiting, s) <==> x in waiting && x != s
  {
    if waiting != [] {
      var rest := waiting[1..];
      assert waiting == [waiting[0]] + rest;
      assert waiting[0] !in rest;
      CancelRemoves(rest, s);
    }
  }

  class Queue {
    var waiting: seq<Session>

    constructor ()
      ensures waiting == []
    {
      waiting := [];
    }

    method QuickMatch(s: Session, dead: set<Session>) returns (outcome: Outcome)
      modifies this
      ensures (waiting, outcome) == Match(old(waiting), s, dead)
    {
      if s in waiting {
        return AlreadyQueued;
      }
      ghost var was := waiting;
      while waiting != []
        invariant |waiting| <= |was| && waiting == was[|was| - |waiting|..]
        invariant NextAlive(was, dead, |was| - |waiting|) == NextAlive(was, dead, 0)
        decreases |waiting|
      {
        var candidate := waiting[0];
        waiting := waiting[1..];
        if candidate !in dead {
          return Paired(candidate);
        }
      }
      assert [] + [s] == [s];
      waiting := waiting + [s];
      return Queued;
    }

    method CancelQuickMatch(s: Session)
      modifies this
      ensures waiting == Cancel(old(waiting), s)
    {
      for i := 0 to |waiting|
        invariant waiting == old(waiting) && s !in waiting[..i]
        invariant Cancel(waiting, s) == waiting[..i] + Cancel(waiting[i..], s)
      {
        if waiting[i] == s {
          waiting := waiting[..i] + waiting[i + 1..];
          return;
        }
        assert waiting[..i + 1] == waiting[..i] + [waiting[i]];
      }
      assert waiting[..|waiting|] == waiting;
    }
  }
}
