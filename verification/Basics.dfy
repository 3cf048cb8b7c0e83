/** Small shared vocabulary: options, lists without repetitions and the words of a list not yet spent. */
module Basics {

  datatype Option<+T> = None | Some(value: T)

  ghost predicate Distinct<T>(s: seq<T>) {
    forall i, j :: 0 <= i < j < |s| ==> s[i] != s[j]
  }

  /** A duplicate-free list is as long as the set of its elements. */
  lemma {:induction false} DistinctSize<T>(s: seq<T>)
    requires Distinct(s)
    ensures |set x | x in s| == |s|
  {
    if s == [] {
      assert (set x | x in s) == {};
    } else {
      var front, last := s[..|s| - 1], s[|s| - 1];
      DistinctSize(front);
      assert (set x | x in s) == (set x | x in front) + {last} by {
        assert s == front + [last];
      }
      assert last !in front;
    }
  }

  /** The words of ws, in order, that are not in spent. */
  function Unspent(ws: seq<string>, spent: set<string>): seq<string> {
    if ws == [] then []
    else
      var rest := Unspent(ws[..|ws| - 1], spent);
      var w := ws[|ws| - 1];
      if w in spent then rest else rest + [w]
  }

  lemma {:induction false} UnspentExact(ws: seq<string>, spent: set<string>)
    ensures forall w :: w in Unspent(ws, spent) <==> w in ws && w !in spent
  {
    if ws != [] {
      var front := ws[..|ws| - 1];
      UnspentExact(front, spent);
      assert ws == front + [ws[|ws| - 1]];
    }
  }

  /** What is left of two lists is what is left of each, in turn: the order of a list is kept. */
  lemma {:induction false} UnspentInOrder(a: seq<string>, b: seq<string>, spent: set<string>)
    ensures Unspent(a + b, spent) == Unspent(a, spent) + Unspent(b, spent)
  {
    if b == [] {
      assert a + b == a;
    } else {
      var front := b[..|b| - 1];
      UnspentInOrder(a, front, spent);
      assert (a + b)[..|a + b| - 1] == a + front;
    }
  }

  lemma {:induction false} UnspentEmpty(ws: seq<string>, spent: set<string>)
    ensures Unspent(ws, spent) == [] <==> forall w <- ws :: w in spent
  {
    if ws != [] {
      var front := ws[..|ws| - 1];
      UnspentEmpty(front, spent);
      assert ws == front + [ws[|ws| - 1]];
    }
  }
}
