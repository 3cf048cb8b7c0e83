/** Trimming and joining text; what counts as space is left to the caller. */
module Texts {

  function TrimLeft(s: string, space: char -> bool): (r: string)
    ensures |r| <= |s|
  {
    if s != [] && space(s[0]) then TrimLeft(s[1..], space) else s
  }

  function TrimRight(s: string, space: char -> bool): (r: string)
    ensures |r| <= |s|
  {
    if s != [] && space(s[|s| - 1]) then TrimRight(s[..|s| - 1], space) else s
  }

  function TrimSpace(s: string, space: char -> bool): (r: string)
    ensures |r| <= |s|
  {
    TrimRight(TrimLeft(s, space), space)
  }

  predicate AllSpace(s: string, space: char -> bool) { forall c <- s :: space(c) }

  lemma {:induction false} TrimLeftIs(s: string, space: char -> bool) returns (a: nat)
    ensures a <= |s| && TrimLeft(s, space) == s[a..] && AllSpace(s[..a], space) && (a < |s| ==> !space(s[a]))
  {
    a := 0;
    if s != [] && space(s[0]) {
      var b := TrimLeftIs(s[1..], space);
      a := b + 1;
      assert s[..a] == [s[0]] + s[1..][..b] && s[a..] == s[1..][b..];
    }
  }

  lemma {:induction false} TrimRightIs(s: string, space: char -> bool) returns (b: nat)
    ensures b <= |s| && TrimRight(s, space) == s[..b] && AllSpace(s[b..], space) && (b > 0 ==> !space(s[b - 1]))
  {
    b := |s|;
    if s != [] && space(s[|s| - 1]) {
      var front := s[..|s| - 1];
      b := TrimRightIs(front, space);
      assert s[..b] == front[..b] && s[b..] == front[b..] + [s[|s| - 1]];
    }
  }

  /** Trimmed text is what is left between the spaces at either end: nothing else goes, and no space is left there. */
  lemma TrimSpaceIs(s: string, space: char -> bool) returns (a: nat, b: nat)
    ensures a <= b <= |s| && TrimSpace(s, space) == s[a..b] && AllSpace(s[..a], space) && AllSpace(s[b..], space)
    ensures a < b ==> !space(s[a]) && !space(s[b - 1])
  {
    a := TrimLeftIs(s, space);
    var n := TrimRightIs(s[a..], space);
    b := a + n;
    assert s[a..][..n] == s[a..b] && s[a..][n..] == s[b..];
  }

  function Join(parts: seq<string>, sep: string): string {
    if parts == [] then ""
    else if |parts| == 1 then parts[0]
    else parts[0] + sep + Join(parts[1..], sep)
  }

  lemma {:induction false} TrimLeftTail(s: string, c: char, space: char -> bool)
    requires space(c)
    ensures TrimLeft(s + [c], space) == if TrimLeft(s, space) == [] then [] else TrimLeft(s, space) + [c]
  {
    if s == [] {
      assert s + [c] == [c];
    } else {
      assert (s + [c])[0] == s[0] && (s + [c])[1..] == s[1..] + [c];
      if space(s[0]) { TrimLeftTail(s[1..], c, space); }
    }
  }

  /** A space at either end of a text makes no difference once it is trimmed. */
  lemma TrimTail(s: string, c: char, space: char -> bool)
    requires space(c)
    ensures TrimSpace(s + [c], space) == TrimSpace(s, space)
  {
    TrimLeftTail(s, c, space);
    var t := TrimLeft(s, space);
    if t != [] { assert (t + [c])[..|t|] == t; }
  }

  lemma TrimHead(c: char, s: string, space: char -> bool)
    requires space(c)
    ensures TrimSpace([c] + s, space) == TrimSpace(s, space)
  {
    assert ([c] + s)[1..] == s;
  }
}
