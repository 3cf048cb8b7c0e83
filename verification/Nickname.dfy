/** Telling players in one room apart by name. */
module Nickname {
  import opened Basics
  import opened Texts

  const MAX_RUNES: nat := 20

  // ----- decimal numerals -----

  function Digit(d: nat): char
    requires d < 10
  {
    '0' + d as char
  }

  function Decimal(n: nat): (s: string)
    ensures s != [] && (|s| == 1 <==> n < 10) && forall c <- s :: '0' <= c <= '9'
  {
    if n < 10 then [Digit(n)] else Decimal(n / 10) + [Digit(n % 10)]
  }

  lemma {:induction false} DecimalInjective(m: nat, n: nat)
    requires Decimal(m) == Decimal(n)
    ensures m == n
  {
    var s, t := Decimal(m), Decimal(n);
    assert s[|s| - 1] == Digit(m % 10) && t[|t| - 1] == Digit(n % 10);
    if m >= 10 && n >= 10 {
      assert s[..|s| - 1] == Decimal(m / 10) && t[..|t| - 1] == Decimal(n / 10);
      DecimalInjective(m / 10, n / 10);
    }
  }

  lemma {:induction false} DecimalGrows(m: nat, n: nat)
    requires m <= n
    ensures |Decimal(m)| <= |Decimal(n)|
  {
    if m >= 10 { DecimalGrows(m / 10, n / 10); }
  }

  // ----- the search for a free name -----

  function Suffix(n: nat): (s: string)
    ensures |s| >= 2 && s[0] == ' '
  {
    [' '] + Decimal(n)
  }

  /** The name with a number after it, cut so that both fit. */
  function Numbered(name: string, n: nat, space: char -> bool): (r: string)
    requires |Suffix(n)| <= MAX_RUNES
    ensures |r| <= MAX_RUNES
    ensures |r| >= |Suffix(n)| && r[|r| - |Suffix(n)|..] == Suffix(n)
  {
    var suffix := Suffix(n);
    var trimmed := if |name| + |suffix| > MAX_RUNES then TrimSpace(name[..MAX_RUNES - |suffix|], space) else name;
    trimmed + suffix
  }

  /** A string ends with at most one numbered suffix: only its first character is a space. */
  lemma SuffixUnique(r: string, m: nat, n: nat)
    requires |Suffix(n)| <= |Suffix(m)| <= |r|
    requires r[|r| - |Suffix(m)|..] == Suffix(m) && r[|r| - |Suffix(n)|..] == Suffix(n)
    ensures m == n
  {
    var d := |Suffix(m)| - |Suffix(n)|;
    assert Suffix(m)[d] == Suffix(n)[0] == ' ';
    if d > 0 {
      assert Decimal(m)[d - 1] in Decimal(m);
    } else {
      assert Decimal(m) == Suffix(m)[1..] && Decimal(n) == Suffix(n)[1..];
      DecimalInjective(m, n);
    }
  }

  /** Different numbers give different names, whatever the cut left of the name. */
  lemma NumberedInjective(name: string, m: nat, n: nat, space: char -> bool)
    requires |Suffix(m)| <= MAX_RUNES && |Suffix(n)| <= MAX_RUNES
    requires Numbered(name, m, space) == Numbered(name, n, space)
    ensures m == n
  {
    if |Suffix(n)| <= |Suffix(m)| {
      SuffixUnique(Numbered(name, m, space), m, n);
    } else {
      SuffixUnique(Numbered(name, m, space), n, m);
    }
  }

  lemma {:induction false} SetOfNames(names: seq<string>)
    ensures |set x | x in names| <= |names|
  {
    if names == [] {
      assert (set x | x in names) == {};
    } else {
      var front, last := names[..|names| - 1], names[|names| - 1];
      SetOfNames(front);
      assert names == front + [last];
      assert (set x | x in names) == (set x | x in front) + {last};
    }
  }

  /** The first k numbered names, from 2 up. */
  function Tries(name: string, k: nat, space: char -> bool): (r: seq<string>)
    requires |Suffix(k + 1)| <= MAX_RUNES
    ensures |r| == k
  {
    seq(k, i requires 0 <= i < k => (DecimalGrows(i + 2, k + 1); Numbered(name, i + 2, space)))
  }

  /** Different tries are different names. */
  lemma TriesDiffer(name: string, k: nat, space: char -> bool)
    requires |Suffix(k + 1)| <= MAX_RUNES
    ensures Distinct(Tries(name, k, space))
  {
    hide Numbered, Decimal;
    var tries := Tries(name, k, space);
    forall i, j | 0 <= i < j < |tries| ensures tries[i] != tries[j] {
      DecimalGrows(i + 2, k + 1);
      DecimalGrows(j + 2, k + 1);
      if tries[i] == tries[j] { NumberedInjective(name, i + 2, j + 2, space); }
    }
  }

  /** With one more try than there are names taken, one of them is free. */
  lemma OneIsFree(name: string, taken: seq<string>, space: char -> bool)
    requires |Suffix(|taken| + 2)| <= MAX_RUNES
    ensures exists t <- Tries(name, |taken| + 1, space) :: t !in taken
  {
    var tries := Tries(name, |taken| + 1, space);
    if forall t <- tries :: t in taken {
      TriesDiffer(name, |taken| + 1, space);
      DistinctSize(tries);
      SetOfNames(taken);
      Fewer(set t | t in tries, set t | t in taken);
    }
  }

  lemma Fewer<T>(a: set<T>, b: set<T>)
    requires a <= b
    ensures |a| <= |b|
  {
    assert b == a + (b - a);
  }

  /** The first numbered name from n up that is free; `last` is where the search is sure to have ended. */
  function FirstFree(name: string, taken: seq<string>, n: nat, last: nat, space: char -> bool): (r: string)
    requires n <= last && |Suffix(last)| <= MAX_RUNES
    ensures |r| <= MAX_RUNES
    ensures r in taken ==> forall i :: n <= i <= last ==> |Suffix(i)| <= MAX_RUNES && Numbered(name, i, space) in taken
    decreases last - n
  {
    DecimalGrows(n, last);
    var candidate := Numbered(name, n, space);
    if candidate !in taken || n == last then candidate else FirstFree(name, taken, n + 1, last, space)
  }

  function Distinguished(name: string, taken: seq<string>, space: char -> bool): (r: string)
    requires |Suffix(|taken| + 2)| <= MAX_RUNES
  {
    if name !in taken then name else FirstFree(name, taken, 2, |taken| + 2, space)
  }

  /** The name a joiner is given is nobody else's, and no longer than a name may be. */
  lemma DistinguishedIsFree(name: string, taken: seq<string>, space: char -> bool)
    requires |Suffix(|taken| + 2)| <= MAX_RUNES
    ensures Distinguished(name, taken, space) !in taken
    ensures |name| <= 20 ==> |Distinguished(name, taken, space)| <= 20
  {
    if name in taken {
      OneIsFree(name, taken, space);
      var tries := Tries(name, |taken| + 1, space);
      var i :| 0 <= i < |tries| && tries[i] !in taken;
      assert 2 <= i + 2 <= |taken| + 2;
    }
  }

  /** A numbered name begins with as much of the name as there is room for, and with all of it when it fits. */
  lemma NumberedKeepsTheName(name: string, n: nat, space: char -> bool) returns (a: nat, b: nat)
    requires |Suffix(n)| <= MAX_RUNES
    ensures var room := 20 - |Suffix(n)|;
            if |name| <= room then Numbered(name, n, space) == name + Suffix(n)
            else
              && a <= b <= room && Numbered(name, n, space) == name[a..b] + Suffix(n)
              && AllSpace(name[..a], space) && AllSpace(name[b..room], space)
  {
    var room := MAX_RUNES - |Suffix(n)|;
    a, b := 0, 0;
    if |name| > room {
      a, b := TrimSpaceIs(name[..room], space);
      assert name[..room][a..b] == name[a..b] && name[..room][..a] == name[..a] && name[..room][b..] == name[b..room];
    }
  }

  /** A name nobody has is kept; one that is taken gets the first number, from 2 up, that makes it free. */
  lemma {:induction false} FirstFreeIs(name: string, taken: seq<string>, n: nat, last: nat, space: char -> bool) returns (k: nat)
    requires n <= last && |Suffix(last)| <= MAX_RUNES
    ensures n <= k <= last && |Suffix(k)| <= MAX_RUNES
    ensures FirstFree(name, taken, n, last, space) == Numbered(name, k, space)
    ensures forall j :: n <= j < k ==> |Suffix(j)| <= MAX_RUNES && Numbered(name, j, space) in taken
    decreases last - n
  {
    hide Decimal, Numbered;
    DecimalGrows(n, last);
    k := n;
    if Numbered(name, n, space) in taken && n < last { k := FirstFreeIs(name, taken, n + 1, last, space); }
  }

  lemma DistinguishedIs(name: string, taken: seq<string>, space: char -> bool) returns (k: nat)
    requires |Suffix(|taken| + 2)| <= MAX_RUNES
    ensures name !in taken ==> Distinguished(name, taken, space) == name
    ensures name in taken ==>
      && k >= 2 && |Suffix(k)| <= MAX_RUNES
      && Distinguished(name, taken, space) == Numbered(name, k, space) && Numbered(name, k, space) !in taken
      && forall j :: 2 <= j < k ==> |Suffix(j)| <= MAX_RUNES && Numbered(name, j, space) in taken
  {
    k := FirstFreeIs(name, taken, 2, |taken| + 2, space);
    DistinguishedIsFree(name, taken, space);
  }

  method WithNumber(name: string, n: nat, space: char -> bool) returns (candidate: string)
    requires |Suffix(n)| <= MAX_RUNES
    ensures candidate == Numbered(name, n, space)
  {
    var suffix := Suffix(n);
    var trimmed := name;
    if |name| + |suffix| > MAX_RUNES {
      trimmed := TrimSpace(name[..MAX_RUNES - |suffix|], space);
    }
    return trimmed + suffix;
  }

  /** The search itself: it tries no more than one number more than there are names taken. */
  method Distinguish(name: string, taken: seq<string>, space: char -> bool) returns (r: string)
    requires |Suffix(|taken| + 2)| <= MAX_RUNES
    ensures r == Distinguished(name, taken, space)
  {
    if name !in taken {
      return name;
    }
    DistinguishedIsFree(name, taken, space);
    var n := 2;
    DecimalGrows(n, |taken| + 2);
    r := WithNumber(name, n, space);
    while r in taken
      invariant 2 <= n <= |taken| + 2 && |Suffix(n)| <= MAX_RUNES && r == Numbered(name, n, space)
      invariant FirstFree(name, taken, n, |taken| + 2, space) == Distinguished(name, taken, space)
      decreases |taken| + 2 - n
    {
      n := n + 1;
      DecimalGrows(n, |taken| + 2);
      r := WithNumber(name, n, space);
    }
  }

  /** A room's names are few enough for every number to fit. */
  lemma FewFit(taken: nat)
    requires taken <= 7
    ensures |Suffix(taken + 2)| <= MAX_RUNES
  {
    assert |Decimal(taken + 2)| == 1;
  }

  /**
   * As many tries as there are names taken are enough, whatever the names, exactly when none of the tries is the name
   * itself; cutting a long name that already ends in a number can make it so.
   */
  lemma AsManyTriesIff(name: string, k: nat, space: char -> bool)
    requires k >= 1 && |Suffix(k + 1)| <= MAX_RUNES
    ensures (forall taken: seq<string> :: |taken| == k && name in taken ==> exists t <- Tries(name, k, space) :: t !in taken)
            <==> name !in Tries(name, k, space)
  {
    var tries := Tries(name, k, space);
    if name in tries {
      assert |tries| == k && forall t <- tries :: t in tries;
    } else {
      forall taken: seq<string> | |taken| == k && name in taken ensures exists t <- tries :: t !in taken {
        if forall t <- tries :: t in taken {
          TriesDiffer(name, k, space);
          DistinctSize(tries);
          SetOfNames(taken);
          Fewer((set t | t in tries) + {name}, set t | t in taken);
        }
      }
    }
  }

  lemma FirstTries(space: char -> bool)
    requires !space('x')
    ensures |Suffix(3)| == 2
    ensures Numbered("xxxxxxxxxxxxxxxxxx 2", 2, space) == "xxxxxxxxxxxxxxxxxx 2"
    ensures Numbered("xxxxxxxxxxxxxxxxxx 2", 3, space) == "xxxxxxxxxxxxxxxxxx 3"
  {
    var name := "xxxxxxxxxxxxxxxxxx 2";
    assert Decimal(2) == "2" && Suffix(2) == " 2" && Decimal(3) == "3" && Suffix(3) == " 3";
    var cut := name[..18];
    assert cut == "xxxxxxxxxxxxxxxxxx" && cut[0] == 'x' && cut[17] == 'x';
    assert TrimSpace(cut, space) == cut;
    assert cut + " 2" == name && cut + " 3" == "xxxxxxxxxxxxxxxxxx 3";
  }

  /** The call: with one name taken, and that the name itself, the first try is the name again and the second is free. */
  lemma OneTryMore(space: char -> bool)
    requires !space('x')
    ensures var name := "xxxxxxxxxxxxxxxxxx 2";
            && |name| == MAX_RUNES && |Suffix(3)| == 2
            && (forall t <- Tries(name, 1, space) :: t in [name])
            && Distinguished(name, [name], space) == "xxxxxxxxxxxxxxxxxx 3"
  {
    var name := "xxxxxxxxxxxxxxxxxx 2";
    FirstTries(space);
    hide Numbered, Suffix;
    assert "xxxxxxxxxxxxxxxxxx 3"[19] != name[19];
  }
}
