/** Alternative spellings of a word: tone placement, i and y, and every combination over its syllables, capped. */
module Spelling {
  import opened Basics
  import opened Texts

  // ----- one syllable -----

  const TONES: set<char> := {'\U{0300}', '\U{0301}', '\U{0303}', '\U{0309}', '\U{0323}'}
  const LETTER_MARKS: set<char> := {'\U{0302}', '\U{0306}', '\U{031B}'}
  const IY_ONSETS: set<string> := {"h", "k", "l", "m", "t", "qu"}

  /** A base letter and the marks on it. */
  datatype Cluster = Cluster(base: char, mods: seq<char>)

  /** How syllables are taken apart into letters and marks and put together again, and the pairs listed one by one. */
  datatype Speller = Speller(decompose: string -> seq<Cluster>, recompose: seq<Cluster> -> string, iyPairs: map<string, string>)

  function FirstTone(mods: seq<char>, i: nat): Option<char>
    requires i <= |mods|
    decreases |mods| - i
  {
    if i == |mods| then None else if mods[i] in TONES then Some(mods[i]) else FirstTone(mods, i + 1)
  }

  function Tone(c: Cluster): Option<char> { FirstTone(c.mods, 0) }

  predicate HasLetterMark(c: Cluster) { exists m <- c.mods :: m in LETTER_MARKS }

  function Dropped(mods: seq<char>, target: char): seq<char> {
    if mods == [] then [] else (if mods[0] == target then [] else [mods[0]]) + Dropped(mods[1..], target)
  }

  function Without(c: Cluster, target: char): Cluster { c.(mods := Dropped(c.mods, target)) }

  function With(c: Cluster, extra: char): Cluster { c.(mods := c.mods + [extra]) }

  predicate IsShiftablePair(a: char, b: char) { (a, b) in {('o', 'a'), ('o', 'e'), ('u', 'y')} }

  /** Whether the tone may stand on either vowel of the pair at i: plain vowels that end the syllable, and no "qu". */
  predicate Competes(cs: seq<Cluster>, i: nat)
    requires i + 1 < |cs|
  {
    && !HasLetterMark(cs[i]) && !HasLetterMark(cs[i + 1])
    && IsShiftablePair(cs[i].base, cs[i + 1].base)
    && i + 1 == |cs| - 1
    && !(cs[i].base == 'u' && i > 0 && cs[i - 1].base == 'q')
  }

  /** The syllable with its tone on the other vowel of the pair at i. */
  function ShiftAt(cs: seq<Cluster>, i: nat): Option<seq<Cluster>>
    requires i + 1 < |cs|
  {
    match Tone(cs[i])
    case Some(t) => Some(cs[i := Without(cs[i], t)][i + 1 := With(cs[i + 1], t)])
    case None =>
      match Tone(cs[i + 1])
      case Some(t) => Some(cs[i := With(cs[i], t)][i + 1 := Without(cs[i + 1], t)])
      case None => None
  }

  function ToneShift(cs: seq<Cluster>): Option<seq<Cluster>> {
    if |cs| >= 2 && Competes(cs, |cs| - 2) then ShiftAt(cs, |cs| - 2) else None
  }

  method FindToneShift(cs: seq<Cluster>) returns (shifted: Option<seq<Cluster>>)
    ensures shifted == ToneShift(cs)
  {
    var i := 0;
    while i + 1 < |cs|
      invariant 0 <= i && (|cs| >= 1 ==> i + 1 <= |cs|)
      invariant i + 1 == |cs| ==> ToneShift(cs) == None
    {
      if HasLetterMark(cs[i]) || HasLetterMark(cs[i + 1]) || !IsShiftablePair(cs[i].base, cs[i + 1].base)
         || i + 1 != |cs| - 1 || (cs[i].base == 'u' && i > 0 && cs[i - 1].base == 'q') {
        i := i + 1;
        continue;
      }
      var tone := Tone(cs[i]);
      if tone.Some? {
        return Some(cs[i := Without(cs[i], tone.value)][i + 1 := With(cs[i + 1], tone.value)]);
      }
      tone := Tone(cs[i + 1]);
      if tone.Some? {
        return Some(cs[i := With(cs[i], tone.value)][i + 1 := Without(cs[i + 1], tone.value)]);
      }
      i := i + 1;
    }
    return None;
  }

  lemma OneMark(base: char, t: char)
    ensures Tone(Cluster(base, [t])) == if t in TONES then Some(t) else None
    ensures Without(Cluster(base, [t]), t) == Cluster(base, []) && With(Cluster(base, []), t) == Cluster(base, [t])
    ensures t in TONES ==> !HasLetterMark(Cluster(base, [t]))
    ensures Tone(Cluster(base, [])) == None && !HasLetterMark(Cluster(base, []))
  {
    assert FirstTone([t], 1) == None && [] + [t] == [t];
    assert [t][1..] == [] && Dropped([t], t) == [];
  }

  /** A tone moved to the other vowel moves back: the two placements are each other's. */
  lemma ShiftUndoes(cs: seq<Cluster>)
    requires |cs| >= 2 && ToneShift(cs).Some?
    requires |cs[|cs| - 2].mods| + |cs[|cs| - 1].mods| == 1
    ensures ToneShift(ToneShift(cs).value) == Some(cs) && ToneShift(cs).value != cs
  {
    var i := |cs| - 2;
    var a, b, t := cs[i].base, cs[i + 1].base, ToneShift(cs).value;
    var mark := if cs[i].mods == [] then cs[i + 1].mods[0] else cs[i].mods[0];
    OneMark(a, mark);
    OneMark(b, mark);
    if cs[i].mods == [] {
      assert cs[i] == Cluster(a, []) && cs[i + 1] == Cluster(b, [mark]);
      assert t[i] == Cluster(a, [mark]) && t[i + 1] == Cluster(b, []);
    } else {
      assert cs[i] == Cluster(a, [mark]) && cs[i + 1] == Cluster(b, []);
      assert t[i] == Cluster(a, []) && t[i + 1] == Cluster(b, [mark]);
    }
    assert t[i := cs[i]][i + 1 := cs[i + 1]] == cs;
  }

  /** The marks on the last two letters. */
  function FinalMarks(cs: seq<Cluster>): seq<char>
    requires |cs| >= 2
  {
    cs[|cs| - 2].mods + cs[|cs| - 1].mods
  }

  lemma {:induction false} FirstToneIs(mods: seq<char>, i: nat)
    requires i <= |mods|
    ensures match FirstTone(mods, i)
            case Some(t) => t in mods[i..] && t in TONES
            case None => forall m <- mods[i..] :: m !in TONES
    decreases |mods| - i
  {
    if i < |mods| {
      FirstToneIs(mods, i + 1);
      assert mods[i..] == [mods[i]] + mods[i + 1..];
    }
  }

  /**
   * A tone can stand elsewhere exactly in a syllable that ends on a plain oa, oe or uy, not the uy of quy, with a tone on
   * either letter: then the spellings compete.
   */
  lemma ToneShiftsIff(cs: seq<Cluster>)
    ensures ToneShift(cs).Some? <==>
            && |cs| >= 2 && [cs[|cs| - 2].base, cs[|cs| - 1].base] in {"oa", "oe", "uy"}
            && !(|cs| >= 3 && cs[|cs| - 3].base == 'q' && cs[|cs| - 2].base == 'u')
            && (forall m <- FinalMarks(cs) :: m !in {'\U{0302}', '\U{0306}', '\U{031B}'})
            && (exists m <- FinalMarks(cs) :: m in {'\U{0300}', '\U{0301}', '\U{0303}', '\U{0309}', '\U{0323}'})
  {
    if |cs| >= 2 {
      var a, b := cs[|cs| - 2], cs[|cs| - 1];
      FirstToneIs(a.mods, 0);
      FirstToneIs(b.mods, 0);
      assert a.mods[0..] == a.mods && b.mods[0..] == b.mods;
      PairIs(a.base, b.base);
      hide FirstTone, IsShiftablePair;
      assert forall m :: m in FinalMarks(cs) <==> m in a.mods || m in b.mods;
    }
  }

  lemma PairIs(a: char, b: char)
    ensures IsShiftablePair(a, b) <==> [a, b] in {"oa", "oe", "uy"}
  {
    if [a, b] in {"oa", "oe", "uy"} { assert [a, b][0] == a && [a, b][1] == b; }
  }

  lemma {:induction false} DroppedIs(mods: seq<char>, target: char)
    ensures forall m :: m in Dropped(mods, target) <==> m in mods && m != target
  {
    if mods != [] {
      DroppedIs(mods[1..], target);
      assert mods == [mods[0]] + mods[1..];
    }
  }

  ghost predicate AllBut(after: seq<char>, before: seq<char>, mark: char) {
    forall m :: m in after <==> m in before && m != mark
  }

  /** A syllable whose tone has moved to the other of its last two letters: every letter, and every other mark, is as it was. */
  lemma ToneShiftMoves(cs: seq<Cluster>) returns (tone: char)
    requires ToneShift(cs).Some?
    ensures var t, n := ToneShift(cs).value, |cs|;
            && |t| == n >= 2 && t[..n - 2] == cs[..n - 2] && t[n - 2].base == cs[n - 2].base && t[n - 1].base == cs[n - 1].base
            && tone in TONES
            && if exists m <- cs[n - 2].mods :: m in TONES then
                 && tone in cs[n - 2].mods && t[n - 1].mods == cs[n - 1].mods + [tone]
                 && AllBut(t[n - 2].mods, cs[n - 2].mods, tone)
               else
                 && tone in cs[n - 1].mods && t[n - 2].mods == cs[n - 2].mods + [tone]
                 && AllBut(t[n - 1].mods, cs[n - 1].mods, tone)
  {
    var a, b := cs[|cs| - 2], cs[|cs| - 1];
    FirstToneIs(a.mods, 0);
    FirstToneIs(b.mods, 0);
    assert a.mods[0..] == a.mods && b.mods[0..] == b.mods;
    tone := if Tone(a).Some? then Tone(a).value else Tone(b).value;
    DroppedIs(a.mods, tone);
    DroppedIs(b.mods, tone);
    hide FirstTone, Dropped;
  }

  function Onset(cs: seq<Cluster>, n: nat): string
    requires n <= |cs|
  {
    if n == 0 then "" else Onset(cs, n - 1) + [cs[n - 1].base]
  }

  /** A lone final i written y, or y written i, after an onset that takes both. */
  function SwapIY(cs: seq<Cluster>): Option<seq<Cluster>> {
    var last := |cs| - 1;
    if |cs| < 2 || HasLetterMark(cs[last]) || cs[last].base !in {'i', 'y'}
       || (exists k :: 0 <= k < last && HasLetterMark(cs[k])) || Onset(cs, last) !in IY_ONSETS then None
    else Some(cs[last := cs[last].(base := if cs[last].base == 'i' then 'y' else 'i')])
  }

  lemma {:induction false} OnsetSame(a: seq<Cluster>, b: seq<Cluster>, n: nat)
    requires n <= |a| && n <= |b| && a[..n] == b[..n]
    ensures Onset(a, n) == Onset(b, n)
  {
    if n > 0 {
      assert a[..n - 1] == a[..n][..n - 1] && b[..n - 1] == b[..n][..n - 1] && a[n - 1] == a[..n][n - 1] && b[n - 1] == b[..n][n - 1];
      OnsetSame(a, b, n - 1);
    }
  }

  lemma {:induction false} OnsetIs(cs: seq<Cluster>, n: nat)
    requires n <= |cs|
    ensures |Onset(cs, n)| == n && forall k :: 0 <= k < n ==> Onset(cs, n)[k] == cs[k].base
  {
    if n > 0 { OnsetIs(cs, n - 1); }
  }

  /**
   * i and y may be written for each other exactly as the one vowel that ends a syllable of plain letters, after h, k, l, m, t
   * or qu; and then that letter is all that changes, its tone staying on it.
   */
  lemma SwapIYIs(cs: seq<Cluster>)
    ensures var n := |cs|;
            SwapIY(cs).Some? <==>
              && n >= 2 && cs[n - 1].base in {'i', 'y'} && (forall k :: 0 <= k < n ==> !HasLetterMark(cs[k]))
              && exists onset :: onset in {"h", "k", "l", "m", "t", "qu"} && |onset| == n - 1
                                 && forall k :: 0 <= k < n - 1 ==> cs[k].base == onset[k]
    ensures SwapIY(cs).Some? ==>
      var t, n := SwapIY(cs).value, |cs|;
      |t| == n && t[..n - 1] == cs[..n - 1] && t[n - 1].mods == cs[n - 1].mods && {t[n - 1].base, cs[n - 1].base} == {'i', 'y'}
  {
    if |cs| >= 2 {
      var n, onset := |cs|, Onset(cs, |cs| - 1);
      OnsetIs(cs, n - 1);
      hide Onset, HasLetterMark;
      if written :| written in {"h", "k", "l", "m", "t", "qu"} && |written| == n - 1
                    && forall k :: 0 <= k < n - 1 ==> cs[k].base == written[k] {
        assert onset == written;
      }
    }
  }

  /** Writing i for y and y for i undo each other. */
  lemma SwapUndoes(cs: seq<Cluster>)
    requires SwapIY(cs).Some?
    ensures SwapIY(SwapIY(cs).value) == Some(cs) && SwapIY(cs).value != cs
  {
    var last, t := |cs| - 1, SwapIY(cs).value;
    assert t[..last] == cs[..last];
    OnsetSame(cs, t, last);
    assert t[last := cs[last]] == cs;
  }

  function ToneShiftVariant(sp: Speller, syllable: string): Option<string> {
    match ToneShift(sp.decompose(syllable))
    case None => None
    case Some(cs) => Some(sp.recompose(cs))
  }

  function IyVariant(sp: Speller, syllable: string): Option<string> {
    if syllable in sp.iyPairs then Some(sp.iyPairs[syllable])
    else
      match SwapIY(sp.decompose(syllable))
      case None => None
      case Some(cs) => Some(sp.recompose(cs))
  }

  function Added(out: seq<string>, alt: Option<string>): seq<string> {
    if alt.None? || alt.value in out then out else out + [alt.value]
  }

  /** Every accepted spelling of a syllable, itself first. */
  function SpellingsOf(sp: Speller, syllable: string): (r: seq<string>)
    ensures |r| >= 1 && r[0] == syllable && Distinct(r)
  {
    Added(Added([syllable], ToneShiftVariant(sp, syllable)), IyVariant(sp, syllable))
  }

  /**
   * The spellings of a syllable are itself, the one with its tone on the other letter, and the one it is paired with or else
   * the one with i for y or y for i, where there are such.
   */
  lemma SpellingsAre(sp: Speller, syllable: string)
    ensures var cs := sp.decompose(syllable);
            forall v :: v in SpellingsOf(sp, syllable) <==>
              || v == syllable || (ToneShift(cs).Some? && v == sp.recompose(ToneShift(cs).value))
              || (if syllable in sp.iyPairs then v == sp.iyPairs[syllable]
                  else SwapIY(cs).Some? && v == sp.recompose(SwapIY(cs).value))
  {
    hide ToneShift, SwapIY;
  }

  // ----- combining syllables -----

  const MAX_VARIANTS: nat := 32

  type Combo = seq<string>

  /** The first n combos, each with every one of the spellings after it. */
  function Extended(combos: seq<Combo>, spellings: seq<string>, n: nat): seq<Combo>
    requires n <= |combos|
  {
    if n == 0 then [] else Extended(combos, spellings, n - 1) + Extensions(combos[n - 1], spellings)
  }

  function Extensions(prefix: Combo, spellings: seq<string>): seq<Combo> {
    seq(|spellings|, i requires 0 <= i < |spellings| => prefix + [spellings[i]])
  }

  function Take<T>(s: seq<T>, n: nat): seq<T> { if |s| <= n then s else s[..n] }

  /** The combinations over the first k syllables, no more of them kept at any step than the cap. */
  function Combos(sp: Speller, syllables: seq<string>, k: nat): seq<Combo>
    requires k <= |syllables|
  {
    if k == 0 then [[]]
    else
      var before := Combos(sp, syllables, k - 1);
      Take(Extended(before, SpellingsOf(sp, syllables[k - 1]), |before|), MAX_VARIANTS)
  }

  /** Every combination over the first k syllables. */
  function Product(sp: Speller, syllables: seq<string>, k: nat): seq<Combo>
    requires k <= |syllables|
  {
    if k == 0 then [[]]
    else
      var before := Product(sp, syllables, k - 1);
      Extended(before, SpellingsOf(sp, syllables[k - 1]), |before|)
  }

  lemma {:induction false} ExtendedSize(combos: seq<Combo>, spellings: seq<string>, n: nat)
    requires n <= |combos| && |spellings| >= 1
    ensures |Extended(combos, spellings, n)| >= n
  {
    if n > 0 { ExtendedSize(combos, spellings, n - 1); }
  }

  lemma {:induction false} ExtendedPrefix(combos: seq<Combo>, spellings: seq<string>, m: nat, n: nat)
    requires m <= n <= |combos|
    ensures Extended(combos, spellings, m) <= Extended(combos, spellings, n)
    ensures Extended(combos[..m], spellings, m) == Extended(combos, spellings, m)
    decreases n
  {
    if m < n {
      ExtendedPrefix(combos, spellings, m, n - 1);
    } else {
      ExtendedSame(combos[..m], combos, spellings, m);
    }
  }

  lemma {:induction false} ExtendedSame(a: seq<Combo>, b: seq<Combo>, spellings: seq<string>, n: nat)
    requires n <= |a| && n <= |b| && a[..n] == b[..n]
    ensures Extended(a, spellings, n) == Extended(b, spellings, n)
  {
    if n > 0 {
      assert a[n - 1] == a[..n][n - 1] && b[n - 1] == b[..n][n - 1];
      assert a[..n - 1] == a[..n][..n - 1] && b[..n - 1] == b[..n][..n - 1];
      ExtendedSame(a, b, spellings, n - 1);
    }
  }

  lemma TakeBoth(all: seq<Combo>, spellings: seq<string>, n: nat)
    requires |spellings| >= 1
    ensures var some := Take(all, n);
            Take(Extended(some, spellings, |some|), n) == Take(Extended(all, spellings, |all|), n)
  {
    hide Extended;
    if |all| > n {
      ExtendedPrefix(all, spellings, n, |all|);
      ExtendedSize(all, spellings, n);
      TakePrefix(Extended(all, spellings, n), Extended(all, spellings, |all|), n);
    }
  }

  lemma TakePrefix<T>(a: seq<T>, b: seq<T>, n: nat)
    requires a <= b && |a| >= n
    ensures Take(a, n) == Take(b, n)
  {
    assert a[..n] == b[..n];
  }

  /** Keeping the cap at every step loses none of the first combinations: what is kept is a prefix of all of them. */
  lemma {:induction false} CapKeepsTheFirst(sp: Speller, syllables: seq<string>, k: nat)
    requires k <= |syllables|
    ensures Combos(sp, syllables, k) == Take(Product(sp, syllables, k), MAX_VARIANTS)
  {
    hide SpellingsOf, Extended;
    if k > 0 {
      CapKeepsTheFirst(sp, syllables, k - 1);
      TakeBoth(Product(sp, syllables, k - 1), SpellingsOf(sp, syllables[k - 1]), MAX_VARIANTS);
    }
  }

  // ----- what the product is -----

  /** combo chooses, for each of the first k syllables, one of its spellings. */
  predicate Chooses(sp: Speller, syllables: seq<string>, k: nat, combo: Combo)
    requires k <= |syllables|
  {
    |combo| == k && forall i :: 0 <= i < k ==> combo[i] in SpellingsOf(sp, syllables[i])
  }

  lemma {:induction false} InExtended(combos: seq<Combo>, spellings: seq<string>, n: nat, c: Combo)
    requires n <= |combos|
    ensures c in Extended(combos, spellings, n)
            <==> c != [] && c[|c| - 1] in spellings && c[..|c| - 1] in combos[..n]
  {
    if n > 0 {
      InExtended(combos, spellings, n - 1, c);
      InExtensions(combos[n - 1], spellings, c);
      assert combos[..n] == combos[..n - 1] + [combos[n - 1]];
    }
  }

  lemma InExtensions(prefix: Combo, spellings: seq<string>, c: Combo)
    ensures c in Extensions(prefix, spellings) <==> c != [] && c[|c| - 1] in spellings && c[..|c| - 1] == prefix
  {
    if c in Extensions(prefix, spellings) {
      var i :| 0 <= i < |spellings| && Extensions(prefix, spellings)[i] == c;
      assert c == prefix + [spellings[i]];
    }
    if c != [] && c[|c| - 1] in spellings && c[..|c| - 1] == prefix {
      var i :| 0 <= i < |spellings| && spellings[i] == c[|c| - 1];
      assert c == prefix + [spellings[i]];
      assert Extensions(prefix, spellings)[i] == c;
    }
  }

  lemma ChoosesMore(sp: Speller, syllables: seq<string>, k: nat, c: Combo)
    requires 0 < k <= |syllables|
    ensures Chooses(sp, syllables, k, c)
            <==> c != [] && c[|c| - 1] in SpellingsOf(sp, syllables[k - 1]) && Chooses(sp, syllables, k - 1, c[..|c| - 1])
  {
    hide SpellingsOf;
    if c != [] && c[|c| - 1] in SpellingsOf(sp, syllables[k - 1]) && Chooses(sp, syllables, k - 1, c[..|c| - 1]) {
      forall i | 0 <= i < k ensures c[i] in SpellingsOf(sp, syllables[i]) {
        if i < k - 1 { assert c[i] == c[..|c| - 1][i]; }
      }
    }
    if Chooses(sp, syllables, k, c) {
      forall i | 0 <= i < k - 1 ensures c[..|c| - 1][i] in SpellingsOf(sp, syllables[i]) {}
    }
  }

  lemma ProductMore(sp: Speller, syllables: seq<string>, k: nat, c: Combo)
    requires 0 < k <= |syllables|
    ensures c in Product(sp, syllables, k)
            <==> c != [] && c[|c| - 1] in SpellingsOf(sp, syllables[k - 1]) && c[..|c| - 1] in Product(sp, syllables, k - 1)
  {
    hide SpellingsOf, Extended;
    var before := Product(sp, syllables, k - 1);
    InExtended(before, SpellingsOf(sp, syllables[k - 1]), |before|, c);
    assert before[..|before|] == before;
  }

  lemma NoChoice(sp: Speller, syllables: seq<string>, c: Combo)
    ensures c in Product(sp, syllables, 0) <==> Chooses(sp, syllables, 0, c)
  {
  }

  /** The product holds every choice of one spelling for each syllable, and nothing else. */
  lemma {:induction false} ProductIsEveryChoice(sp: Speller, syllables: seq<string>, k: nat, c: Combo)
    requires k <= |syllables|
    ensures c in Product(sp, syllables, k) <==> Chooses(sp, syllables, k, c)
  {
    hide *;
    if k == 0 {
      NoChoice(sp, syllables, c);
    } else {
      ChoosesMore(sp, syllables, k, c);
      ProductMore(sp, syllables, k, c);
      if c != [] { ProductIsEveryChoice(sp, syllables, k - 1, c[..|c| - 1]); }
    }
  }

  // ----- the variants of a word -----

  /** What the first n combos spell, each once and without the word itself. */
  function Spelled(combos: seq<Combo>, n: nat, word: string): seq<string>
    requires n <= |combos|
  {
    if n == 0 then []
    else
      var out, joined := Spelled(combos, n - 1, word), Join(combos[n - 1], " ");
      if joined == word || joined in out then out else out + [joined]
  }

  /** The alternative spellings of a word made of these syllables. */
  function Variants(sp: Speller, syllables: seq<string>): seq<string> {
    var combos := Combos(sp, syllables, |syllables|);
    Spelled(combos, |combos|, Join(syllables, " "))
  }

  lemma {:induction false} SpelledIs(combos: seq<Combo>, n: nat, word: string)
    requires n <= |combos|
    ensures Distinct(Spelled(combos, n, word))
    ensures forall v :: v in Spelled(combos, n, word) <==> v != word && exists k :: 0 <= k < n && Join(combos[k], " ") == v
  {
    if n > 0 {
      SpelledIs(combos, n - 1, word);
      hide Join;
      var out, joined := Spelled(combos, n - 1, word), Join(combos[n - 1], " ");
      forall v ensures v in Spelled(combos, n, word) <==> v != word && exists k :: 0 <= k < n && Join(combos[k], " ") == v {
        if v in out {
          var k :| 0 <= k < n - 1 && Join(combos[k], " ") == v;
        } else if v == joined && v != word {
          assert 0 <= n - 1 < n && Join(combos[n - 1], " ") == v;
        }
      }
    }
  }

  /** No word is its own variant, no variant is listed twice, and each is spelled by a choice for every syllable. */
  lemma VariantsAreSpellings(sp: Speller, syllables: seq<string>)
    ensures Distinct(Variants(sp, syllables)) && Join(syllables, " ") !in Variants(sp, syllables)
    ensures |Product(sp, syllables, |syllables|)| <= 32 ==>
      forall c :: Chooses(sp, syllables, |syllables|, c) && Join(c, " ") != Join(syllables, " ") ==>
        Join(c, " ") in Variants(sp, syllables)
    ensures forall v :: v in Variants(sp, syllables) ==> exists c :: Chooses(sp, syllables, |syllables|, c) && Join(c, " ") == v
  {
    var n, word := |syllables|, Join(syllables, " ");
    var combos, all := Combos(sp, syllables, n), Product(sp, syllables, n);
    CapKeepsTheFirst(sp, syllables, n);
    SpelledIs(combos, |combos|, word);
    hide Join, SpellingsOf, Combos, Product, Spelled;
    forall v | v in Variants(sp, syllables) ensures exists c :: Chooses(sp, syllables, n, c) && Join(c, " ") == v {
      var k :| 0 <= k < |combos| && Join(combos[k], " ") == v;
      assert combos[k] == all[k];
      ProductIsEveryChoice(sp, syllables, n, all[k]);
    }
    if |all| <= MAX_VARIANTS {
      forall c | Chooses(sp, syllables, n, c) && Join(c, " ") != word ensures Join(c, " ") in Variants(sp, syllables) {
        ProductIsEveryChoice(sp, syllables, n, c);
        var k :| 0 <= k < |all| && all[k] == c;
        assert Join(combos[k], " ") == Join(c, " ");
      }
    }
  }

  // ----- the same, in place -----

  /** One syllable more on every combo, until there are as many as are kept. */
  method ExtendCombos(combos: seq<Combo>, spellings: seq<string>) returns (next: seq<Combo>)
    ensures next == Take(Extended(combos, spellings, |combos|), MAX_VARIANTS)
  {
    next := [];
    for i := 0 to |combos|
      invariant next == Take(Extended(combos, spellings, i), MAX_VARIANTS)
    {
      var prefix := combos[i];
      ghost var before, mine := Extended(combos, spellings, i), Extensions(prefix, spellings);
      for j := 0 to |spellings|
        invariant next == Take(before + mine[..j], MAX_VARIANTS)
      {
        if |next| >= MAX_VARIANTS {
          TakeFull(before, mine, j);
          break;
        }
        assert mine[..j + 1] == mine[..j] + [prefix + [spellings[j]]];
        assert before + mine[..j + 1] == before + mine[..j] + [prefix + [spellings[j]]];
        next := next + [prefix + [spellings[j]]];
      }
      assert mine[..|spellings|] == mine;
    }
  }

  lemma TakeFull(before: seq<Combo>, mine: seq<Combo>, j: nat)
    requires j <= |mine| && |Take(before + mine[..j], MAX_VARIANTS)| >= MAX_VARIANTS
    ensures Take(before + mine, MAX_VARIANTS) == Take(before + mine[..j], MAX_VARIANTS)
  {
    assert (before + mine)[..MAX_VARIANTS] == (before + mine[..j])[..MAX_VARIANTS];
  }

  method VariantsFor(sp: Speller, syllables: seq<string>) returns (out: seq<string>)
    ensures out == Variants(sp, syllables)
  {
    var combos: seq<Combo> := [[]];
    for k := 0 to |syllables|
      invariant combos == Combos(sp, syllables, k)
    {
      combos := ExtendCombos(combos, SpellingsOf(sp, syllables[k]));
    }
    var word := Join(syllables, " ");
    var seen: set<string> := {word};
    out := [];
    for i := 0 to |combos|
      invariant out == Spelled(combos, i, word) && (forall v :: v in seen <==> v == word || v in out)
    {
      var joined := Join(combos[i], " ");
      if joined in seen {
        continue;
      }
      seen := seen + {joined};
      out := out + [joined];
    }
  }
}
