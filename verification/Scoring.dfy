/** What one word is worth: four bonuses on a base, trimmed together to a cap. */
module Scoring {
  import opened Basics

  const BASE_POINTS := 10
  const CHAIN_BONUS := 2
  const CHAIN_BONUS_WORDS := 15
  const SYLLABLE_BONUS := 5
  const SPEED_BONUS := 10
  const RARITY_BONUS := 15
  const RARITY_HALVING_PENALTY := 3
  const MAX_POINTS_PER_WORD := 100
  const MIN_SYLLABLES := 2

  datatype PointKind = Base | Chain | Syllables | Speed | Rarity

  datatype PointPart = PointPart(kind: PointKind, value: int)

  function Min(x: int, y: int): int { if x < y then x else y }

  function Max(x: int, y: int): int { if x < y then y else x }

  function SumParts(parts: seq<PointPart>): int {
    if parts == [] then 0 else SumParts(parts[..|parts| - 1]) + parts[|parts| - 1].value
  }

  /** The terms before the cap, in the order they are listed. */
  function RawParts(chainLength: int, syllables: int, speed: int, rarity: int): seq<PointPart> {
    [ PointPart(Base, BASE_POINTS),
      PointPart(Chain, CHAIN_BONUS * Min(chainLength, CHAIN_BONUS_WORDS)),
      PointPart(Syllables, SYLLABLE_BONUS * (syllables - MIN_SYLLABLES)),
      PointPart(Speed, speed),
      PointPart(Rarity, rarity) ]
  }

  /** Takes `overflow` points off the first n parts, from the last of them back. */
  function Trim(parts: seq<PointPart>, n: nat, overflow: int): (r: seq<PointPart>)
    requires n <= |parts|
    decreases n
  {
    if n == 0 || overflow <= 0 then parts
    else
      var p := parts[n - 1];
      var cut := Min(p.value, overflow);
      Trim(parts[n - 1 := PointPart(p.kind, p.value - cut)], n - 1, overflow - cut)
  }

  /** A term that contributed nothing is not listed. */
  function Contributing(parts: seq<PointPart>): seq<PointPart> {
    if parts == [] then []
    else
      var rest, last := Contributing(parts[..|parts| - 1]), parts[|parts| - 1];
      if last.value <= 0 then rest else rest + [last]
  }

  function Points(chainLength: int, syllables: int, speed: int, rarity: int): seq<PointPart> {
    var raw := RawParts(chainLength, syllables, speed, rarity);
    Contributing(Trim(raw, |raw|, SumParts(raw) - MAX_POINTS_PER_WORD))
  }

  method PointsFor(chainLength: int, syllables: int, speed: int, rarity: int)
    returns (total: int, parts: seq<PointPart>)
    ensures parts == Points(chainLength, syllables, speed, rarity) && total == SumParts(parts)
  {
    hide RawParts, SumParts, Trim, Contributing;
    parts := RawParts(chainLength, syllables, speed, rarity);
    parts := TrimFromEnd(parts, SumParts(parts) - MAX_POINTS_PER_WORD);
    parts := DropEmpty(parts);
    total := SumParts(parts);
  }

  method TrimFromEnd(raw: seq<PointPart>, excess: int) returns (parts: seq<PointPart>)
    ensures parts == Trim(raw, |raw|, excess)
  {
    parts := raw;
    var i, overflow := |parts| - 1, excess;
    while i >= 0 && overflow > 0
      invariant -1 <= i < |raw| == |parts|
      invariant Trim(parts, i + 1, overflow) == Trim(raw, |raw|, excess)
      decreases i
    {
      var cut := Min(parts[i].value, overflow);
      parts := parts[i := PointPart(parts[i].kind, parts[i].value - cut)];
      overflow := overflow - cut;
      i := i - 1;
    }
  }

  method DropEmpty(parts: seq<PointPart>) returns (kept: seq<PointPart>)
    ensures kept == Contributing(parts)
  {
    kept := [];
    for i := 0 to |parts|
      invariant kept == Contributing(parts[..i])
    {
      assert parts[..i + 1][..i] == parts[..i];
      if parts[i].value > 0 {
        kept := kept + [parts[i]];
      }
    }
    assert parts[..|parts|] == parts;
  }

  // ----- what the breakdown promises -----

  /** What a kind of term contributed to a listed breakdown. */
  function Listed(parts: seq<PointPart>, kind: PointKind): int {
    if parts == [] then 0
    else Listed(parts[..|parts| - 1], kind) + (if parts[|parts| - 1].kind == kind then parts[|parts| - 1].value else 0)
  }

  /** Dropping the empty terms keeps the total and what each kind contributed. */
  lemma {:induction false} ContributingKeeps(ps: seq<PointPart>, kind: PointKind)
    requires forall p <- ps :: p.value >= 0
    ensures SumParts(Contributing(ps)) == SumParts(ps)
    ensures Listed(Contributing(ps), kind) == Listed(ps, kind)
  {
    if ps != [] {
      var kept, last := Contributing(ps[..|ps| - 1]), ps[|ps| - 1];
      ContributingKeeps(ps[..|ps| - 1], kind);
      assert (kept + [last])[..|kept|] == kept;
    }
  }

  lemma {:induction false} ContributingPositive(ps: seq<PointPart>)
    ensures forall p <- Contributing(ps) :: p.value > 0
  {
    if ps != [] { ContributingPositive(ps[..|ps| - 1]); }
  }

  /** The leading terms that contributed stay in front. */
  lemma {:induction false} ContributingPrefix(ps: seq<PointPart>, i: nat)
    requires i <= |ps| && forall j :: 0 <= j < i ==> ps[j].value > 0
    ensures ps[..i] <= Contributing(ps)
    ensures i == |ps| ==> Contributing(ps) == ps
  {
    if ps != [] {
      var front := ps[..|ps| - 1];
      if i < |ps| {
        ContributingPrefix(front, i);
        assert ps[..i] == front[..i];
      } else {
        ContributingPrefix(front, i - 1);
        assert ps == front + [ps[i - 1]] && ps[..i] == ps;
      }
    }
  }

  lemma SumOfFive(ps: seq<PointPart>)
    requires |ps| == 5
    ensures SumParts(ps) == ps[0].value + ps[1].value + ps[2].value + ps[3].value + ps[4].value
  {
    assert ps[..4][..3] == ps[..3] && ps[..3][..2] == ps[..2] && ps[..2][..1] == ps[..1] && ps[..1][..0] == [];
    assert SumParts(ps[..1]) == ps[0].value;
    assert SumParts(ps[..2]) == ps[0].value + ps[1].value;
    assert SumParts(ps[..3]) == ps[0].value + ps[1].value + ps[2].value;
  }

  lemma {:induction false} ListedOnce(ps: seq<PointPart>, i: nat)
    requires i < |ps| && forall j :: 0 <= j < |ps| && j != i ==> ps[j].kind != ps[i].kind
    ensures Listed(ps, ps[i].kind) == ps[i].value
  {
    var front := ps[..|ps| - 1];
    if i < |front| {
      ListedOnce(front, i);
    } else {
      ListedNever(front, ps[i].kind);
    }
  }

  lemma {:induction false} ListedNever(ps: seq<PointPart>, kind: PointKind)
    requires forall p <- ps :: p.kind != kind
    ensures Listed(ps, kind) == 0
  {
    if ps != [] { ListedNever(ps[..|ps| - 1], kind); }
  }

  function Cut(value: int, over: int): int { if over <= 0 then 0 else Min(value, over) }

  lemma TrimStep(ps: seq<PointPart>, n: nat, over: int)
    requires 0 < n <= |ps| && ps[n - 1].value >= 0
    ensures var cut := Cut(ps[n - 1].value, over);
            Trim(ps, n, over) == Trim(ps[n - 1 := PointPart(ps[n - 1].kind, ps[n - 1].value - cut)], n - 1, over - cut)
  {
    if over <= 0 {
      assert ps[n - 1 := PointPart(ps[n - 1].kind, ps[n - 1].value)] == ps;
    }
  }

  lemma TrimDone(ps: seq<PointPart>, n: nat, over: int)
    requires n <= |ps| && over <= 0
    ensures Trim(ps, n, over) == ps
  {
  }

  lemma TrimFive(ps: seq<PointPart>, over: int) returns (r: seq<PointPart>)
    requires |ps| == 5 && forall i :: 0 <= i < 5 ==> ps[i].value >= 0
    requires over <= ps[2].value + ps[3].value + ps[4].value
    ensures r == Trim(ps, 5, over) && |r| == 5 && (forall i :: 0 <= i < 5 ==> r[i].kind == ps[i].kind)
    ensures r[0] == ps[0] && r[1] == ps[1]
    ensures r[4].value == Max(ps[4].value - Max(over, 0), 0)
    ensures r[3].value == Max(ps[3].value - Max(over - ps[4].value, 0), 0)
    ensures r[2].value == ps[2].value - Max(over - ps[4].value - ps[3].value, 0)
  {
    hide Trim;
    var c4 := Cut(ps[4].value, over);
    var c3 := Cut(ps[3].value, over - c4);
    var c2 := Cut(ps[2].value, over - c4 - c3);
    TrimStep(ps, 5, over);
    r := ps[4 := PointPart(ps[4].kind, ps[4].value - c4)];
    TrimStep(r, 4, over - c4);
    r := r[3 := PointPart(ps[3].kind, ps[3].value - c3)];
    TrimStep(r, 3, over - c4 - c3);
    r := r[2 := PointPart(ps[2].kind, ps[2].value - c2)];
    assert over - c4 - c3 - c2 <= 0;
    TrimDone(r, 2, over - c4 - c3 - c2);
  }

  lemma TrimmedAndListed(raw: seq<PointPart>, over: int)
    requires |raw| == 5 && (forall i :: 0 <= i < 5 ==> raw[i].value >= 0) && raw[0].value > 0 && raw[1].value > 0
    requires raw[0].kind == Base && raw[1].kind == Chain && raw[2].kind == Syllables
    requires raw[3].kind == Speed && raw[4].kind == Rarity
    requires over <= raw[2].value + raw[3].value + raw[4].value
    ensures var ps := Contributing(Trim(raw, 5, over));
            && (forall p <- ps :: p.value > 0)
            && SumParts(ps) == SumParts(raw) - Max(over, 0)
            && [raw[0], raw[1]] <= ps
            && Listed(ps, Rarity) == Max(raw[4].value - Max(over, 0), 0)
            && Listed(ps, Speed) == Max(raw[3].value - Max(over - raw[4].value, 0), 0)
            && Listed(ps, Syllables) == raw[2].value - Max(over - raw[4].value - raw[3].value, 0)
  {
    hide Trim, Contributing, Listed, SumParts;
    var trimmed := TrimFive(raw, over);
    SumOfFive(raw);
    SumOfFive(trimmed);
    ListedOnce(trimmed, 2);
    ListedOnce(trimmed, 3);
    ListedOnce(trimmed, 4);
    ContributingKeeps(trimmed, Rarity);
    ContributingKeeps(trimmed, Speed);
    ContributingKeeps(trimmed, Syllables);
    ContributingPositive(trimmed);
    ContributingPrefix(trimmed, 2);
    assert trimmed[..2] == [raw[0], raw[1]];
  }

  /**
   * The listed parts are positive and add up to the capped total; base and chain are never touched, and what is
   * over the cap comes off rarity first, then speed, then syllables.
   */
  lemma Breakdown(chainLength: int, syllables: int, speed: int, rarity: int)
    requires chainLength >= 1 && syllables >= MIN_SYLLABLES
    requires 0 <= speed <= SPEED_BONUS && 0 <= rarity <= RARITY_BONUS
    ensures var ps := Points(chainLength, syllables, speed, rarity);
            var length := SYLLABLE_BONUS * (syllables - MIN_SYLLABLES);
            var chain := CHAIN_BONUS * Min(chainLength, CHAIN_BONUS_WORDS);
            var over := Max(BASE_POINTS + chain + length + speed + rarity - MAX_POINTS_PER_WORD, 0);
            && (forall p <- ps :: p.value > 0)
            && SumParts(ps) == Min(MAX_POINTS_PER_WORD, BASE_POINTS + chain + length + speed + rarity)
            && [PointPart(Base, BASE_POINTS), PointPart(Chain, chain)] <= ps
            && Listed(ps, Rarity) == Max(rarity - over, 0)
            && Listed(ps, Speed) == Max(speed - Max(over - rarity, 0), 0)
            && Listed(ps, Syllables) == length - Max(over - rarity - speed, 0)
  {
    hide Trim, Contributing, Listed;
    var raw := RawParts(chainLength, syllables, speed, rarity);
    SumOfFive(raw);
    TrimmedAndListed(raw, SumParts(raw) - MAX_POINTS_PER_WORD);
  }

  // ----- speed and rarity -----

  /** The share of the turn left on the clock, of ten. */
  function SpeedPoints(deadline: int, turnLimit: int, now: int): int
    requires turnLimit > 0
  {
    var remaining := deadline - now;
    if remaining <= 0 then 0
    else SPEED_BONUS * Min(remaining, turnLimit) / turnLimit
  }

  lemma MulMonotone(x: int, y: int, d: int)
    requires d > 0 && x <= y
    ensures x * d <= y * d
  {
  }

  lemma DivMonotone(x: int, y: int, d: int)
    requires d > 0 && x <= y
    ensures x / d <= y / d
  {
    var p, q := x / d, y / d;
    assert x == p * d + x % d && y == q * d + y % d;
    if q < p {
      MulMonotone(q + 1, p, d);
    }
  }

  lemma WholeShare(x: int, d: int)
    requires d > 0
    ensures x * d / d == x
  {
    var q, r := x * d / d, x * d % d;
    assert x * d == q * d + r && 0 <= r < d;
    if x < q { MulMonotone(x + 1, q, d); }
    if q < x { MulMonotone(q + 1, x, d); }
  }

  /** Speed stays between nothing and the full bonus, is the full bonus at once, and never rises with time. */
  lemma SpeedFalls(deadline: int, turnLimit: int, now: int, later: int)
    requires turnLimit > 0 && now <= later
    ensures 0 <= SpeedPoints(deadline, turnLimit, later) <= SpeedPoints(deadline, turnLimit, now) <= 10
    ensures now <= deadline - turnLimit ==> SpeedPoints(deadline, turnLimit, now) == 10
    ensures later >= deadline ==> SpeedPoints(deadline, turnLimit, later) == 0
  {
    if now < deadline {
      var b := SPEED_BONUS * Min(deadline - now, turnLimit);
      WholeShare(SPEED_BONUS, turnLimit);
      DivMonotone(b, SPEED_BONUS * turnLimit, turnLimit);
      DivMonotone(0, b, turnLimit);
      if later < deadline {
        var a := SPEED_BONUS * Min(deadline - later, turnLimit);
        DivMonotone(a, b, turnLimit);
        DivMonotone(0, a, turnLimit);
      }
    }
  }

  /** Within the turn it is the whole tenths of the turn that are left: no fewer, and no more. */
  lemma SpeedIsTenthsLeft(deadline: int, turnLimit: int, now: int)
    requires turnLimit > 0 && deadline - turnLimit <= now <= deadline
    ensures var p := SpeedPoints(deadline, turnLimit, now);
            p * turnLimit <= 10 * (deadline - now) < (p + 1) * turnLimit
  {
    var share := SPEED_BONUS * (deadline - now);
    assert share == share / turnLimit * turnLimit + share % turnLimit;
    assert (share / turnLimit + 1) * turnLimit == share / turnLimit * turnLimit + turnLimit;
    if now == deadline { assert 0 * turnLimit == 0; }
  }

  /** The number of binary digits of n. */
  function BitLength(n: nat): nat {
    if n == 0 then 0 else 1 + BitLength(n / 2)
  }

  /** Full pay for a syllable with a single answer, less for every doubling; nothing for an unknown one. */
  function RarityPoints(options: Option<int>): int {
    if options.None? || options.value < 1 then 0
    else Max(RARITY_BONUS - RARITY_HALVING_PENALTY * (BitLength(options.value) - 1), 0)
  }

  function Pow2(n: nat): nat { if n == 0 then 1 else 2 * Pow2(n - 1) }

  lemma {:induction false} BitLengthIsLog(n: nat)
    requires n >= 1
    ensures BitLength(n) >= 1 && Pow2(BitLength(n) - 1) <= n < Pow2(BitLength(n))
  {
    if n > 1 {
      BitLengthIsLog(n / 2);
    } else {
      assert BitLength(1 / 2) == 0 && Pow2(1) == 2 * Pow2(0);
    }
  }

  lemma {:induction false} BitLengthGrows(m: nat, n: nat)
    requires m <= n
    ensures BitLength(m) <= BitLength(n)
  {
    if m > 0 {
      BitLengthGrows(m / 2, n / 2);
    }
  }

  /** The number of binary digits is one more than the floor of the binary logarithm. */
  lemma BitLengthExact(n: nat, halvings: nat)
    requires Pow2(halvings) <= n < Pow2(halvings + 1)
    ensures BitLength(n) == halvings + 1
  {
    Pow2Grows(0, halvings);
    BitLengthIsLog(n);
    var h := BitLength(n) - 1;
    if h < halvings { Pow2Grows(h + 1, halvings); }
    if halvings < h { Pow2Grows(halvings + 1, h); }
  }

  /** Rarity is the ladder 15, 12, 9, 6, 3, 0 on the floor of the binary logarithm, and never rises with the options. */
  lemma RarityLadder(options: int, more: int, halvings: nat)
    requires 1 <= options <= more
    requires Pow2(halvings) <= options < Pow2(halvings + 1)
    ensures RarityPoints(Some(options)) == if halvings <= 5 then 15 - 3 * halvings else 0
    ensures 0 <= RarityPoints(Some(more)) <= RarityPoints(Some(options)) <= RARITY_BONUS
  {
    BitLengthExact(options, halvings);
    BitLengthGrows(options, more);
  }

  /** A syllable nobody knows, or that nothing answers, earns nothing for being rare. */
  lemma UnknownIsNotRare(options: Option<int>)
    requires options.None? || options.value <= 0
    ensures RarityPoints(options) == 0
  {
  }

  lemma RarityInRange(options: Option<int>)
    ensures 0 <= RarityPoints(options) <= RARITY_BONUS
  {
    if options.Some? && options.value >= 1 { BitLengthIsLog(options.value); }
  }

  lemma {:induction false} Pow2Grows(m: nat, n: nat)
    requires m <= n
    ensures Pow2(m) <= Pow2(n)
  {
    if m < n { Pow2Grows(m, n - 1); }
  }
}
