/** Giving each alternative spelling to the one word it can stand for, whatever order the words come in. */
module AliasTable {
  import opened Basics

  // A claim (w, v) is the word w having v among its alternative spellings.

  ghost function Claims<W>(words: set<W>, variants: W -> seq<W>): set<(W, W)> {
    set w, v | w in words && v in variants(w) :: (w, v)
  }

  /** Who claims v. */
  ghost function Claimants<W>(claims: set<(W, W)>, v: W): set<W> {
    set p | p in claims && p.1 == v :: p.0
  }

  /** The claims on spellings that are words themselves. */
  ghost function Real<W>(claims: set<(W, W)>, words: set<W>): set<(W, W)> {
    set p | p in claims && p.1 in words
  }

  /** The spellings that are no word and that more than one word claims. */
  ghost function Poisoned<W>(claims: set<(W, W)>, words: set<W>): set<W> {
    set p | p in claims && p.1 !in words && |Claimants(claims, p.1)| >= 2 :: p.1
  }

  /** The table gives v to w exactly when v is no word and w alone claims it. */
  ghost predicate Gives<W(!new)>(claims: set<(W, W)>, words: set<W>, aliases: map<W, W>) {
    && (forall v <- aliases :: v !in words && Claimants(claims, v) == {aliases[v]})
    && (forall v :: v !in words && |Claimants(claims, v)| == 1 ==> v in aliases)
  }

  /** What has been worked out from the claims seen so far. */
  ghost predicate Agrees<W(!new)>(claims: set<(W, W)>, words: set<W>, aliases: map<W, W>, poisoned: set<W>, collisions: int) {
    && Gives(claims, words, aliases)
    && poisoned == Poisoned(claims, words)
    && collisions == |Real(claims, words)| + |poisoned|
  }

  // ----- one claim more -----

  lemma ClaimantsAfter<W(!new)>(claims: set<(W, W)>, w: W, v: W)
    requires (w, v) !in claims
    ensures forall x :: Claimants(claims + {(w, v)}, x) == if x == v then Claimants(claims, v) + {w} else Claimants(claims, x)
    ensures w !in Claimants(claims, v) && |Claimants(claims + {(w, v)}, v)| == |Claimants(claims, v)| + 1
  {
    var more := claims + {(w, v)};
    forall x ensures Claimants(more, x) == if x == v then Claimants(claims, v) + {w} else Claimants(claims, x) {
      forall y ensures y in Claimants(more, x) <==> y in (if x == v then Claimants(claims, v) + {w} else Claimants(claims, x)) {
        assert y in Claimants(more, x) <==> (y, x) in more;
        assert y in Claimants(claims, x) <==> (y, x) in claims;
      }
    }
    assert w in Claimants(claims, v) <==> (w, v) in claims;
  }

  lemma InPoisoned<W>(claims: set<(W, W)>, words: set<W>, x: W)
    ensures x in Poisoned(claims, words) <==> x !in words && |Claimants(claims, x)| >= 2
  {
    if |Claimants(claims, x)| >= 2 {
      var y :| y in Claimants(claims, x);
      assert (y, x) in claims;
    }
  }

  lemma PoisonedAfter<W(!new)>(claims: set<(W, W)>, words: set<W>, w: W, v: W)
    requires (w, v) !in claims
    ensures Poisoned(claims + {(w, v)}, words)
            == Poisoned(claims, words) + (if v !in words && |Claimants(claims, v)| >= 1 then {v} else {})
  {
    ClaimantsAfter(claims, w, v);
    hide Claimants, Poisoned;
    forall x ensures x in Poisoned(claims + {(w, v)}, words)
      <==> x in Poisoned(claims, words) + (if v !in words && |Claimants(claims, v)| >= 1 then {v} else {})
    {
      InPoisoned(claims, words, x);
      InPoisoned(claims + {(w, v)}, words, x);
    }
  }

  lemma RealAfter<W>(claims: set<(W, W)>, words: set<W>, w: W, v: W)
    requires (w, v) !in claims
    ensures |Real(claims + {(w, v)}, words)| == |Real(claims, words)| + (if v in words then 1 else 0)
  {
    assert Real(claims + {(w, v)}, words) == Real(claims, words) + (if v in words then {(w, v)} else {});
  }

  /** A table that is right about everything but v, and right about v, is right. */
  lemma GivesAfter<W(!new)>(claims: set<(W, W)>, words: set<W>, a: map<W, W>, w: W, v: W, b: map<W, W>)
    requires Gives(claims, words, a) && (w, v) !in claims
    requires forall x :: x != v ==> (x in a <==> x in b) && (x in a ==> a[x] == b[x])
    requires if v !in words && Claimants(claims, v) == {} then v in b && b[v] == w else v !in b
    ensures Gives(claims + {(w, v)}, words, b)
  {
    ClaimantsAfter(claims, w, v);
    hide Claimants;
    forall x | x in b ensures x !in words && Claimants(claims + {(w, v)}, x) == {b[x]} {}
    forall x | x !in words && |Claimants(claims + {(w, v)}, x)| == 1 ensures x in b {}
  }

  /** Among spellings that are no word and not poisoned, the table holds exactly those claimed before. */
  lemma TakenIsClaimed<W(!new)>(claims: set<(W, W)>, words: set<W>, aliases: map<W, W>, v: W)
    requires Gives(claims, words, aliases) && v !in words && v !in Poisoned(claims, words)
    ensures v in aliases <==> Claimants(claims, v) != {}
  {
    InPoisoned(claims, words, v);
  }

  lemma PoisonedStays<W(!new)>(claims: set<(W, W)>, words: set<W>, aliases: map<W, W>, poisoned: set<W>, collisions: int, w: W, v: W)
    requires Agrees(claims, words, aliases, poisoned, collisions) && (w, v) !in claims && v in poisoned
    ensures Agrees(claims + {(w, v)}, words, aliases, poisoned, collisions)
  {
    hide Claimants, Poisoned, Real, Gives;
    InPoisoned(claims, words, v);
    PoisonedAfter(claims, words, w, v);
    RealAfter(claims, words, w, v);
    NotGiven(claims, words, aliases, v);
    GivesAfter(claims, words, aliases, w, v, aliases);
    assert poisoned + {v} == poisoned;
  }

  /** What is a word, or contested, is not in the table. */
  lemma NotGiven<W(!new)>(claims: set<(W, W)>, words: set<W>, aliases: map<W, W>, v: W)
    requires Gives(claims, words, aliases) && (v in words || |Claimants(claims, v)| >= 2)
    ensures v !in aliases
  {
  }

  lemma WordCollides<W(!new)>(claims: set<(W, W)>, words: set<W>, aliases: map<W, W>, poisoned: set<W>, collisions: int, w: W, v: W)
    requires Agrees(claims, words, aliases, poisoned, collisions) && (w, v) !in claims && v in words
    ensures Agrees(claims + {(w, v)}, words, aliases, poisoned, collisions + 1)
  {
    hide Claimants, Poisoned, Real, Gives;
    PoisonedAfter(claims, words, w, v);
    RealAfter(claims, words, w, v);
    NotGiven(claims, words, aliases, v);
    GivesAfter(claims, words, aliases, w, v, aliases);
  }

  lemma SecondClaim<W(!new)>(claims: set<(W, W)>, words: set<W>, aliases: map<W, W>, poisoned: set<W>, collisions: int, w: W, v: W)
    requires Agrees(claims, words, aliases, poisoned, collisions) && (w, v) !in claims
    requires v !in words && v !in poisoned && v in aliases
    ensures aliases[v] != w && Agrees(claims + {(w, v)}, words, aliases - {v}, poisoned + {v}, collisions + 1)
  {
    TakenIsClaimed(claims, words, aliases, v);
    ClaimantsAfter(claims, w, v);
    assert Claimants(claims, v) == {aliases[v]};
    hide Claimants, Poisoned, Real;
    PoisonedAfter(claims, words, w, v);
    RealAfter(claims, words, w, v);
    GivesAfter(claims, words, aliases, w, v, aliases - {v});
  }

  lemma FirstClaim<W(!new)>(claims: set<(W, W)>, words: set<W>, aliases: map<W, W>, poisoned: set<W>, collisions: int, w: W, v: W)
    requires Agrees(claims, words, aliases, poisoned, collisions) && (w, v) !in claims
    requires v !in words && v !in poisoned && v !in aliases
    ensures Agrees(claims + {(w, v)}, words, aliases[v := w], poisoned, collisions)
  {
    hide Claimants, Poisoned, Real, Gives;
    TakenIsClaimed(claims, words, aliases, v);
    PoisonedAfter(claims, words, w, v);
    RealAfter(claims, words, w, v);
    GivesAfter(claims, words, aliases, w, v, aliases[v := w]);
    assert poisoned + {} == poisoned;
  }

  /**
   * What one claim does to the table: nothing if the spelling is poisoned, a collision if it is a word, the end of it
   * if another word has it, and otherwise the word gets it.
   */
  lemma ClaimKeeps<W(!new)>(claims: set<(W, W)>, words: set<W>, aliases: map<W, W>, poisoned: set<W>, collisions: int, w: W, v: W)
    requires Agrees(claims, words, aliases, poisoned, collisions) && (w, v) !in claims
    ensures var more := claims + {(w, v)};
            if v in poisoned then Agrees(more, words, aliases, poisoned, collisions)
            else if v in words then Agrees(more, words, aliases, poisoned, collisions + 1)
            else if v in aliases then aliases[v] != w && Agrees(more, words, aliases - {v}, poisoned + {v}, collisions + 1)
            else Agrees(more, words, aliases[v := w], poisoned, collisions)
  {
    hide Agrees;
    if v in poisoned {
      PoisonedStays(claims, words, aliases, poisoned, collisions, w, v);
    } else if v in words {
      WordCollides(claims, words, aliases, poisoned, collisions, w, v);
    } else if v in aliases {
      SecondClaim(claims, words, aliases, poisoned, collisions, w, v);
    } else {
      FirstClaim(claims, words, aliases, poisoned, collisions, w, v);
    }
  }

  /** The claims alone settle the table and the count. */
  lemma OneTable<W(!new)>(claims: set<(W, W)>, words: set<W>, a: map<W, W>, p: set<W>, m: int, b: map<W, W>, q: set<W>, n: int)
    requires Agrees(claims, words, a, p, m) && Agrees(claims, words, b, q, n)
    ensures a == b && p == q && m == n
  {
    forall v ensures v in a <==> v in b {}
    forall v | v in a ensures a[v] == b[v] { assert {a[v]} == {b[v]}; }
  }

  // ----- building it -----

  ghost function Seen<W>(order: seq<W>, n: nat): set<W>
    requires n <= |order|
  {
    set w | w in order[..n]
  }

  ghost function Mine<W>(w: W, mine: seq<W>, n: nat): set<(W, W)>
    requires n <= |mine|
  {
    set v | v in mine[..n] :: (w, v)
  }

  lemma OneMoreOfMine<W>(w: W, mine: seq<W>, n: nat)
    requires n < |mine| && Distinct(mine)
    ensures Mine(w, mine, n + 1) == Mine(w, mine, n) + {(w, mine[n])} && (w, mine[n]) !in Mine(w, mine, n)
  {
    assert mine[..n + 1] == mine[..n] + [mine[n]];
  }

  lemma OneMoreWord<W>(order: seq<W>, n: nat, variants: W -> seq<W>)
    requires n < |order| && Distinct(order)
    ensures var w := order[n]; var mine := variants(w);
            && Claims(Seen(order, n + 1), variants) == Claims(Seen(order, n), variants) + Mine(w, mine, |mine|)
            && forall v :: (w, v) !in Claims(Seen(order, n), variants)
  {
    var w := order[n];
    var mine := variants(w);
    assert order[..n + 1] == order[..n] + [w] && mine[..|mine|] == mine;
    assert Seen(order, n + 1) == Seen(order, n) + {w};
    assert w !in order[..n];
  }

  /** Everything one word claims, claim by claim. */
  method ClaimAll<W(==, !new)>(ghost claims: set<(W, W)>, words: set<W>, a: map<W, W>, p: set<W>, n: int, word: W, mine: seq<W>)
    returns (aliases: map<W, W>, poisoned: set<W>, collisions: int)
    requires Agrees(claims, words, a, p, n) && Distinct(mine) && forall v :: (word, v) !in claims
    ensures Agrees(claims + Mine(word, mine, |mine|), words, aliases, poisoned, collisions)
  {
    aliases, poisoned, collisions := a, p, n;
    assert claims + Mine(word, mine, 0) == claims;
    for j := 0 to |mine|
      invariant Agrees(claims + Mine(word, mine, j), words, aliases, poisoned, collisions)
    {
      hide Agrees, Claimants, Poisoned, Real;
      var v := mine[j];
      OneMoreOfMine(word, mine, j);
      assert claims + Mine(word, mine, j + 1) == claims + Mine(word, mine, j) + {(word, v)};
      ClaimKeeps(claims + Mine(word, mine, j), words, aliases, poisoned, collisions, word, v);
      if v in poisoned {
        continue;
      }
      if v in words {
        collisions := collisions + 1;
        continue;
      }
      if v in aliases && aliases[v] != word {
        aliases := aliases - {v};
        poisoned := poisoned + {v};
        collisions := collisions + 1;
        continue;
      }
      aliases := aliases[v := word];
    }
  }

  method BuildAliases<W(==, !new)>(order: seq<W>, variants: W -> seq<W>) returns (aliases: map<W, W>, collisions: int)
    requires Distinct(order) && forall w <- order :: Distinct(variants(w))
    ensures var words := Seen(order, |order|);
            Agrees(Claims(words, variants), words, aliases, Poisoned(Claims(words, variants), words), collisions)
  {
    var words := set w | w in order;
    var poisoned: set<W> := {};
    aliases, collisions := map[], 0;
    assert Claims(Seen(order, 0), variants) == {};
    for i := 0 to |order|
      invariant Agrees(Claims(Seen(order, i), variants), words, aliases, poisoned, collisions)
    {
      OneMoreWord(order, i, variants);
      assert order[i] in order;
      aliases, poisoned, collisions :=
        ClaimAll(Claims(Seen(order, i), variants), words, aliases, poisoned, collisions, order[i], variants(order[i]));
    }
    assert order[..|order|] == order;
  }

  /** Every alias is no word itself and points at a word it is a spelling of, so a store that holds them passes its checks. */
  lemma AliasesPointAtWords<W(!new)>(words: set<W>, variants: W -> seq<W>, aliases: map<W, W>)
    requires Gives(Claims(words, variants), words, aliases)
    ensures forall v <- aliases :: v !in words && aliases[v] in words && v in variants(aliases[v])
  {
    forall v | v in aliases ensures aliases[v] in words && v in variants(aliases[v]) {
      assert aliases[v] in Claimants(Claims(words, variants), v);
    }
  }

  /** Two builds over the same words, in any two orders, give the same table and the same count. */
  lemma OrderDoesNotMatter<W(!new)>(order: seq<W>, other: seq<W>, variants: W -> seq<W>, a: map<W, W>, m: int, b: map<W, W>, n: int)
    requires multiset(order) == multiset(other)
    requires var words := Seen(order, |order|);
             Agrees(Claims(words, variants), words, a, Poisoned(Claims(words, variants), words), m)
    requires var words := Seen(other, |other|);
             Agrees(Claims(words, variants), words, b, Poisoned(Claims(words, variants), words), n)
    ensures a == b && m == n
  {
    assert order[..|order|] == order && other[..|other|] == other;
    forall w ensures w in order <==> w in other {
      assert w in order <==> w in multiset(order);
      assert w in other <==> w in multiset(other);
    }
    var words := Seen(order, |order|);
    assert words == Seen(other, |other|);
    hide Agrees;
    OneTable(Claims(words, variants), words, a, Poisoned(Claims(words, variants), words), m, b, Poisoned(Claims(words, variants), words), n);
  }
}
