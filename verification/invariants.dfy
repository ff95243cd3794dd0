/**
  What a valid move keeps: the acting player's card identities and the order
  of the foundations. Both hold for moves whose `cards` are the cards the
  validator took from the source; the engine trusts the caller for that.
 */
module Invariants {
  import opened GameTypes
  import opened Piles
  import opened Deck
  import opened Rules

  /** The caller's `cards` are exactly the cards the validator takes from the source. */
  predicate Faithful(m: Move, s: GameState)
    requires IndexInRange(m.from, Acting(s))
  {
    SourceCards(m, Acting(s)).Some? ==> SourceCards(m, Acting(s)).value == m.cards
  }

  /**
    The applier pushes the caller's `cards`, not the cards the validator
    took: on a board holding only the Ace of hearts, on the waste, a move
    from the waste that claims to carry the Ace of spades passes validation;
    the Ace of spades lands on the foundation and the Ace of hearts leaves
    the board.
   */
  lemma CallerCardsArePushed(s: GameState, m: Move, now: int)
    requires s.currentPlayer == 1
    requires |s.player1.foundations| == 4 && forall i | 0 <= i < 4 :: s.player1.foundations[i] == []
    requires forall i | 0 <= i < |s.player1.tableau| :: s.player1.tableau[i] == []
    requires s.player1.stock == [] && s.player1.waste == [Card(Hearts, Ace, true)]
    requires m.from.kind == Waste && m.to == Location(Foundation, 0) && m.cards == [Card(Spades, Ace, true)]
    ensures MoveFits(m, s) && IsValidMove(m, s) && !Faithful(m, s)
    ensures Acting(MakeMove(m, s, now)).foundations[0] == [Card(Spades, Ace, true)]
    ensures Acting(MakeMove(m, s, now)).waste == []
    ensures PlayerKeys(Acting(MakeMove(m, s, now))) != PlayerKeys(Acting(s))
  {
    var p, r := Acting(s), Acting(MakeMove(m, s, now));
    var spade, heart := Card(Spades, Ace, true), Card(Hearts, Ace, true);
    assert SourceCards(m, p) == Some([heart]);
    MoveEdits(m, s, now);
    assert r.stock == [] && r.waste == [] && r.tableau == p.tableau;
    assert m.cards[0] == spade && |r.foundations| == 4;
    forall i | 0 <= i < 4 ensures r.foundations[i] == p.foundations[0 := [spade]][i] {
      assert p.foundations[i] == [];
      if i == 0 {
        assert [] + [spade] == [spade];
      }
    }
    assert r.foundations == p.foundations[0 := [spade]];
    LoneCardKeys(p, heart);
    LoneCardKeys(r, spade);
    assert PlayerKeys(r)[Key(spade)] == 1 && PlayerKeys(p)[Key(spade)] == 0;
  }

  /**
    A board whose one card is `c`, on the waste or alone on the first
    foundation, holds the single identity of `c`.
   */
  lemma LoneCardKeys(q: PlayerState, c: Card)
    requires q.stock == [] && forall i | 0 <= i < |q.tableau| :: q.tableau[i] == []
    requires |q.foundations| > 0 && forall i | 1 <= i < |q.foundations| :: q.foundations[i] == []
    requires (q.waste == [c] && q.foundations[0] == []) || (q.waste == [] && q.foundations[0] == [c])
    ensures PlayerKeys(q) == multiset{Key(c)}
  {
    var empty: seq<Card> := [];
    var none: multiset<CardKey> := multiset{};
    assert Keys(empty) == none;
    KeysSingle(c);
    FlattenEmpty(q.tableau);
    var bare := q.foundations[0 := empty];
    FlattenEmpty(bare);
    KeysFlattenUpdate(bare, 0, q.foundations[0]);
    assert bare[0 := q.foundations[0]] == q.foundations;
    var fo := Keys(Flatten(q.foundations));
    assert fo + none == none + Keys(q.foundations[0]);
    MultisetCancel(fo, Keys(q.foundations[0]), none);
  }

  /** Taking the source cards off a board removes exactly their identities. */
  lemma RemoveSourceKeys(p: PlayerState, m: Move)
    requires IndexInRange(m.from, p) && SourceCards(m, p).Some? && |m.cards| >= 1
    ensures PlayerKeys(RemoveSource(p, m.from, |m.cards|)) + Keys(SourceCards(m, p).value) == PlayerKeys(p)
  {
    var src := SourceCards(m, p).value;
    var q := RemoveSource(p, m.from, |m.cards|);
    var pile := PileAt(m.from, p);
    var moved := Keys(src);
    var st, wa := Keys(q.stock), Keys(q.waste);
    var fo, ta := Keys(Flatten(q.foundations)), Keys(Flatten(q.tableau));
    Regroup(st, wa, fo, ta, moved);
    match m.from.kind
    case Stock =>
      assert p.stock == q.stock + src;
      KeysAppend(q.stock, src);
    case Waste =>
      assert p.waste == q.waste + src;
      KeysAppend(q.waste, src);
    case Foundation =>
      var rest := Pop(pile);
      assert pile == rest + src;
      KeysAppend(rest, src);
      PileSwapKeys(p.foundations, m.from.index, rest, moved);
    case Tableau =>
      var below := DropLast(pile, |m.cards|);
      DropLastTakeLast(pile, |m.cards|);
      KeysAppend(below, src);
      KeysRevealTop(below);
      PileSwapKeys(p.tableau, m.from.index, RevealTop(below), moved);
  }

  /** Adding `x` to a sum of four parts is adding it to any one of them. */
  lemma Regroup(a: multiset<CardKey>, b: multiset<CardKey>, c: multiset<CardKey>, d: multiset<CardKey>, x: multiset<CardKey>)
    ensures a + b + c + d + x == (a + x) + b + c + d
    ensures a + b + c + d + x == a + (b + x) + c + d
    ensures a + b + c + d + x == a + b + (c + x) + d
    ensures a + b + c + d + x == a + b + c + (d + x)
  {
  }

  /** Replacing pile `i` by a pile `q` that lacks the identities `gone` of it takes away exactly `gone`. */
  lemma PileSwapKeys(piles: seq<seq<Card>>, i: nat, q: seq<Card>, gone: multiset<CardKey>)
    requires i < |piles| && Keys(piles[i]) == Keys(q) + gone
    ensures Keys(Flatten(piles[i := q])) + gone == Keys(Flatten(piles))
  {
    KeysFlattenUpdate(piles, i, q);
    var after := Keys(Flatten(piles[i := q]));
    assert (after + gone) + Keys(q) == Keys(Flatten(piles)) + Keys(q);
    MultisetCancel(after + gone, Keys(Flatten(piles)), Keys(q));
  }

  /** Pushing cards onto a foundation or tableau pile adds exactly their identities. */
  lemma AddTargetKeys(p: PlayerState, to: Target, cards: seq<Card>)
    requires IndexInRange(to, p) && |cards| >= 1
    requires to.kind != Tableau ==> |cards| == 1
    ensures PlayerKeys(AddTarget(p, to, cards)) == PlayerKeys(p) + Keys(cards)
  {
    var q := AddTarget(p, to, cards);
    var st, wa := Keys(p.stock), Keys(p.waste);
    var fo, ta := Keys(Flatten(p.foundations)), Keys(Flatten(p.tableau));
    var added := Keys(cards);
    if to.kind == Foundation {
      var f := p.foundations[to.index];
      assert cards == [cards[0]];
      KeysAppend(f, cards);
      KeysFlattenUpdate(p.foundations, to.index, f + cards);
      var fo' := Keys(Flatten(q.foundations));
      assert fo' + Keys(f) == (fo + added) + Keys(f);
      MultisetCancel(fo', fo + added, Keys(f));
    } else if to.kind == Tableau {
      var t := p.tableau[to.index];
      KeysAppend(t, cards);
      KeysFlattenUpdate(p.tableau, to.index, t + cards);
      var ta' := Keys(Flatten(q.tableau));
      assert ta' + Keys(t) == (ta + added) + Keys(t);
      MultisetCancel(ta', ta + added, Keys(t));
    } else {
      assert cards == [cards[0]];
      KeysAppend(p.waste, cards);
    }
  }

  /**
    A move whose `cards` are the validated source cards neither creates nor
    destroys a card: the acting board holds the same identities afterwards.
   */
  lemma MakeMoveConservesCards(m: Move, s: GameState, now: int)
    requires MoveFits(m, s) && Faithful(m, s)
    ensures PlayerKeys(Acting(MakeMove(m, s, now))) == PlayerKeys(Acting(s))
  {
    if IsValidMove(m, s) {
      var p := Acting(s);
      var logged := p.(moveLog := p.moveLog + [m.(timestamp := now)]);
      assert SourceCards(m, logged) == SourceCards(m, p);
      var removed := RemoveSource(logged, m.from, |m.cards|);
      RemoveSourceKeys(logged, m);
      AddTargetKeys(removed, m.to, m.cards);
      assert Acting(MakeMove(m, s, now)) == AddTarget(removed, m.to, m.cards);
    }
  }

  /** A foundation is a run of one suit from the Ace upwards: card `k` has rank number `k`. */
  predicate OrderedFoundation(f: seq<Card>)
  {
    forall k | 0 <= k < |f| :: f[k].suit == f[0].suit && RankIndex(f[k].rank) == k
  }

  predicate FoundationsOrdered(p: PlayerState)
  {
    forall i | 0 <= i < |p.foundations| :: OrderedFoundation(p.foundations[i])
  }

  lemma EmptyFoundationsOrdered(p: PlayerState)
    requires p.foundations == [[], [], [], []]
    ensures FoundationsOrdered(p)
  {
  }

  /** An ordered foundation holds at most the thirteen ranks of its suit. */
  lemma OrderedFoundationSize(f: seq<Card>)
    requires OrderedFoundation(f)
    ensures |f| <= 13
  {
    if |f| > 0 {
      assert RankIndex(f[|f| - 1].rank) == |f| - 1;
    }
  }

  /** Putting on an ordered foundation a card it accepts keeps it ordered. */
  lemma AcceptedKeepsOrdered(f: seq<Card>, c: Card)
    requires OrderedFoundation(f) && FoundationAccepts(f, c)
    ensures OrderedFoundation(f + [c])
  {
    var g := f + [c];
    forall k | 0 <= k < |g| ensures g[k].suit == g[0].suit && RankIndex(g[k].rank) == k {
      if k == |f| && |f| > 0 {
        assert g[0] == f[0] && Top(f) == f[|f| - 1];
      }
    }
  }

  /** A card can never be moved from a foundation back onto the same foundation. */
  lemma NoFoundationToItself(m: Move, s: GameState)
    requires MoveFits(m, s)
    requires m.from.kind == Foundation && m.to.kind == Foundation && m.from.index == m.to.index
    ensures !IsValidMove(m, s)
  {
  }

  /**
    A faithful valid move keeps every foundation of the acting board a
    same-suit run from the Ace.
   */
  lemma MakeMoveKeepsFoundationsOrdered(m: Move, s: GameState, now: int)
    requires MoveFits(m, s) && Faithful(m, s)
    requires FoundationsOrdered(Acting(s))
    ensures FoundationsOrdered(Acting(MakeMove(m, s, now)))
  {
    if IsValidMove(m, s) {
      var p, r := Acting(s), Acting(MakeMove(m, s, now));
      MoveEdits(m, s, now);
      forall i | 0 <= i < |r.foundations| ensures OrderedFoundation(r.foundations[i]) {
        var f := p.foundations[i];
        var popped := m.from.kind == Foundation && m.from.index == i;
        var pushed := m.to.kind == Foundation && m.to.index == i;
        if pushed {
          if popped {
            NoFoundationToItself(m, s);
          }
          AcceptedKeepsOrdered(f, m.cards[0]);
        } else if popped {
          assert forall k | 0 <= k < |f| - 1 :: f[..|f| - 1][k] == f[k];
        }
      }
    }
  }
}
