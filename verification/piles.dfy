/**
  Piles as sequences, with the JavaScript array operations the engine uses
  (`pop`, `slice`), and card identity: the (suit, rank) key of a card, which
  survives turning the card over.
 */
module Piles {
  import opened GameTypes

  function Min(a: int, b: int): int { if a <= b then a else b }

  /** The top card of a non-empty pile. */
  function Top(pile: seq<Card>): Card
    requires |pile| > 0
  {
    pile[|pile| - 1]
  }

  /** `pile.pop()`: removes the top card; an empty pile is left as it is. */
  function Pop(pile: seq<Card>): seq<Card>
  {
    if |pile| == 0 then pile else pile[..|pile| - 1]
  }

  /** `s.slice(from, to)` for non-negative bounds: both are clamped to the length. */
  function Slice(s: seq<Card>, from: nat, to: nat): (r: seq<Card>)
    ensures |r| == if Min(from, |s|) <= Min(to, |s|) then Min(to, |s|) - Min(from, |s|) else 0
    ensures forall k | 0 <= k < |r| :: r[k] == s[from + k]
  {
    var lo := Min(from, |s|);
    var hi := Min(to, |s|);
    if lo <= hi then s[lo..hi] else []
  }

  /**
    `pile.slice(-n)`: the last `n` cards. When `n` exceeds the pile this is
    the whole pile, and when `n` is 0 it is the whole pile too, because -0 is 0.
   */
  function TakeLast(pile: seq<Card>, n: nat): seq<Card>
  {
    if n == 0 || n >= |pile| then pile else pile[|pile| - n..]
  }

  /**
    `pile.slice(0, -n)`: everything below the last `n` cards. When `n` is 0
    the end index -0 is 0, so the result is empty.
   */
  function DropLast(pile: seq<Card>, n: nat): seq<Card>
  {
    if n == 0 || n >= |pile| then [] else pile[..|pile| - n]
  }

  /** Splitting a pile below its last `n >= 1` cards loses nothing. */
  lemma DropLastTakeLast(pile: seq<Card>, n: nat)
    requires n >= 1
    ensures DropLast(pile, n) + TakeLast(pile, n) == pile
  {
  }

  /** A slice of a slice is a slice of the original. */
  lemma SubSlice(s: seq<Card>, lo: nat, hi: nat, a: nat, b: nat)
    requires lo <= hi <= |s| && a <= b <= hi - lo
    ensures s[lo..hi][a..b] == s[lo + a..lo + b]
  {
    assert forall k | 0 <= k < b - a :: s[lo..hi][a..b][k] == s[lo + a + k];
  }

  /** Turns the top card of a pile face-up, if there is one. */
  function RevealTop(pile: seq<Card>): (r: seq<Card>)
    ensures |r| == |pile|
    ensures forall k | 0 <= k < |pile| :: r[k] == pile[k].(faceUp := pile[k].faceUp || k == |pile| - 1)
  {
    if |pile| == 0 then pile else pile[..|pile| - 1] + [Top(pile).(faceUp := true)]
  }

  /** What identifies a card: its suit and rank, whichever side is up. */
  datatype CardKey = CardKey(suit: Suit, rank: Rank)

  function Key(c: Card): CardKey { CardKey(c.suit, c.rank) }

  /** The identities of a sequence of cards, position by position. */
  function KeySeq(cs: seq<Card>): (ks: seq<CardKey>)
    ensures |ks| == |cs| && forall i | 0 <= i < |cs| :: ks[i] == Key(cs[i])
  {
    seq(|cs|, i requires 0 <= i < |cs| => Key(cs[i]))
  }

  /** The multiset of card identities in a sequence of cards. */
  function Keys(cs: seq<Card>): multiset<CardKey>
  {
    multiset(KeySeq(cs))
  }

  /** All cards of a group of piles, bottom pile first. */
  function Flatten(piles: seq<seq<Card>>): seq<Card>
  {
    if |piles| == 0 then [] else Flatten(piles[..|piles| - 1]) + piles[|piles| - 1]
  }

  lemma {:induction false} FlattenEmpty(piles: seq<seq<Card>>)
    requires forall i | 0 <= i < |piles| :: piles[i] == []
    ensures Flatten(piles) == []
    decreases |piles|
  {
    if |piles| > 0 {
      FlattenEmpty(piles[..|piles| - 1]);
    }
  }

  /** Cancelling a common part of two multiset sums. */
  lemma MultisetCancel<T>(a: multiset<T>, b: multiset<T>, c: multiset<T>)
    requires a + c == b + c
    ensures a == b
  {
    assert forall y :: a[y] == (a + c)[y] - c[y];
  }

  /** Every card identity on a player's board. */
  function PlayerKeys(p: PlayerState): multiset<CardKey>
  {
    Keys(p.stock) + Keys(p.waste) + Keys(Flatten(p.foundations)) + Keys(Flatten(p.tableau))
  }

  lemma KeySeqAppend(a: seq<Card>, b: seq<Card>)
    ensures KeySeq(a + b) == KeySeq(a) + KeySeq(b)
  {
  }

  lemma KeysAppend(a: seq<Card>, b: seq<Card>)
    ensures Keys(a + b) == Keys(a) + Keys(b)
  {
    KeySeqAppend(a, b);
  }

  lemma KeysSingle(c: Card)
    ensures Keys([c]) == multiset{Key(c)}
  {
    assert KeySeq([c]) == [Key(c)];
  }

  /** In a sequence whose cards have pairwise different identities, each card's identity occurs once. */
  lemma KeysOfDistinct(cs: seq<Card>, i: nat)
    requires i < |cs|
    requires forall a, b | 0 <= a < b < |cs| :: Key(cs[a]) != Key(cs[b])
    ensures Keys(cs)[Key(cs[i])] == 1
  {
    var ks := KeySeq(cs);
    var x := ks[i];
    var lo, hi := ks[..i], ks[i + 1..];
    assert ks == lo + [x] + hi;
    assert x !in lo by {
      forall a | 0 <= a < |lo| ensures lo[a] != x {
        assert lo[a] == Key(cs[a]);
      }
    }
    assert x !in hi by {
      forall a | 0 <= a < |hi| ensures hi[a] != x {
        assert hi[a] == Key(cs[i + 1 + a]);
      }
    }
    assert multiset(ks) == multiset(lo) + multiset{x} + multiset(hi);
  }

  /** Taking card `k` out of a sequence removes one copy of it. */
  lemma MultisetRemoveAt(b: seq<Card>, k: nat)
    requires k < |b|
    ensures multiset(b) == multiset(b[..k] + b[k + 1..]) + multiset{b[k]}
  {
    var lo, hi := b[..k], b[k + 1..];
    assert b == lo + [b[k]] + hi;
  }

  /** Taking card `k` out of a sequence removes one copy of its identity. */
  lemma KeysRemoveAt(b: seq<Card>, k: nat)
    requires k < |b|
    ensures Keys(b) == Keys(b[..k] + b[k + 1..]) + multiset{Key(b[k])}
  {
    var lo, hi, c := b[..k], b[k + 1..], b[k];
    assert b == (lo + [c]) + hi;
    KeysAppend(lo + [c], hi);
    KeysAppend(lo, [c]);
    KeysSingle(c);
    KeysAppend(lo, hi);
  }

  /** Rearranging cards does not change the identities present. */
  lemma {:induction false} KeysOfPermutation(a: seq<Card>, b: seq<Card>)
    requires multiset(a) == multiset(b)
    ensures Keys(a) == Keys(b)
    decreases |a|
  {
    if |a| == 0 {
      assert |multiset(b)| == 0;
    } else {
      var x := a[|a| - 1];
      var a' := a[..|a| - 1];
      assert a == a' + [x];
      assert x in multiset(b);
      var k :| 0 <= k < |b| && b[k] == x;
      var b' := b[..k] + b[k + 1..];
      MultisetRemoveAt(b, k);
      KeysRemoveAt(b, k);
      KeysAppend(a', [x]);
      KeysSingle(x);
      MultisetCancel(multiset(a'), multiset(b'), multiset{x});
      KeysOfPermutation(a', b');
    }
  }

  /** Turning a pile's top card over keeps its identities. */
  lemma KeysRevealTop(pile: seq<Card>)
    ensures KeySeq(RevealTop(pile)) == KeySeq(pile)
    ensures Keys(RevealTop(pile)) == Keys(pile)
  {
    if |pile| > 0 {
      var r := RevealTop(pile);
      assert KeySeq(r) == KeySeq(pile);
    }
  }

  /** Replacing pile `i` by `q` swaps the identities of the old pile for those of `q`. */
  lemma {:induction false} KeysFlattenUpdate(piles: seq<seq<Card>>, i: nat, q: seq<Card>)
    requires i < |piles|
    ensures Keys(Flatten(piles[i := q])) + Keys(piles[i]) == Keys(Flatten(piles)) + Keys(q)
    decreases |piles|
  {
    var n := |piles| - 1;
    var updated := piles[i := q];
    assert Flatten(updated) == Flatten(updated[..n]) + updated[n];
    assert Flatten(piles) == Flatten(piles[..n]) + piles[n];
    KeysAppend(Flatten(updated[..n]), updated[n]);
    KeysAppend(Flatten(piles[..n]), piles[n]);
    if i == n {
      assert updated[..n] == piles[..n];
    } else {
      var init := piles[..n];
      assert updated[..n] == init[i := q];
      assert updated[n] == piles[n];
      assert init[i] == piles[i];
      KeysFlattenUpdate(init, i, q);
      var a := Keys(Flatten(init[i := q]));
      var b := Keys(Flatten(init));
      var p := Keys(piles[n]);
      calc {
        Keys(Flatten(updated)) + Keys(piles[i]);
        a + p + Keys(piles[i]);
        (a + Keys(piles[i])) + p;
        (b + Keys(q)) + p;
        b + p + Keys(q);
        Keys(Flatten(piles)) + Keys(q);
      }
    }
  }
}
