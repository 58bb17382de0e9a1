/** Cards, the deck, and hands sorted by insertion. */
module Cards {

  /** Numbers run from 1 (ace) to 13 (king), suits from 1 (diamonds) to 4 (clubs). */
  datatype Card = Card(number: nat, suit: nat)

  predicate IsCard(c: Card) { 1 <= c.number <= 13 && 1 <= c.suit <= 4 }

  /** The deck as `Cards_Deck` builds it: suit by suit, ace to king. */
  function FullDeck(): (d: seq<Card>)
    ensures |d| == 52
  {
    seq(52, i requires 0 <= i => Card(i % 13 + 1, i / 13 + 1))
  }

  /** Suit by suit, ace to king: thirteen cards further on starts the next suit. */
  lemma DeckOrder(number: nat, suit: nat)
    requires 1 <= number <= 13 && 1 <= suit <= 4
    ensures FullDeck()[13 * (suit - 1) + (number - 1)] == Card(number, suit)
  {
  }

  /** The constructor's two loops. */
  method BuildDeck() returns (deck: seq<Card>)
    ensures deck == FullDeck()
  {
    deck := [];
    var i := 1;
    while i <= 4
      invariant 1 <= i <= 5 && |deck| == 13 * (i - 1)
      invariant deck == FullDeck()[..13 * (i - 1)]
    {
      var j := 1;
      while j <= 13
        invariant 1 <= j <= 14 && |deck| == 13 * (i - 1) + j - 1
        invariant deck == FullDeck()[..13 * (i - 1) + j - 1]
      {
        deck := deck + [Card(j, i)];
        j := j + 1;
      }
      i := i + 1;
    }
  }

  predicate Distinct(s: seq<Card>) {
    forall i, j :: 0 <= i < j < |s| ==> s[i] != s[j]
  }

  predicate AllCards(s: seq<Card>) {
    forall i :: 0 <= i < |s| ==> IsCard(s[i])
  }

  /** Any arrangement of the full deck can come out of the shuffle. */
  predicate IsShuffle(d: seq<Card>) { multiset(d) == multiset(FullDeck()) }

  lemma SelfShuffle()
    ensures IsShuffle(FullDeck())
  {
  }

  lemma {:induction false} MultiplicityOne(s: seq<Card>)
    ensures Distinct(s) <==> forall c :: multiset(s)[c] <= 1
  {
    if s != [] {
      var t := s[..|s| - 1];
      var x := s[|s| - 1];
      assert s == t + [x];
      MultiplicityOne(t);
      if Distinct(s) {
        assert x !in t;
        assert forall c :: multiset(s)[c] == multiset(t)[c] + multiset{x}[c];
      }
      if !Distinct(s) {
        if !Distinct(t) {
          var c :| multiset(t)[c] > 1;
          assert multiset(s)[c] >= multiset(t)[c];
        } else {
          assert x in t;
          assert multiset(s)[x] == multiset(t)[x] + 1;
        }
      }
    }
  }

  /** A shuffled deck holds each of the 52 cards exactly once. */
  lemma ShuffleDistinct(d: seq<Card>)
    requires IsShuffle(d)
    ensures |d| == 52 && Distinct(d) && AllCards(d)
  {
    assert |multiset(d)| == |multiset(FullDeck())|;
    MultiplicityOne(FullDeck());
    MultiplicityOne(d);
    forall i | 0 <= i < |d| ensures IsCard(d[i]) {
      assert d[i] in multiset(FullDeck());
    }
  }

  predicate Sorted(s: seq<Card>) {
    forall i, j :: 0 <= i < j < |s| ==> s[i].number <= s[j].number
  }

  predicate SpotFor(player: seq<Card>, card: Card, spot: nat) {
    && spot <= |player|
    && (forall k :: 0 <= k < spot ==> player[k].number <= card.number)
    && (spot < |player| ==> card.number < player[spot].number)
  }

  lemma InsertKeeps(player: seq<Card>, card: Card, spot: nat)
    requires Sorted(player) && SpotFor(player, card, spot)
    ensures Sorted(player[..spot] + [card] + player[spot..])
    ensures multiset(player[..spot] + [card] + player[spot..]) == multiset(player) + multiset{card}
  {
    assert player == player[..spot] + player[spot..];
    var r := player[..spot] + [card] + player[spot..];
    forall i, j | 0 <= i < j < |r| ensures r[i].number <= r[j].number {
    }
  }

  function SpotOf(player: seq<Card>, card: Card): (spot: nat)
    ensures SpotFor(player, card, spot)
  {
    if player == [] then 0
    else if player[0].number > card.number then 0
    else
      var spot := SpotOf(player[1..], card);
      assert forall k :: 1 <= k <= spot ==> player[k] == player[1..][k - 1];
      spot + 1
  }

  /** Every block of cards has a sorted arrangement. */
  lemma {:induction false} SortedVersion(s: seq<Card>) returns (p: seq<Card>)
    ensures Sorted(p) && multiset(p) == multiset(s) && |p| == |s|
  {
    if s == [] {
      p := [];
    } else {
      var card := s[|s| - 1];
      var rest := s[..|s| - 1];
      assert s == rest + [card];
      var q := SortedVersion(rest);
      var spot := SpotOf(q, card);
      InsertKeeps(q, card, spot);
      p := q[..spot] + [card] + q[spot..];
    }
  }

  /** The inner loop: the first card with a greater number, or the end. */
  method FindSpot(player: seq<Card>, card: Card) returns (place: nat)
    ensures SpotFor(player, card, place)
  {
    var spot := -1;
    var j := 0;
    while j < |player|
      invariant 0 <= j <= |player| && -1 <= spot < j
      invariant if spot == -1 then forall k :: 0 <= k < j ==> player[k].number <= card.number
                else SpotFor(player, card, spot)
    {
      if card.number < player[j].number && spot == -1 {
        spot := j;
      }
      j := j + 1;
    }
    if spot == -1 {
      spot := |player|;
    }
    place := spot;
  }

  /** The insertion loops of `determinewinner`, for a block of any length: each card
      goes before the first card with a greater number. */
  method SortBlock(all: seq<Card>, start: nat, n: nat) returns (player: seq<Card>)
    requires start + n <= |all|
    ensures Sorted(player) && |player| == n
    ensures multiset(player) == multiset(all[start..start + n])
  {
    hide SpotFor;
    player := [];
    var i := start;
    while i < start + n
      invariant start <= i <= start + n && |player| == i - start
      invariant Sorted(player)
      invariant multiset(player) == multiset(all[start..i])
    {
      assert all[start..i + 1] == all[start..i] + [all[i]];
      if |player| < 1 {
        player := player + [all[i]];
      } else {
        var card := all[i];
        var spot := FindSpot(player, card);
        InsertKeeps(player, card, spot);
        player := player[..spot] + [card] + player[spot..];
      }
      i := i + 1;
    }
  }
}
