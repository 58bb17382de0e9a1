/** `determinewinner`: the dealt cards are ranked in blocks of five, one per seat, and
    the last of the best seats wins.
  */
module Winner {
  import opened Cards
  import opened HandValue
  import HandOrder
  import HandRank
  import RankCode

  /** Twenty-five different cards of the deck. */
  predicate Dealt(all: seq<Card>) {
    |all| == 25 && AllCards(all) && Distinct(all)
  }

  /** The cards of a seat. */
  function Block(all: seq<Card>, seat: nat): (r: seq<Card>)
    requires 5 * seat + 5 <= |all|
    ensures |r| == 5
  {
    all[5 * seat..5 * seat + 5]
  }

  /** What a seat holds is worth: a function of the cards, not of their order. */
  function SeatValue(all: seq<Card>, seat: nat): nat
    requires 5 * seat + 5 <= |all|
  {
    Value(multiset(Block(all, seat)))
  }

  /** The last of the greatest entries: no entry is greater, no later one as great. */
  predicate LastBest(v: seq<nat>, w: nat) {
    && w < |v|
    && (forall i :: 0 <= i < |v| ==> v[i] <= v[w])
    && (forall i :: w < i < |v| ==> v[i] < v[w])
  }

  function LastMax(v: seq<nat>): (w: nat)
    requires v != []
    ensures LastBest(v, w)
  {
    if |v| == 1 then 0
    else
      var best := LastMax(v[..|v| - 1]);
      assert v[..|v| - 1][best] == v[best];
      if v[best] <= v[|v| - 1] then |v| - 1 else best
  }

  /** There is one such entry. */
  lemma LastBestUnique(v: seq<nat>, w: nat)
    requires LastBest(v, w)
    ensures w == LastMax(v)
  {
    var other := LastMax(v);
    assert v[w] == v[other];
  }

  /** What the first `n` seats hold. */
  function Values(all: seq<Card>, n: nat): (v: seq<nat>)
    requires 5 * n <= |all|
    ensures |v| == n && forall i :: 0 <= i < n ==> v[i] == SeatValue(all, i)
  {
    seq(n, i requires 0 <= i < n => SeatValue(all, i))
  }

  /** The winning seat among `n`: the last whose hand no other seat beats. */
  function WinnerSeat(all: seq<Card>, n: nat): (seat: nat)
    requires 1 <= n && 5 * n <= |all|
    ensures LastBest(Values(all, n), seat)
  {
    LastMax(Values(all, n))
  }

  /** Rearranging the cards within the seats does not change who wins. */
  lemma WinnerIgnoresOrder(a: seq<Card>, b: seq<Card>, n: nat)
    requires 1 <= n && 5 * n <= |a| && 5 * n <= |b|
    requires forall i :: 0 <= i < n ==> multiset(Block(a, i)) == multiset(Block(b, i))
    ensures WinnerSeat(a, n) == WinnerSeat(b, n)
  {
    hide Value;
    assert Values(a, n) == Values(b, n);
  }

  /** A block of dealt cards, sorted, is a hand. */
  lemma SortedBlockIsHand(all: seq<Card>, seat: nat, player: seq<Card>)
    requires Dealt(all) && seat < 5
    requires Sorted(player) && |player| == 5 && multiset(player) == multiset(Block(all, seat))
    ensures HandRank.Hand(player)
  {
    var block := Block(all, seat);
    MultiplicityOne(block);
    MultiplicityOne(player);
    forall i | 0 <= i < 5 ensures IsCard(player[i]) {
      assert player[i] in multiset(block);
      assert player[i] in block;
    }
  }

  /** The cards of a seat, in no order. */
  function Held(all: seq<Card>, seat: nat): multiset<Card>
    requires 5 * seat + 5 <= |all|
  {
    multiset(Block(all, seat))
  }

  lemma SeatsCompared(all: seq<Card>, a: nat, b: nat)
    requires Dealt(all) && a < 5 && b < 5
    requires !HandOrder.AcePairFullHouse(Held(all, a)) && !HandOrder.AcePairFullHouse(Held(all, b))
    ensures HandOrder.SameOrder(Held(all, a), Held(all, b))
  {
    hide HandOrder.SameOrder, HandOrder.AcePairFullHouse;
    var p := SortedVersion(Block(all, a));
    var q := SortedVersion(Block(all, b));
    SortedBlockIsHand(all, a, p);
    SortedBlockIsHand(all, b, q);
    HandOrder.OrderKept(p, q);
  }

  /** Unless some seat holds a full house with a pair of aces, the winner is right by
      category and deciding rank: no seat is above it, and every later seat is below it. */
  lemma WinnerIsRight(all: seq<Card>, n: nat)
    requires Dealt(all) && 1 <= n <= 5
    requires forall i :: 0 <= i < n ==> !HandOrder.AcePairFullHouse(Held(all, i))
    ensures var w := WinnerSeat(all, n);
            && w < n
            && (forall i :: 0 <= i < n ==> !HandOrder.Below(Held(all, w), Held(all, i)))
            && (forall i :: w < i < n ==> HandOrder.Below(Held(all, i), Held(all, w)))
  {
    hide HandOrder.Below, HandOrder.AcePairFullHouse, Value;
    var w := WinnerSeat(all, n);
    var v := Values(all, n);
    assert LastBest(v, w);
    forall i | 0 <= i < n
      ensures !HandOrder.Below(Held(all, w), Held(all, i))
      ensures i > w ==> HandOrder.Below(Held(all, i), Held(all, w))
    {
      SeatsCompared(all, w, i);
      assert v[i] == Value(Held(all, i)) && v[w] == Value(Held(all, w));
    }
  }

  /** One of the five repeated blocks of `determinewinner`: sort, then rank. */
  method RankSeat(all: seq<Card>, seat: nat) returns (rank: nat)
    requires Dealt(all) && seat < 5
    ensures rank == SeatValue(all, seat)
  {
    var player := SortBlock(all, 5 * seat, 5);
    SortedBlockIsHand(all, seat, player);
    rank := RankCode.RankVal(player);
  }

  /** Seats are numbered from one. */
  method DetermineWinner(all: seq<Card>, numPlay: nat) returns (winner: nat)
    requires Dealt(all) && 1 <= numPlay <= 5
    ensures 1 <= winner <= numPlay && winner - 1 == WinnerSeat(all, numPlay)
    ensures forall i :: 0 <= i < numPlay ==> SeatValue(all, i) <= SeatValue(all, winner - 1)
    ensures forall i :: winner <= i < numPlay ==> SeatValue(all, i) < SeatValue(all, winner - 1)
  {
    hide SeatValue, WinnerSeat;
    var rank1 := RankSeat(all, 0);
    var rank2 := RankSeat(all, 1);
    var rank3 := RankSeat(all, 2);
    var rank4 := RankSeat(all, 3);
    var rank5 := RankSeat(all, 4);
    var winners := [rank1, rank2, rank3, rank4, rank5];
    var winVal := MaxElement(winners, numPlay);
    var winSpot := LastEqual(winners, numPlay, winVal);
    winner := winSpot + 1;
    assert winners[..numPlay] == Values(all, numPlay);
    WinnerIs(all, numPlay, winSpot);
  }

  lemma WinnerIs(all: seq<Card>, n: nat, seat: nat)
    requires 1 <= n && 5 * n <= |all| && LastBest(Values(all, n), seat)
    ensures seat == WinnerSeat(all, n)
  {
    LastBestUnique(Values(all, n), seat);
  }

  /** The loop that looks for the winning value: the last match stays. */
  method LastEqual(s: seq<nat>, n: nat, value: nat) returns (spot: nat)
    requires n <= |s| && exists i :: 0 <= i < n && s[i] == value
    ensures spot < n && s[spot] == value
    ensures forall i :: spot < i < n ==> s[i] != value
  {
    spot := 0;
    var w := 0;
    while w < n
      invariant 0 <= w <= n && spot <= w
      invariant forall i :: spot < i < w ==> s[i] != value
      invariant (spot < w && s[spot] == value) || (spot == 0 && forall i :: 0 <= i < w ==> s[i] != value)
    {
      if value == s[w] {
        spot := w;
      }
      w := w + 1;
    }
  }

  /** `std::max_element` over the first `n` entries. */
  method MaxElement(s: seq<nat>, n: nat) returns (max: nat)
    requires 1 <= n <= |s|
    ensures forall i :: 0 <= i < n ==> s[i] <= max
    ensures exists i :: 0 <= i < n && s[i] == max
  {
    max := s[0];
    var i := 1;
    while i < n
      invariant 1 <= i <= n
      invariant forall k :: 0 <= k < i ==> s[k] <= max
      invariant exists k :: 0 <= k < i && s[k] == max
    {
      if max < s[i] {
        max := s[i];
      }
      i := i + 1;
    }
  }
}
