/** The server's ranking methods over a sorted vector of five cards: `straight`,
    `highpairs` and the `rankval` decision tree, each proved to compute what the hand is
    worth. Ranks are in hundredths, so 9.05 is 905.
  */
module RankCode {
  import opened Cards
  import opened HandValue
  import opened HandRank

  /** `straight`: ace-high, or every card one above the card before. */
  method IsStraight(player: seq<Card>) returns (b: bool)
    requires Hand(player)
    ensures b <==> Straight(multiset(player))
  {
    Shapes(player);
    if player[0].number == 1 && player[1].number == 10 && player[2].number == 11
       && player[3].number == 12 && player[4].number == 13 {
      return true;
    }
    var i := 0;
    while i < |player| - 1
      invariant 0 <= i <= 4
      invariant forall k :: 0 <= k < i ==> player[k].number + 1 == player[k + 1].number
    {
      if player[i].number + 1 != player[i + 1].number {
        return false;
      }
      i := i + 1;
    }
    return true;
  }

  /** Cards after position `i` with the same number as the card there. */
  function Later(player: seq<Card>, i: nat, from: nat): nat
    requires i < |player| && from <= |player|
    decreases |player| - from
  {
    if from == |player| then 0
    else (if player[i].number == player[from].number then 1 else 0) + Later(player, i, from + 1)
  }

  /** The double loop of `highpairs`, which `rankval` repeats for two pairs: for each of
      the first four cards, one more than the equal cards after it. */
  method PairCounts(player: seq<Card>) returns (pair: seq<nat>)
    requires |player| == 5
    ensures |pair| == 5 && pair[4] == 0
    ensures forall i :: 0 <= i < 4 ==> pair[i] == 1 + Later(player, i, i + 1)
  {
    pair := [0, 0, 0, 0, 0];
    var i := 0;
    while i < |player| - 1
      invariant 0 <= i <= 4 && |pair| == 5 && pair[4] == 0
      invariant forall j :: 0 <= j < i ==> pair[j] == 1 + Later(player, j, j + 1)
    {
      var pairs := 1;
      var k := i + 1;
      while k < |player|
        invariant i + 1 <= k <= 5
        invariant pairs + Later(player, i, k) == 1 + Later(player, i, i + 1)
      {
        if player[i].number == player[k].number {
          pairs := pairs + 1;
        }
        k := k + 1;
      }
      pair := pair[i := pairs];
      i := i + 1;
    }
  }

  function Bit(b: bool): nat { if b then 1 else 0 }

  /** The counts in full. */
  lemma LaterAll(p: seq<Card>)
    requires |p| == 5
    ensures Later(p, 3, 4) == Bit(p[3].number == p[4].number)
    ensures Later(p, 2, 3) == Bit(p[2].number == p[3].number) + Bit(p[2].number == p[4].number)
    ensures Later(p, 1, 2) == Bit(p[1].number == p[2].number) + Bit(p[1].number == p[3].number)
                            + Bit(p[1].number == p[4].number)
    ensures Later(p, 0, 1) == Bit(p[0].number == p[1].number) + Bit(p[0].number == p[2].number)
                            + Bit(p[0].number == p[3].number) + Bit(p[0].number == p[4].number)
  {
    assert forall i :: 0 <= i < 5 ==> Later(p, i, 5) == 0;
    assert forall i :: 0 <= i < 5 ==> Later(p, i, 4) == Bit(p[i].number == p[4].number);
    assert forall i :: 0 <= i < 5 ==> Later(p, i, 3) == Bit(p[i].number == p[3].number) + Later(p, i, 4);
    assert forall i :: 0 <= i < 5 ==> Later(p, i, 2) == Bit(p[i].number == p[2].number) + Later(p, i, 3);
  }

  /** `highpairs`: the size of the largest group. */
  method HighPairs(player: seq<Card>) returns (high: nat)
    requires Hand(player)
    ensures high == MaxMultiplicity(multiset(player))
  {
    var pair := PairCounts(player);
    high := 0;
    var i := 0;
    while i < |pair|
      invariant 0 <= i <= 5
      invariant forall k :: 0 <= k < i ==> pair[k] <= high
      invariant (i == 0 && high == 0) || exists k :: 0 <= k < i && pair[k] == high
    {
      if pair[i] > high {
        high := pair[i];
      }
      i := i + 1;
    }
    HighestIsMultiplicity(player, pair, high);
  }

  lemma HighestIsMultiplicity(p: seq<Card>, pair: seq<nat>, high: nat)
    requires Hand(p) && |pair| == 5 && pair[4] == 0
    requires forall i :: 0 <= i < 4 ==> pair[i] == 1 + Later(p, i, i + 1)
    requires forall k :: 0 <= k < 5 ==> pair[k] <= high
    requires exists k :: 0 <= k < 5 && pair[k] == high
    ensures high == MaxMultiplicity(multiset(p))
  {
    Shapes(p);
    NoFive(p);
    LaterAll(p);
    var k :| 0 <= k < 5 && pair[k] == high;
    assert pair[0] <= high && pair[1] <= high && pair[2] <= high && pair[3] <= high;
  }

  /** The suit loop at the head of `rankval`. */
  method SuitCheck(player: seq<Card>) returns (suitCheck: nat)
    requires |player| == 5
    ensures suitCheck == if SameSuits(player) then 1 else 0
  {
    suitCheck := 1;
    var suit := player[0].suit;
    var k := 0;
    while k < 5
      invariant 0 <= k <= 5
      invariant suitCheck == if (forall i :: 0 <= i < k ==> player[i].suit == suit) then 1 else 0
    {
      if suit != player[k].suit {
        suitCheck := 0;
      }
      k := k + 1;
    }
  }

  /** `rankval`: the decision tree computes the value of the hand. */
  method RankVal(player: seq<Card>) returns (rank: nat)
    requires Hand(player)
    ensures rank == Value(multiset(player))
  {
    hide Value;
    Shapes(player);
    var suitCheck := SuitCheck(player);
    if player[0].number == 1 && player[1].number == 10 && player[2].number == 11
       && player[3].number == 12 && player[4].number == 13 && suitCheck == 1 {
      ValueRoyal(player);
      return 1000;
    }
    var straight := IsStraight(player);
    if straight && suitCheck == 1 {
      ValueStraightFlush(player);
      return 900 + player[4].number;
    }
    var high := HighPairs(player);
    if high == 4 {
      rank := RankFour(player);
      return;
    }
    if high == 3 && suitCheck == 0 {
      rank := RankThree(player);
      return;
    }
    if suitCheck == 1 {
      Rising(player);
      ValueFlush(player);
      rank := 600 + player[4].number;
      if player[0].number == 1 {
        rank := 614;
      }
      return;
    }
    if straight {
      StraightNoGroups(player);
      ValueStraight(player);
      rank := 500 + player[4].number;
      if player[4].number == 13 && player[0].number == 1 {
        rank := 514;
      }
      return;
    }
    if high == 2 {
      rank := RankTwo(player);
      return;
    }
    Rising(player);
    ValueHighCard(player);
    rank := 100 + player[4].number;
    if player[0].number == 1 {
      rank := 114;
    }
  }

  /** Without a group, the numbers rise strictly; a flush has no group. */
  lemma Rising(p: seq<Card>)
    requires Hand(p)
    requires SameSuits(p) || MaxMultiplicity(multiset(p)) == 1
    ensures p[0].number < p[1].number < p[2].number < p[3].number < p[4].number
  {
    Shapes(p);
    NoFive(p);
    forall i | 0 <= i < 4 ensures p[i].number < p[i + 1].number {
    }
  }

  lemma StraightNoGroups(p: seq<Card>)
    requires Hand(p) && (IsAceHigh(p) || IsConsecutive(p))
    ensures p[4].number == 13 && p[0].number == 1 <==> IsAceHigh(p)
  {
    if IsConsecutive(p) {
      assert p[0].number + 1 == p[1].number && p[1].number + 1 == p[2].number;
      assert p[2].number + 1 == p[3].number && p[3].number + 1 == p[4].number;
    }
  }

  /** The four-of-a-kind branch. */
  method RankFour(player: seq<Card>) returns (rank: nat)
    requires Hand(player) && MaxMultiplicity(multiset(player)) == 4
    ensures rank == Value(multiset(player))
  {
    hide Value;
    Shapes(player);
    NoFive(player);
    ValueFour(player);
    if player[4].number == player[3].number {
      rank := 800 + player[4].number;
    } else {
      var lowAces := player[0].number == 1 && player[1].number == 1;
      var highAces := player[3].number == 1 && player[4].number == 1;
      if lowAces || highAces {
        rank := 814;
      } else {
        rank := 800 + player[1].number;
      }
    }
  }

  /** The branch for full houses and three of a kind. */
  method RankThree(player: seq<Card>) returns (rank: nat)
    requires Hand(player) && MaxMultiplicity(multiset(player)) == 3
    ensures rank == Value(multiset(player))
  {
    hide Value;
    Shapes(player);
    var pairs := 1;
    var i := 0;
    while i < 2
      invariant 0 <= i <= 2
      invariant pairs == 1 + (if i > 0 then Bit(player[0].number == player[1].number) else 0)
                           + (if i > 1 then Bit(player[1].number == player[2].number) else 0)
    {
      if player[i].number == player[i + 1].number {
        pairs := pairs + 1;
      }
      i := i + 1;
    }
    if pairs == 3 {
      if player[3].number == player[4].number {
        ValueFullHouse(player);
        if player[1].number == 1 {
          return 714;
        }
        return 700 + player[2].number;
      }
    }
    pairs := 1;
    if player[0].number == player[1].number && player[1].number != player[2].number {
      i := 2;
      while i < |player| - 1
        invariant 2 <= i <= 4
        invariant pairs == 1 + (if i > 2 then Bit(player[2].number == player[3].number) else 0)
                             + (if i > 3 then Bit(player[3].number == player[4].number) else 0)
      {
        if player[i].number == player[i + 1].number {
          pairs := pairs + 1;
        }
        i := i + 1;
      }
      if pairs == 3 {
        ValueFullHouse(player);
        if player[1].number == 1 {
          return 714;
        }
        return 700 + player[4].number;
      }
    }
    ValueThree(player);
    if player[0].number == player[1].number {
      if player[1].number == 1 {
        return 414;
      }
      return 400 + player[1].number;
    }
    return 400 + player[3].number;
  }

  /** The loop that counts the positions holding a two. */
  method CountTwos(pair: seq<nat>) returns (numPairs: nat)
    requires |pair| == 5 && pair[4] == 0
    ensures numPairs == Bit(pair[0] == 2) + Bit(pair[1] == 2) + Bit(pair[2] == 2) + Bit(pair[3] == 2)
  {
    numPairs := 0;
    var i := 0;
    while i < |pair|
      invariant 0 <= i <= 5
      invariant numPairs == (if i > 0 then Bit(pair[0] == 2) else 0) + (if i > 1 then Bit(pair[1] == 2) else 0)
                          + (if i > 2 then Bit(pair[2] == 2) else 0) + (if i > 3 then Bit(pair[3] == 2) else 0)
    {
      if pair[i] == 2 {
        numPairs := numPairs + 1;
      }
      i := i + 1;
    }
  }

  /** The branches for two pairs and one pair. */
  method RankTwo(player: seq<Card>) returns (rank: nat)
    requires Hand(player) && MaxMultiplicity(multiset(player)) == 2
    ensures rank == Value(multiset(player))
  {
    var pair := PairCounts(player);
    var numPairs := CountTwos(pair);
    TwoPairsCounted(player, pair);
    if numPairs == 2 {
      rank := RankTwoPairs(player);
    } else {
      rank := RankOnePair(player);
    }
  }

  /** Two pairs: from the top down, the first two neighbours that are equal. */
  method RankTwoPairs(player: seq<Card>) returns (rank: nat)
    requires Hand(player) && HasTwoPairs(player)
    ensures rank == Value(multiset(player))
  {
    hide Value;
    ValueTwoPairs(player);
    var i := |player| - 1;
    while i > 0
      invariant 0 <= i <= 4
      invariant forall k :: i <= k < 4 ==> player[k].number != player[k + 1].number
    {
      if player[i].number == player[i - 1].number {
        rank := 300 + player[i].number;
        if player[0].number == 1 && player[1].number == 1 {
          rank := 314;
        }
        return;
      }
      i := i - 1;
    }
    assert false;
  }

  /** One pair: from the bottom up, the first two neighbours that are equal. */
  method RankOnePair(player: seq<Card>) returns (rank: nat)
    requires Hand(player) && MaxMultiplicity(multiset(player)) == 2 && !HasTwoPairs(player)
    ensures rank == Value(multiset(player))
  {
    hide Value;
    Shapes(player);
    var i := 0;
    while i < |player| - 1
      invariant 0 <= i <= 4
      invariant forall k :: 0 <= k < i ==> player[k].number != player[k + 1].number
    {
      if player[i].number == player[i + 1].number {
        ValuePair(player, i);
        rank := 200 + player[i].number;
        if player[i].number == 1 {
          rank := 214;
        }
        return;
      }
      i := i + 1;
    }
    assert false;
  }

  /** With no group larger than two, the positions counted as two are the pairs. */
  lemma TwoPairsCounted(p: seq<Card>, pair: seq<nat>)
    requires Hand(p) && MaxMultiplicity(multiset(p)) == 2
    requires |pair| == 5 && forall i :: 0 <= i < 4 ==> pair[i] == 1 + Later(p, i, i + 1)
    ensures Bit(pair[0] == 2) + Bit(pair[1] == 2) + Bit(pair[2] == 2) + Bit(pair[3] == 2)
         == if HasTwoPairs(p) then 2 else 1
  {
    Shapes(p);
    NoFive(p);
    LaterAll(p);
  }
}
