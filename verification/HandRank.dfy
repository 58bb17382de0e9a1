/** The server's ranking code (`straight`, `highpairs`, `rankval`), which works on a
    sorted vector of five cards, proved to compute the value of the hand.
  */
module HandRank {
  import opened Cards
  import opened HandValue

  /** A sorted vector of five different cards. */
  predicate Hand(p: seq<Card>) {
    |p| == 5 && Sorted(p) && AllCards(p) && Distinct(p)
  }

  function High(number: nat): nat { if number == 1 then 14 else number }

  /** How often `r` occurs among five numbers. */
  function Count5(a: nat, b: nat, c: nat, d: nat, e: nat, r: nat): nat {
    (if a == r then 1 else 0) + (if b == r then 1 else 0) + (if c == r then 1 else 0)
    + (if d == r then 1 else 0) + (if e == r then 1 else 0)
  }

  lemma CountGrows(s: seq<Card>, x: Card, r: nat)
    requires IsCard(x)
    ensures Count(multiset(s + [x]), r) == Count(multiset(s), r) + if x.number == r then 1 else 0
  {
    assert multiset(s + [x]) == multiset(s) + multiset{x};
    assert x == Card(x.number, x.suit);
  }

  lemma CountOf(p: seq<Card>, r: nat)
    requires |p| == 5 && AllCards(p)
    ensures Count(multiset(p), r)
         == Count5(p[0].number, p[1].number, p[2].number, p[3].number, p[4].number, r)
  {
    hide Count;
    assert Count(multiset(p[..0]), r) == 0 by { NoneOf(r); assert p[..0] == []; }
    assert p[..1] == p[..0] + [p[0]];
    assert p[..2] == p[..1] + [p[1]];
    assert p[..3] == p[..2] + [p[2]];
    assert p[..4] == p[..3] + [p[3]];
    assert p == p[..4] + [p[4]];
    CountGrows(p[..0], p[0], r);
    CountGrows(p[..1], p[1], r);
    CountGrows(p[..2], p[2], r);
    CountGrows(p[..3], p[3], r);
    CountGrows(p[..4], p[4], r);
  }

  lemma NoneOf(r: nat)
    ensures Count(multiset([]), r) == 0
  {
  }

  lemma CountsOf(p: seq<Card>)
    requires |p| == 5 && AllCards(p)
    ensures forall r: nat {:trigger Count(multiset(p), r)} ::
              Count(multiset(p), r) == Count5(p[0].number, p[1].number, p[2].number, p[3].number, p[4].number, r)
  {
    forall r: nat
      ensures Count(multiset(p), r) == Count5(p[0].number, p[1].number, p[2].number, p[3].number, p[4].number, r)
    {
      CountOf(p, r);
    }
  }

  // ------------------------------------------- the categories, read off a sorted hand

  predicate First4(p: seq<Card>) requires |p| == 5 { p[0].number == p[3].number }
  predicate Last4(p: seq<Card>) requires |p| == 5 { p[1].number == p[4].number }

  predicate First3(p: seq<Card>) requires |p| == 5 {
    p[0].number == p[2].number && p[2].number != p[3].number
  }
  predicate Middle3(p: seq<Card>) requires |p| == 5 {
    p[1].number == p[3].number && p[0].number != p[1].number && p[3].number != p[4].number
  }
  predicate Last3(p: seq<Card>) requires |p| == 5 {
    p[2].number == p[4].number && p[1].number != p[2].number
  }

  /** Cards `i` and `i + 1` form a pair and no more. */
  predicate PairAt(p: seq<Card>, i: nat) requires |p| == 5 && i < 4 {
    && p[i].number == p[i + 1].number
    && (i > 0 ==> p[i - 1].number != p[i].number)
    && (i < 3 ==> p[i + 1].number != p[i + 2].number)
  }

  predicate HasPair(p: seq<Card>) requires |p| == 5 {
    PairAt(p, 0) || PairAt(p, 1) || PairAt(p, 2) || PairAt(p, 3)
  }

  predicate HasTwoPairs(p: seq<Card>) requires |p| == 5 {
    (PairAt(p, 0) && PairAt(p, 2)) || (PairAt(p, 0) && PairAt(p, 3)) || (PairAt(p, 1) && PairAt(p, 3))
  }

  predicate IsAceHigh(p: seq<Card>) requires |p| == 5 {
    p[0].number == 1 && p[1].number == 10 && p[2].number == 11 && p[3].number == 12 && p[4].number == 13
  }

  predicate IsConsecutive(p: seq<Card>) requires |p| == 5 {
    forall i :: 0 <= i < 4 ==> p[i].number + 1 == p[i + 1].number
  }

  predicate SameSuits(p: seq<Card>) requires |p| == 5 {
    forall i :: 0 <= i < 5 ==> p[i].suit == p[0].suit
  }

  /** Of five suits two are the same. */
  lemma FourSuits(a: nat, b: nat, c: nat, d: nat, e: nat)
    requires 1 <= a <= 4 && 1 <= b <= 4 && 1 <= c <= 4 && 1 <= d <= 4 && 1 <= e <= 4
    ensures a == b || a == c || a == d || a == e || b == c || b == d || b == e || c == d || c == e || d == e
  {
  }

  /** There are only four cards of a number. */
  lemma NoFive(p: seq<Card>)
    requires Hand(p)
    ensures p[0].number != p[4].number
  {
    assert IsCard(p[0]) && IsCard(p[1]) && IsCard(p[2]) && IsCard(p[3]) && IsCard(p[4]);
    FourSuits(p[0].suit, p[1].suit, p[2].suit, p[3].suit, p[4].suit);
  }

  lemma FlushShape(p: seq<Card>)
    requires Hand(p)
    ensures Flush(multiset(p)) <==> SameSuits(p)
  {
    forall c | c in multiset(p) ensures exists i :: 0 <= i < 5 && p[i] == c {
      assert c in p;
    }
    assert forall i :: 0 <= i < 5 ==> p[i] in multiset(p);
  }

  /** Equal numbers rule out a flush, the cards being different. */
  lemma PairNotFlush(p: seq<Card>, i: nat)
    requires Hand(p) && i < 4 && p[i].number == p[i + 1].number
    ensures !SameSuits(p) && !Flush(multiset(p))
  {
    FlushShape(p);
    assert p[i] != p[i + 1];
  }

  lemma FourShape(p: seq<Card>)
    requires Hand(p)
    ensures HasGroup(multiset(p), 4) <==> First4(p) || Last4(p)
  {
    hide Count;
    CountsOf(p);
    NoFive(p);
    var n := Count(multiset(p), p[2].number);
  }

  lemma ThreeShape(p: seq<Card>)
    requires Hand(p)
    ensures HasGroup(multiset(p), 3) <==> First3(p) || Middle3(p) || Last3(p)
  {
    hide Count;
    CountsOf(p);
    var n := Count(multiset(p), p[2].number);
  }

  lemma TwoShape(p: seq<Card>)
    requires Hand(p)
    ensures HasGroup(multiset(p), 2) <==> HasPair(p)
  {
    hide Count;
    CountsOf(p);
    var b, d := Count(multiset(p), p[1].number), Count(multiset(p), p[3].number);
  }

  lemma TwoPairsShape(p: seq<Card>)
    requires Hand(p)
    ensures TwoPairs(multiset(p)) <==> HasTwoPairs(p)
  {
    hide Count;
    CountsOf(p);
    var b, d := Count(multiset(p), p[1].number), Count(multiset(p), p[3].number);
  }

  lemma AceHighShape(p: seq<Card>)
    requires Hand(p)
    ensures AceHighStraight(multiset(p)) <==> IsAceHigh(p)
  {
    hide Count;
    CountsOf(p);
    var m := multiset(p);
    if AceHighStraight(m) {
      assert Count(m, 10) == 1 && Count(m, 11) == 1 && Count(m, 12) == 1 && Count(m, 13) == 1;
    }
  }

  lemma ConsecutiveShape(p: seq<Card>)
    requires Hand(p)
    ensures LowStraight(multiset(p)) <==> IsConsecutive(p)
  {
    hide Count;
    CountsOf(p);
    var m := multiset(p);
    if LowStraight(m) {
      var low :| 1 <= low <= 9 && Consecutive(m, low);
      assert Count(m, low) == 1 && Count(m, low + 1) == 1 && Count(m, low + 2) == 1
          && Count(m, low + 3) == 1 && Count(m, low + 4) == 1;
    }
    if IsConsecutive(p) {
      assert p[0].number + 1 == p[1].number && p[1].number + 1 == p[2].number;
      assert p[2].number + 1 == p[3].number && p[3].number + 1 == p[4].number;
      assert IsCard(p[4]);
      assert Consecutive(m, p[0].number);
    }
  }

  /** All the shapes at once. */
  lemma Shapes(p: seq<Card>)
    requires Hand(p)
    ensures 1 <= p[0].number <= p[1].number <= p[2].number <= p[3].number <= p[4].number <= 13
    ensures Flush(multiset(p)) <==> SameSuits(p)
    ensures HasGroup(multiset(p), 4) <==> First4(p) || Last4(p)
    ensures HasGroup(multiset(p), 3) <==> First3(p) || Middle3(p) || Last3(p)
    ensures HasGroup(multiset(p), 2) <==> HasPair(p)
    ensures TwoPairs(multiset(p)) <==> HasTwoPairs(p)
    ensures AceHighStraight(multiset(p)) <==> IsAceHigh(p)
    ensures LowStraight(multiset(p)) <==> IsConsecutive(p)
  {
    assert IsCard(p[0]) && IsCard(p[4]);
    FlushShape(p);
    FourShape(p);
    ThreeShape(p);
    TwoShape(p);
    TwoPairsShape(p);
    AceHighShape(p);
    ConsecutiveShape(p);
  }

  /** The largest group is what it says: some number occurs that often and none occurs
      more. */
  lemma LargestGroup(p: seq<Card>)
    requires Hand(p)
    ensures HasGroup(multiset(p), MaxMultiplicity(multiset(p)))
    ensures forall r: nat :: Count(multiset(p), r) <= MaxMultiplicity(multiset(p))
  {
    hide Count;
    Shapes(p);
    NoFive(p);
    CountsOf(p);
    var b := Count(multiset(p), p[1].number);
  }

  // ------------------------------------------------------- the value in each category

  lemma ValueFour(p: seq<Card>)
    requires Hand(p) && (First4(p) || Last4(p))
    ensures Value(multiset(p)) == 800 + High(p[2].number)
  {
    hide Count;
    CountsOf(p);
    NoFive(p);
    Shapes(p);
    PairNotFlush(p, 1);
    BestIs(multiset(p), 4, 14, High(p[2].number));
  }

  lemma ValueFullHouse(p: seq<Card>)
    requires Hand(p) && ((First3(p) && PairAt(p, 3)) || (PairAt(p, 0) && Last3(p)))
    ensures Value(multiset(p)) == if p[0].number == 1 then 714 else 700 + p[2].number
  {
    hide Count;
    CountsOf(p);
    Shapes(p);
    PairNotFlush(p, 0);
    BestIs(multiset(p), 3, 14, High(p[2].number));
  }

  lemma ValueThree(p: seq<Card>)
    requires Hand(p) && (First3(p) || Middle3(p) || Last3(p)) && !HasPair(p)
    ensures Value(multiset(p)) == 400 + High(p[2].number)
  {
    hide Count;
    CountsOf(p);
    Shapes(p);
    PairNotFlush(p, if p[1].number == p[2].number then 1 else 2);
    BestIs(multiset(p), 3, 14, High(p[2].number));
  }

  lemma ValueRoyal(p: seq<Card>)
    requires Hand(p) && SameSuits(p) && IsAceHigh(p)
    ensures Value(multiset(p)) == 1000
  {
    hide Count;
    CountsOf(p);
    Shapes(p);
  }

  lemma ValueStraightFlush(p: seq<Card>)
    requires Hand(p) && SameSuits(p) && IsConsecutive(p)
    ensures Value(multiset(p)) == 900 + p[4].number
  {
    hide Count;
    CountsOf(p);
    Shapes(p);
    assert p[0].number + 1 == p[1].number;
    BestIs(multiset(p), 1, 13, p[4].number);
  }

  lemma ValueFlush(p: seq<Card>)
    requires Hand(p) && SameSuits(p) && !IsAceHigh(p) && !IsConsecutive(p)
    requires p[0].number < p[1].number < p[2].number < p[3].number < p[4].number
    ensures Value(multiset(p)) == 600 + if p[0].number == 1 then 14 else p[4].number
  {
    hide Count;
    CountsOf(p);
    Shapes(p);
    BestIs(multiset(p), 1, 14, if p[0].number == 1 then 14 else p[4].number);
  }

  lemma ValueStraight(p: seq<Card>)
    requires Hand(p) && !SameSuits(p) && (IsAceHigh(p) || IsConsecutive(p))
    ensures Value(multiset(p)) == 500 + if IsAceHigh(p) then 14 else p[4].number
  {
    hide Count;
    CountsOf(p);
    Shapes(p);
    if IsConsecutive(p) {
      assert p[0].number + 1 == p[1].number && p[1].number + 1 == p[2].number;
      assert p[2].number + 1 == p[3].number && p[3].number + 1 == p[4].number;
      BestIs(multiset(p), 1, 13, p[4].number);
    } else {
      BestIs(multiset(p), 1, 14, 14);
    }
  }

  lemma ValueTwoPairs(p: seq<Card>)
    requires Hand(p) && HasTwoPairs(p)
    ensures Value(multiset(p)) == 300 + if p[0].number == p[1].number == 1 then 14
                                        else if PairAt(p, 3) then p[3].number else p[2].number
  {
    hide Count;
    CountsOf(p);
    Shapes(p);
    PairNotFlush(p, if PairAt(p, 0) then 0 else 1);
    BestIs(multiset(p), 2, 14, if p[0].number == p[1].number == 1 then 14
                     else if PairAt(p, 3) then p[3].number else p[2].number);
  }

  /** A single pair is the only number that occurs twice. */
  lemma PairOnly(p: seq<Card>, i: nat)
    requires Hand(p) && i < 4 && PairAt(p, i)
    requires !HasTwoPairs(p) && !First3(p) && !Middle3(p) && !Last3(p)
    ensures forall r: nat {:trigger Count(multiset(p), r)} :: Count(multiset(p), r) == 2 <==> r == p[i].number
  {
    hide Count;
    CountsOf(p);
    if i == 0 {
    } else if i == 1 {
    } else if i == 2 {
    } else {
    }
  }

  lemma ValuePair(p: seq<Card>, i: nat)
    requires Hand(p) && i < 4 && PairAt(p, i)
    requires !HasTwoPairs(p) && !First3(p) && !Middle3(p) && !Last3(p)
    ensures Value(multiset(p)) == 200 + High(p[i].number)
  {
    hide Count;
    Shapes(p);
    PairNotFlush(p, i);
    PairOnly(p, i);
    BestIs(multiset(p), 2, 14, High(p[i].number));
  }

  lemma ValueHighCard(p: seq<Card>)
    requires Hand(p) && !SameSuits(p) && !IsAceHigh(p) && !IsConsecutive(p)
    requires p[0].number < p[1].number < p[2].number < p[3].number < p[4].number
    ensures Value(multiset(p)) == 100 + if p[0].number == 1 then 14 else p[4].number
  {
    hide Count;
    CountsOf(p);
    Shapes(p);
    BestIs(multiset(p), 1, 14, if p[0].number == 1 then 14 else p[4].number);
  }
}
