/** How the server's ranks order hands, against the order by category and deciding rank.
  */
module HandOrder {
  import opened Cards
  import opened HandValue
  import opened HandRank

  /** The order by category, then by the rank that decides within it. */
  predicate Below(m: multiset<Card>, n: multiset<Card>) {
    Category(m) < Category(n) || (Category(m) == Category(n) && Key(m) < Key(n))
  }

  /** The server compares two hands as that order does, either way round. */
  predicate SameOrder(m: multiset<Card>, n: multiset<Card>) {
    (Value(m) < Value(n) <==> Below(m, n)) && (Value(n) < Value(m) <==> Below(n, m))
  }

  /** A full house whose pair is of aces. */
  predicate AcePairFullHouse(m: multiset<Card>) {
    Category(m) == 7 && Count(m, 1) == 2
  }

  /** The deciding rank is one of 2 to 14; a royal flush's is the ace, and that of a full
      house with a pair of aces is not. */
  lemma KeyRange(p: seq<Card>)
    requires Hand(p)
    ensures 2 <= Key(multiset(p)) <= 14
    ensures Category(multiset(p)) == 10 ==> Key(multiset(p)) == 14
    ensures AcePairFullHouse(multiset(p)) ==> Key(multiset(p)) <= 13
  {
    hide Count;
    var m := multiset(p);
    Shapes(p);
    CountsOf(p);
    LargestGroup(p);
    GroupHasBest(m, MaxMultiplicity(m));
    if IsConsecutive(p) {
      assert p[3].number + 1 == p[4].number && p[2].number + 1 == p[3].number;
      BestAtLeast(m, 1, 13, p[4].number);
    }
    if AcePairFullHouse(m) {
      assert CountHigh(m, 14) == Count(m, 1);
    }
  }

  /** The ten categories are the standard ones, each told by the hand alone and not by what
      was tested before it. */
  lemma CategoryIs(p: seq<Card>)
    requires Hand(p)
    ensures var m := multiset(p);
            var (four, three, two) := (HasGroup(m, 4), HasGroup(m, 3), HasGroup(m, 2));
            && (Category(m) == 10 <==> Flush(m) && AceHighStraight(m))
            && (Category(m) == 9 <==> Flush(m) && LowStraight(m))
            && (Category(m) == 8 <==> four)
            && (Category(m) == 7 <==> three && two)
            && (Category(m) == 6 <==> Flush(m) && !Straight(m))
            && (Category(m) == 5 <==> Straight(m) && !Flush(m))
            && (Category(m) == 4 <==> three && !two)
            && (Category(m) == 3 <==> TwoPairs(m))
            && (Category(m) == 2 <==> two && !three && !TwoPairs(m))
            && (Category(m) == 1 <==> !four && !three && !two && !Flush(m) && !Straight(m))
  {
    hide Count, Flush, HasGroup, TwoPairs, AceHighStraight, LowStraight;
    Shapes(p);
    NoFive(p);
    if SameSuits(p) {
      RisingSuited(p);
    }
    if IsConsecutive(p) {
      assert p[0].number + 1 == p[1].number && p[1].number + 1 == p[2].number;
      assert p[2].number + 1 == p[3].number && p[3].number + 1 == p[4].number;
    }
  }

  lemma RisingSuited(p: seq<Card>)
    requires Hand(p) && SameSuits(p)
    ensures p[0].number < p[1].number < p[2].number < p[3].number < p[4].number
  {
    assert forall i :: 0 <= i < 4 ==> p[i] != p[i + 1];
    assert p[0] != p[1] && p[1] != p[2] && p[2] != p[3] && p[3] != p[4];
  }

  /** The deciding rank: the top card of a straight (five for ace to five, the ace for ten
      to ace); otherwise, among the numbers that occur most often, the best, an ace being
      best of all. */
  lemma KeyIs(p: seq<Card>)
    requires Hand(p)
    ensures IsConsecutive(p) ==> Key(multiset(p)) == p[4].number
    ensures IsAceHigh(p) ==> Key(multiset(p)) == 14
    ensures !IsConsecutive(p) ==>
              && (exists i :: 0 <= i < 5 && High(p[i].number) == Key(multiset(p))
                           && Count(multiset(p), p[i].number) == MaxMultiplicity(multiset(p)))
              && (forall i :: 0 <= i < 5 && Count(multiset(p), p[i].number) == MaxMultiplicity(multiset(p)) ==>
                    High(p[i].number) <= Key(multiset(p)))
  {
    hide Count, MaxMultiplicity, Category, HasGroup;
    KeyCases(p);
    var m := multiset(p);
    var k := MaxMultiplicity(m);
    if IsConsecutive(p) {
      ConsecutiveKey(p);
    } else {
      LargestGroup(p);
      GroupHasBest(m, k);
      BestFound(m, k, 14);
      MemberWithCount(p, if Key(m) == 14 then 1 else Key(m));
      forall i | 0 <= i < 5 && Count(m, p[i].number) == k ensures High(p[i].number) <= Key(m) {
        assert IsCard(p[i]);
        BestAtLeast(m, k, 14, High(p[i].number));
      }
    }
  }

  lemma KeyCases(p: seq<Card>)
    requires Hand(p)
    ensures MaxMultiplicity(multiset(p)) >= 1
    ensures !IsConsecutive(p) ==> Key(multiset(p)) == Best(multiset(p), MaxMultiplicity(multiset(p)), 14)
    ensures IsAceHigh(p) ==> !IsConsecutive(p) && Key(multiset(p)) == 14
  {
    hide Count;
    Shapes(p);
    CountsOf(p);
  }

  lemma MemberWithCount(p: seq<Card>, r: nat)
    requires Hand(p) && Count(multiset(p), r) >= 1
    ensures exists i :: 0 <= i < 5 && p[i].number == r
  {
    hide Count;
    CountsOf(p);
  }

  lemma ConsecutiveKey(p: seq<Card>)
    requires Hand(p) && IsConsecutive(p)
    ensures Key(multiset(p)) == p[4].number
  {
    hide Count;
    CategoryIs(p);
    Shapes(p);
    CountsOf(p);
    assert p[0].number + 1 == p[1].number && p[1].number + 1 == p[2].number;
    assert p[2].number + 1 == p[3].number && p[3].number + 1 == p[4].number;
    BestIs(multiset(p), 1, 13, p[4].number);
  }

  lemma {:induction false} BestFound(m: multiset<Card>, k: nat, v: nat)
    requires Best(m, k, v) >= 2
    ensures CountHigh(m, Best(m, k, v)) == k
  {
    if CountHigh(m, v) != k {
      BestFound(m, k, v - 1);
    }
  }

  /** The fraction lies in 0.02 to 0.14, so within the promised 0.01 to 0.14, except for a
      royal flush, which has none. */
  lemma FractionInRange(p: seq<Card>)
    requires Hand(p)
    ensures if Category(multiset(p)) == 10 then Value(multiset(p)) == 1000
            else 2 <= Value(multiset(p)) - 100 * Category(multiset(p)) <= 14
  {
    hide Category, Key;
    KeyRange(p);
  }

  /** Exactly when two hands are compared rightly: always, unless both are full houses and
      one has a pair of aces. Such a hand is taken for the best full house, so it must
      really be the better one; and two such hands, which the server ties, must tie. */
  lemma OrderExact(p: seq<Card>, q: seq<Card>)
    requires Hand(p) && Hand(q)
    ensures var (m, n) := (multiset(p), multiset(q));
            SameOrder(m, n) <==>
              (Category(m) == 7 && Category(n) == 7 ==>
                 if AcePairFullHouse(m) then
                   if AcePairFullHouse(n) then Key(m) == Key(n) else Key(n) < Key(m)
                 else AcePairFullHouse(n) ==> Key(m) < Key(n))
  {
    hide Category, Key, Count;
    KeyRange(p);
    KeyRange(q);
  }

  /** Two hands neither of which is a full house with a pair of aces are compared by
      category and deciding rank. */
  lemma OrderKept(p: seq<Card>, q: seq<Card>)
    requires Hand(p) && Hand(q)
    requires !AcePairFullHouse(multiset(p)) && !AcePairFullHouse(multiset(q))
    ensures SameOrder(multiset(p), multiset(q))
  {
    OrderExact(p, q);
  }

  lemma FullHouseKey(p: seq<Card>)
    requires Hand(p) && ((First3(p) && PairAt(p, 3)) || (PairAt(p, 0) && Last3(p)))
    ensures Category(multiset(p)) == 7 && Key(multiset(p)) == High(p[2].number)
    ensures AcePairFullHouse(multiset(p)) <==> p[0].number == 1 && p[2].number != 1
  {
    hide Count;
    Shapes(p);
    NoFive(p);
    PairNotFlush(p, 0);
    CountsOf(p);
    BestIs(multiset(p), 3, 14, High(p[2].number));
  }

  const ACES_OVER_TWOS := [Card(1, 1), Card(1, 2), Card(2, 1), Card(2, 2), Card(2, 3)]
  const KINGS_OVER_QUEENS := [Card(12, 1), Card(12, 2), Card(13, 1), Card(13, 2), Card(13, 3)]

  lemma AcesOverTwos()
    ensures Hand(ACES_OVER_TWOS)
    ensures var m := multiset(ACES_OVER_TWOS); Category(m) == 7 && Key(m) == 2 && Value(m) == 714
  {
    hide Category, Key, Count, Value;
    FullHouseKey(ACES_OVER_TWOS);
    ValueFullHouse(ACES_OVER_TWOS);
  }

  lemma KingsOverQueens()
    ensures Hand(KINGS_OVER_QUEENS)
    ensures var n := multiset(KINGS_OVER_QUEENS); Category(n) == 7 && Key(n) == 13 && Value(n) == 713
  {
    hide Category, Key, Count, Value;
    FullHouseKey(KINGS_OVER_QUEENS);
    ValueFullHouse(KINGS_OVER_QUEENS);
  }

  /** Three twos and a pair of aces beat three kings and a pair of queens. */
  lemma TwosBeatKings()
    ensures Hand(ACES_OVER_TWOS) && Hand(KINGS_OVER_QUEENS)
    ensures var (m, n) := (multiset(ACES_OVER_TWOS), multiset(KINGS_OVER_QUEENS));
            Below(m, n) && Value(n) < Value(m) && !SameOrder(m, n)
  {
    hide Category, Key, Count, Value, Hand;
    AcesOverTwos();
    KingsOverQueens();
  }
}
