/** What a poker hand is worth, as a function of the multiset of its five cards: the
    standard category, the rank that decides within it, and the number the server
    computes from them.
  */
module HandValue {
  import opened Cards

  /** How many cards of a number there are: one of each suit at most is possible. */
  function Count(m: multiset<Card>, number: nat): nat {
    m[Card(number, 1)] + m[Card(number, 2)] + m[Card(number, 3)] + m[Card(number, 4)]
  }

  predicate Flush(m: multiset<Card>) {
    forall c, d :: c in m && d in m ==> c.suit == d.suit
  }

  /** Five consecutive numbers from `low` on. */
  predicate Consecutive(m: multiset<Card>, low: nat) {
    forall k :: low <= k < low + 5 ==> Count(m, k) == 1
  }

  /** Ten, jack, queen, king and ace. */
  predicate AceHighStraight(m: multiset<Card>) {
    Count(m, 1) == 1 && forall k :: 10 <= k < 14 ==> Count(m, k) == 1
  }

  predicate LowStraight(m: multiset<Card>) {
    exists low :: 1 <= low <= 9 && Consecutive(m, low)
  }

  predicate Straight(m: multiset<Card>) { AceHighStraight(m) || LowStraight(m) }

  /** Some number occurs exactly `k` times. */
  predicate HasGroup(m: multiset<Card>, k: nat) {
    exists r :: 1 <= r <= 13 && Count(m, r) == k
  }

  predicate TwoPairs(m: multiset<Card>) {
    exists r, q :: 1 <= r < q <= 13 && Count(m, r) == 2 && Count(m, q) == 2
  }

  /** The standard category, from 10 for a royal flush down to 1 for a high card. */
  function Category(m: multiset<Card>): nat {
    if Flush(m) && AceHighStraight(m) then 10
    else if Flush(m) && Straight(m) then 9
    else if HasGroup(m, 4) then 8
    else if HasGroup(m, 3) && HasGroup(m, 2) then 7
    else if Flush(m) then 6
    else if Straight(m) then 5
    else if HasGroup(m, 3) then 4
    else if TwoPairs(m) then 3
    else if HasGroup(m, 2) then 2
    else 1
  }

  /** The size of the largest group of equal numbers. */
  function MaxMultiplicity(m: multiset<Card>): nat {
    if HasGroup(m, 4) then 4 else if HasGroup(m, 3) then 3 else if HasGroup(m, 2) then 2 else 1
  }

  /** How many cards have a value, the ace counting as 14. */
  function CountHigh(m: multiset<Card>, v: nat): nat { Count(m, if v == 14 then 1 else v) }

  /** The greatest value up to `v` whose number occurs exactly `k` times; 14 is the ace
      counted high. Zero if there is none. */
  function Best(m: multiset<Card>, k: nat, v: nat): (r: nat)
    ensures r <= v
  {
    if v < 2 then 0
    else if CountHigh(m, v) == k then v
    else Best(m, k, v - 1)
  }

  /** The rank that decides within a category: the top card of a straight (the five of
      ace to five), otherwise the best among the largest groups. */
  function Key(m: multiset<Card>): nat {
    if (Category(m) == 9 || Category(m) == 5) && LowStraight(m) then Best(m, 1, 13) else Best(m, MaxMultiplicity(m), 14)
  }

  /** The rank as the server computes it, in hundredths. Two cases depart from category
      and key: a royal flush is a round ten, and a full house with a pair of aces counts
      as aces whatever its three are. */
  function Value(m: multiset<Card>): nat {
    if Category(m) == 10 then 1000
    else if Category(m) == 7 && Count(m, 1) == 2 then 714
    else 100 * Category(m) + Key(m)
  }

  /** The fraction is at most 0.14 and never carries over into the category, so a higher
      category always beats a lower one. */
  lemma CategoryDecides(m: multiset<Card>, n: multiset<Card>)
    ensures Value(m) / 100 == Category(m) && 1 <= Category(m) <= 10
    ensures Value(m) % 100 <= 14 && (Category(m) == 10 ==> Value(m) % 100 == 0)
    ensures Category(m) < Category(n) ==> Value(m) < Value(n)
  {
  }

  lemma {:induction false} BestIs(m: multiset<Card>, k: nat, v: nat, x: nat)
    requires 2 <= x <= v <= 14
    requires CountHigh(m, x) == k
    requires forall y :: x < y <= v ==> CountHigh(m, y) != k
    ensures Best(m, k, v) == x
    decreases v
  {
    if x < v {
      BestIs(m, k, v - 1, x);
    }
  }

  lemma {:induction false} BestAtLeast(m: multiset<Card>, k: nat, v: nat, x: nat)
    requires 2 <= x <= v && CountHigh(m, x) == k
    ensures Best(m, k, v) >= x
    decreases v
  {
    if CountHigh(m, v) != k {
      BestAtLeast(m, k, v - 1, x);
    }
  }

  lemma GroupHasBest(m: multiset<Card>, k: nat)
    requires HasGroup(m, k)
    ensures Best(m, k, 14) >= 2
  {
    var r :| 1 <= r <= 13 && Count(m, r) == k;
    BestAtLeast(m, k, 14, if r == 1 then 14 else r);
  }

  /** The server's number is the standard one, category and key, exactly when the hand
      is neither a royal flush (already the best of all) nor a full house with a pair of
      aces, which is taken for one with three aces. */
  lemma ValueIsKeyed(m: multiset<Card>)
    ensures Value(m) == 100 * Category(m) + Key(m)
       <==> Category(m) != 10 && !(Category(m) == 7 && Count(m, 1) == 2)
  {
    if Category(m) == 10 {
      assert Count(m, 13) == 1;
      GroupHasBest(m, MaxMultiplicity(m));
    } else if Category(m) == 7 {
      assert CountHigh(m, 14) == Count(m, 1);
      assert MaxMultiplicity(m) == 3;
    }
  }
}
