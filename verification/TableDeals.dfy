/** What cards the seats hold: every join deals five more cards to every seat, from the
    start of the deal in force.
  */
module TableDeals {
  import opened Cards
  import opened Winner
  import opened PokerTable
  import opened TableRuns

  /** The deal in force at each join that finds a seat, in order. */
  function JoinDeals(t: Table, es: seq<Event>): (deals: seq<seq<Card>>)
    requires Valid(t) && PossibleRun(t, es)
    ensures forall j :: 0 <= j < |deals| ==> Dealt(deals[j])
    decreases |es|
  {
    if es == [] then [] else JoinDeal(t, es[0]) + JoinDeals(Step(t, es[0]), es[1..])
  }

  function JoinDeal(t: Table, e: Event): (deals: seq<seq<Card>>)
    requires Valid(t)
    ensures forall j :: 0 <= j < |deals| ==> Dealt(deals[j])
  {
    if e.JoinMsg? && |t.players| < MAX_PLAYERS then [t.cards] else []
  }

  /** The cards of seat `i` once joins with these deals have happened: its block of its
      own join's deal, then of every later one. */
  function HandOf(deals: seq<seq<Card>>, i: nat): seq<Card>
    requires i <= 4 && forall j :: 0 <= j < |deals| ==> |deals[j]| == 25
  {
    if |deals| <= i then []
    else HandOf(deals[..|deals| - 1], i) + Block(deals[|deals| - 1], i)
  }

  predicate DealtBy(t: Table, deals: seq<seq<Card>>) {
    && |deals| == |t.players| <= MAX_PLAYERS
    && (forall j :: 0 <= j < |deals| ==> Dealt(deals[j]))
    && (forall i :: 0 <= i < |t.players| ==> t.players[i].hand == HandOf(deals, i))
  }

  lemma StepDeals(t: Table, e: Event, deals: seq<seq<Card>>)
    requires Valid(t) && Possible(t, e) && DealtBy(t, deals)
    ensures DealtBy(Step(t, e), deals + JoinDeal(t, e))
  {
    hide WinnerSeat, DealFrom;
    var more := deals + JoinDeal(t, e);
    if e.JoinMsg? && |t.players| < MAX_PLAYERS {
      assert more[..|deals|] == deals;
      forall i | 0 <= i < |more| ensures Step(t, e).players[i].hand == HandOf(more, i) {
        assert HandOf(more, i) == HandOf(deals, i) + Block(t.cards, i);
      }
    } else {
      assert more == deals;
    }
  }

  lemma {:induction false} RunDeals(t: Table, es: seq<Event>, deals: seq<seq<Card>>)
    requires Valid(t) && PossibleRun(t, es) && DealtBy(t, deals)
    ensures DealtBy(Run(t, es), deals + JoinDeals(t, es))
    decreases |es|
  {
    hide DealtBy, Step, JoinDeal;
    if es == [] {
      assert deals + [] == deals;
    } else {
      StepDeals(t, es[0], deals);
      RunDeals(Step(t, es[0]), es[1..], deals + JoinDeal(t, es[0]));
      assert deals + JoinDeals(t, es)
          == deals + JoinDeal(t, es[0]) + JoinDeals(Step(t, es[0]), es[1..]);
    }
  }

  lemma {:induction false} HandShape(deals: seq<seq<Card>>, i: nat)
    requires i < |deals| && i <= 4 && forall j :: 0 <= j < |deals| ==> |deals[j]| == 25
    ensures |HandOf(deals, i)| == 5 * (|deals| - i)
    ensures forall k :: 0 <= k < |HandOf(deals, i)| ==>
              i + k / 5 < |deals| && HandOf(deals, i)[k] == deals[i + k / 5][5 * i + k % 5]
    decreases |deals|
  {
    var last := |deals| - 1;
    var hand := HandOf(deals, i);
    if i < last {
      HandShape(deals[..last], i);
    }
    var before := HandOf(deals[..last], i);
    forall k | 0 <= k < |hand| ensures i + k / 5 < |deals| && hand[k] == deals[i + k / 5][5 * i + k % 5] {
      if k < |before| {
        assert deals[..last][i + k / 5] == deals[i + k / 5];
      } else {
        assert k / 5 == last - i && k % 5 == k - |before|;
      }
    }
  }

  /** Dealing, in every run whatever: entry `k` of seat `i` is card `5i + k mod 5` of the
      deal in force at join number `i + k / 5`. */
  lemma HandsInRun(deck: seq<Card>, minBet: int, es: seq<Event>, i: nat)
    requires IsShuffle(deck) && PossibleRun(NewTable(deck, minBet), es)
    requires i < |Run(NewTable(deck, minBet), es).players|
    ensures var t := NewTable(deck, minBet);
            var r := Run(t, es);
            var deals := JoinDeals(t, es);
            && |deals| == |r.players|
            && |r.players[i].hand| == 5 * (|r.players| - i)
            && (forall k :: 0 <= k < |r.players[i].hand| ==>
                  i + k / 5 < |deals| && 5 * i + k % 5 < |deals[i + k / 5]|
                  && r.players[i].hand[k] == deals[i + k / 5][5 * i + k % 5])
            && r.players[i].hand[..5] == Block(deals[i], i)
  {
    hide IsShuffle, Run, Step, NewTable, PossibleRun, JoinDeals, HandOf;
    var deals := JoinDeals(NewTable(deck, minBet), es);
    HandIs(deck, minBet, es, i);
    HandShape(deals, i);
    var hand := HandOf(deals, i);
    assert hand[..5] == Block(deals[i], i) by {
      forall k | 0 <= k < 5 ensures hand[k] == Block(deals[i], i)[k] {
        assert hand[k] == deals[i + k / 5][5 * i + k % 5];
      }
    }
  }

  lemma HandIs(deck: seq<Card>, minBet: int, es: seq<Event>, i: nat)
    requires IsShuffle(deck) && PossibleRun(NewTable(deck, minBet), es)
    requires i < |Run(NewTable(deck, minBet), es).players|
    ensures var deals := JoinDeals(NewTable(deck, minBet), es);
            && |deals| == |Run(NewTable(deck, minBet), es).players| <= MAX_PLAYERS
            && (forall j :: 0 <= j < |deals| ==> |deals[j]| == 25)
            && Run(NewTable(deck, minBet), es).players[i].hand == HandOf(deals, i)
  {
    hide IsShuffle, Run, Step, PossibleRun, JoinDeals, HandOf;
    var t := NewTable(deck, minBet);
    assert DealtBy(t, []);
    RunDeals(t, es, []);
    assert [] + JoinDeals(t, es) == JoinDeals(t, es);
  }

  predicate NoSettlement(t: Table, es: seq<Event>)
    requires Valid(t) && PossibleRun(t, es)
    decreases |es|
  {
    es == [] || (!Settles(t, es[0]) && NoSettlement(Step(t, es[0]), es[1..]))
  }

  lemma {:induction false} OneDeal(t: Table, es: seq<Event>)
    requires Valid(t) && PossibleRun(t, es) && NoSettlement(t, es)
    ensures Run(t, es).cards == t.cards
    ensures forall j :: 0 <= j < |JoinDeals(t, es)| ==> JoinDeals(t, es)[j] == t.cards
    decreases |es|
  {
    if es != [] {
      hide Dealt, IsShuffle;
      assert Step(t, es[0]).cards == t.cards;
      OneDeal(Step(t, es[0]), es[1..]);
    }
  }

  /** In every run: the five cards a seat is shown are the five it will be ranked on
      exactly when its block of the deal it joined under is its block of the present deal;
      always, as long as nothing has been settled. */
  lemma ShownIsRanked(deck: seq<Card>, minBet: int, es: seq<Event>, i: nat)
    requires IsShuffle(deck) && PossibleRun(NewTable(deck, minBet), es)
    requires i < |Run(NewTable(deck, minBet), es).players|
    ensures var t := NewTable(deck, minBet);
            var r := Run(t, es);
            && i < |JoinDeals(t, es)| && |r.players[i].hand| >= 5
            && (r.players[i].hand[..5] == Block(r.cards, i) <==> Block(JoinDeals(t, es)[i], i) == Block(r.cards, i))
            && (NoSettlement(t, es) ==> r.players[i].hand[..5] == Block(r.cards, i))
  {
    hide IsShuffle, Run, Step, NewTable, PossibleRun, JoinDeals;
    var t := NewTable(deck, minBet);
    HandsInRun(deck, minBet, es, i);
    if NoSettlement(t, es) {
      OneDeal(t, es);
    }
  }

  /** A hand only ever grows, so the five cards shown for a seat never change. */
  lemma {:induction false} HandsGrow(t: Table, es: seq<Event>, i: nat)
    requires Valid(t) && PossibleRun(t, es) && i < |t.players|
    ensures i < |Run(t, es).players| && t.players[i].hand <= Run(t, es).players[i].hand
    decreases |es|
  {
    if es != [] {
      StepGrows(t, es[0], i);
      HandsGrow(Step(t, es[0]), es[1..], i);
    }
  }

  lemma StepGrows(t: Table, e: Event, i: nat)
    requires Valid(t) && Possible(t, e) && i < |t.players|
    ensures i < |Step(t, e).players| && t.players[i].hand <= Step(t, e).players[i].hand
  {
    hide WinnerSeat, DealFrom, Dealt, IsShuffle;
  }

  /** A seat that joins at any time, settlements before it or not, is shown for good its
      block of the deal it joined under; those are the cards it will be ranked on as long
      as nothing has been settled since. */
  lemma ShownSinceJoin(t: Table, join: Event, es: seq<Event>)
    requires Valid(t) && |t.players| < MAX_PLAYERS && join.JoinMsg?
    requires PossibleRun(Step(t, join), es)
    ensures var i := |t.players|;
            var r := Run(Step(t, join), es);
            && i < |r.players| && |r.players[i].hand| >= 5
            && r.players[i].hand[..5] == Block(t.cards, i)
            && (NoSettlement(Step(t, join), es) ==> r.players[i].hand[..5] == Block(r.cards, i))
  {
    hide IsShuffle, Run, PossibleRun, NoSettlement;
    var (i, u) := (|t.players|, Step(t, join));
    assert u.players[i].hand == Block(t.cards, i) && u.cards == t.cards;
    HandsGrow(u, es, i);
    if NoSettlement(u, es) {
      OneDeal(u, es);
    }
  }

  /** A settlement changes the cards that will be ranked and leaves every hand shown as it
      was: shown and ranked agree afterwards exactly where the new deal repeats the deal the
      seat joined under. */
  lemma SettlementKeepsHands(deck: seq<Card>, minBet: int, es: seq<Event>, e: Event, i: nat)
    requires IsShuffle(deck) && PossibleRun(NewTable(deck, minBet), es)
    requires var u := Run(NewTable(deck, minBet), es);
             Possible(u, e) && Settles(u, e) && i < |u.players|
    ensures var u := Run(NewTable(deck, minBet), es);
            var r := Step(u, e);
            && r.cards == DealFrom(e.deck) && r.players[i].hand == u.players[i].hand
            && i < |JoinDeals(NewTable(deck, minBet), es)| && |r.players[i].hand| >= 5
            && (r.players[i].hand[..5] == Block(r.cards, i)
                <==> Block(JoinDeals(NewTable(deck, minBet), es)[i], i) == Block(DealFrom(e.deck), i))
  {
    hide IsShuffle, Run, NewTable, PossibleRun, JoinDeals, WinnerSeat, DealFrom, Dealt;
    HandsInRun(deck, minBet, es, i);
  }

  lemma RunCons(t: Table, e: Event, es: seq<Event>)
    requires Valid(t) && Possible(t, e) && PossibleRun(Step(t, e), es)
    ensures PossibleRun(t, [e] + es) && Run(t, [e] + es) == Run(Step(t, e), es)
  {
    assert ([e] + es)[1..] == es;
  }

  /** The full deck with its first and last cards exchanged. */
  function OtherDeck(): seq<Card> {
    FullDeck()[0 := FullDeck()[51]][51 := FullDeck()[0]]
  }

  lemma OtherDeckIsShuffle()
    ensures IsShuffle(OtherDeck()) && OtherDeck()[0] == Card(13, 4)
  {
    var d := FullDeck();
    assert multiset(d[0 := d[51]]) == multiset(d) - multiset{d[0]} + multiset{d[51]};
  }

  /** A run in which they differ: one seat joins, and three bets settle the hand and deal
      from a differently shuffled deck. The seat is still shown the ace of diamonds, and
      will be ranked with the king of clubs in its place. */
  lemma ShownDiffersAfterSettlement()
    ensures var t := NewTable(FullDeck(), 0);
            var bet := BetMsg("a", 0, 0, OtherDeck());
            var es := [JoinMsg("a", 0)] + ([bet] + ([bet] + ([bet] + [])));
            && PossibleRun(t, es) && |Run(t, es).players| == 1 && |Run(t, es).players[0].hand| == 5
            && Run(t, es).players[0].hand[0] == Card(1, 1)
            && Block(Run(t, es).cards, 0)[0] == Card(13, 4)
  {
    hide IsShuffle, FullDeck, OtherDeck, Step, Run, PossibleRun, NewTable;
    OtherDeckIsShuffle();
    SelfShuffle();
    var t := NewTable(FullDeck(), 0);
    var join, bet := JoinMsg("a", 0), BetMsg("a", 0, 0, OtherDeck());
    FirstJoin(join);
    var t1 := Step(t, join);
    BetKeeps(t1, bet);
    var t2 := Step(t1, bet);
    BetKeeps(t2, bet);
    var t3 := Step(t2, bet);
    BetSettles(t3, bet);
    var t4 := Step(t3, bet);
    NoMore(t4);
    RunCons(t3, bet, []);
    RunCons(t2, bet, [bet] + []);
    RunCons(t1, bet, [bet] + ([bet] + []));
    RunCons(t, join, [bet] + ([bet] + ([bet] + [])));
  }

  lemma FirstJoin(join: Event)
    requires join.JoinMsg?
    ensures IsShuffle(FullDeck())
    ensures var u := Step(NewTable(FullDeck(), 0), join);
            |u.players| == 1 && u.round == 0 && |u.players[0].hand| == 5 && u.players[0].hand[0] == Card(1, 1)
  {
    hide IsShuffle;
    SelfShuffle();
    assert DealFrom(FullDeck()) == FullDeck()[..25];
  }

  lemma NoMore(t: Table)
    requires Valid(t)
    ensures PossibleRun(t, []) && Run(t, []) == t
  {
  }

  lemma BetKeeps(t: Table, e: Event)
    requires Valid(t) && Possible(t, e) && e.BetMsg? && !Settles(t, e)
    ensures |Step(t, e).players| == |t.players| && Step(t, e).round == t.round + 1
    ensures forall i :: 0 <= i < |t.players| ==> Step(t, e).players[i].hand == t.players[i].hand
  {
  }

  lemma BetSettles(t: Table, e: Event)
    requires Valid(t) && Possible(t, e) && e.BetMsg? && Settles(t, e)
    ensures |Step(t, e).players| == |t.players| && Step(t, e).cards == DealFrom(e.deck)
    ensures forall i :: 0 <= i < |t.players| ==> Step(t, e).players[i].hand == t.players[i].hand
  {
    hide WinnerSeat;
  }

  /** Every join so far dealt from one and the same deal. */
  predicate OneDealJoined(t: Table, es: seq<Event>)
    requires Valid(t) && PossibleRun(t, es)
  {
    forall j :: 0 <= j < |JoinDeals(t, es)| ==> JoinDeals(t, es)[j] == JoinDeals(t, es)[0]
  }

  /** As long as all seats joined under one deal, in particular until the first settlement,
      no card is held by two of them, whatever the shuffle. */
  lemma NoCardTwice(deck: seq<Card>, minBet: int, es: seq<Event>, i: nat, j: nat)
    requires IsShuffle(deck) && PossibleRun(NewTable(deck, minBet), es)
    requires i < j < |Run(NewTable(deck, minBet), es).players|
    ensures NoSettlement(NewTable(deck, minBet), es) ==> OneDealJoined(NewTable(deck, minBet), es)
    ensures var r := Run(NewTable(deck, minBet), es);
            OneDealJoined(NewTable(deck, minBet), es) ==>
              forall c :: c in r.players[i].hand ==> c !in r.players[j].hand
  {
    hide IsShuffle, Run, Step, DealFrom;
    var t := NewTable(deck, minBet);
    if NoSettlement(t, es) {
      OneDeal(t, es);
    }
    HandsInRun(deck, minBet, es, i);
    HandsInRun(deck, minBet, es, j);
    var r := Run(t, es);
    var cards := JoinDeals(t, es)[0];
    var (a, b) := (r.players[i].hand, r.players[j].hand);
    if OneDealJoined(t, es) {
      forall k, l | 0 <= k < |a| && 0 <= l < |b| ensures a[k] != b[l] {
        Apart(i, j, k, l);
        assert a[k] == cards[5 * i + k % 5] && b[l] == cards[5 * j + l % 5];
      }
    }
  }

  lemma Apart(i: nat, j: nat, k: nat, l: nat)
    requires i < j
    ensures 5 * i + k % 5 < 5 * j + l % 5
  {
  }
}
