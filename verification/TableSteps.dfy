/** What each message changes at the table, and what it leaves alone. */
module TableSteps {
  import opened Cards
  import opened Winner
  import opened PokerTable
  import opened TableRuns

  /** The table a room is created with: nobody seated, and the first 25 cards dealt. */
  lemma FreshTable(deck: seq<Card>, minBet: int)
    requires IsShuffle(deck)
    ensures var t := NewTable(deck, minBet);
            && t.players == [] && t.pot == 0 && t.round == 0 && t.current == 0 && t.minBet == minBet
            && |t.cards| == 25 < |deck| && forall i :: 0 <= i < 25 ==> t.cards[i] == deck[i]
  {
    ShuffleDistinct(deck);
  }

  /** A join takes the next of four seats, with the uuid and balance of the message and
      five cards; everyone else is dealt five more. At a full table nothing happens. */
  lemma JoinTakesSeat(t: Table, uuid: string, balance: int)
    requires Valid(t)
    ensures var r := Step(t, JoinMsg(uuid, balance));
            var n := |t.players|;
            if n < 4 then
              && |r.players| == n + 1 && |t.cards| == 25
              && r.players[n].uuid == uuid && r.players[n].balance == balance
              && r.players[n].hand == t.cards[5 * n..5 * n + 5]
              && (forall i :: 0 <= i < n ==>
                    && r.players[i].uuid == t.players[i].uuid && r.players[i].balance == t.players[i].balance
                    && r.players[i].hand == t.players[i].hand + t.cards[5 * i..5 * i + 5])
              && r == t.(players := r.players)
            else r == t
  {
    hide Distinct, AllCards;
  }

  /** A start takes ten chips from each of two or more seats, and they are the pot. */
  lemma StartTakesAnte(t: Table)
    requires Valid(t)
    ensures var r := Step(t, StartMsg);
            if |t.players| > 1 then
              && |r.players| == |t.players|
              && (forall i :: 0 <= i < |t.players| ==>
                    r.players[i] == t.players[i].(balance := t.players[i].balance - 10))
              && r.pot == 10 * |t.players|
              && r == t.(players := r.players, pot := r.pot)
            else r == t
  {
  }

  /** A check passes the turn and does nothing else. */
  lemma CheckPassesTurn(t: Table)
    requires Valid(t) && t.players != []
    ensures Step(t, CheckMsg) == t.(current := (t.current + 1) % |t.players|)
  {
  }

  /** The seats with this uuid. */
  function SeatsOf(players: seq<Player>, uuid: string): set<nat> {
    set i: nat | i < |players| && players[i].uuid == uuid
  }

  lemma {:induction false} MatchesCounted(players: seq<Player>, uuid: string)
    ensures Matches(players, uuid) == |SeatsOf(players, uuid)|
  {
    if players != [] {
      var k := |players| - 1;
      MatchesCounted(players[..k], uuid);
      assert SeatsOf(players, uuid) == SeatsOf(players[..k], uuid) + if players[k].uuid == uuid then {k} else {};
    }
  }

  /** A plain bet: every seat with the uuid takes the reported balance and adds the amount
      to the pot, and it becomes the minimum bet; the turn passes, and that is all. */
  lemma BetIsPlaced(t: Table, uuid: string, balance: int, amount: int, deck: seq<Card>)
    requires Valid(t) && t.players != [] && IsShuffle(deck) && t.round + 1 != 3 * |t.players|
    ensures var r := Step(t, BetMsg(uuid, balance, amount, deck));
            var n := |t.players|;
            && |r.players| == n
            && (forall i :: 0 <= i < n ==>
                  r.players[i] == t.players[i].(balance := if t.players[i].uuid == uuid then balance
                                                           else t.players[i].balance))
            && r.pot == t.pot + |SeatsOf(t.players, uuid)| * amount
            && r.minBet == (if SeatsOf(t.players, uuid) != {} then amount else t.minBet)
            && r.cards == t.cards && r.round == t.round + 1 && r.current == (t.current + 1) % n
  {
    hide IsShuffle, Dealt;
    MatchesCounted(t.players, uuid);
  }

  /** With different uuids, a plain bet of seat `i` moves its chips to the pot and touches
      no other seat; a bet with an unknown uuid only passes the turn. */
  lemma BetReachesPot(t: Table, uuid: string, balance: int, amount: int, deck: seq<Card>)
    requires Valid(t) && t.players != [] && IsShuffle(deck) && t.round + 1 != 3 * |t.players|
    requires DistinctIds(t.players)
    ensures var r := Step(t, BetMsg(uuid, balance, amount, deck));
            var next := t.(round := t.round + 1, current := (t.current + 1) % |t.players|);
            && (forall i :: 0 <= i < |t.players| && t.players[i].uuid == uuid ==>
                  r == next.(players := t.players[i := t.players[i].(balance := balance)],
                             pot := t.pot + amount, minBet := amount))
            && ((forall i :: 0 <= i < |t.players| ==> t.players[i].uuid != uuid) ==> r == next)
  {
    hide IsShuffle, Dealt, Step;
    BetIsPlaced(t, uuid, balance, amount, deck);
    var r := Step(t, BetMsg(uuid, balance, amount, deck));
    if i :| 0 <= i < |t.players| && t.players[i].uuid == uuid {
      assert SeatsOf(t.players, uuid) == {i};
      assert r.players == t.players[i := t.players[i].(balance := balance)];
    } else {
      assert SeatsOf(t.players, uuid) == {};
      assert r.players == t.players;
    }
  }

  /** A settling bet ignores its uuid, balance and amount. The last seat no other seat
      beats takes the pot, every seat pays ten chips for the next, the next 25 cards are
      those of the shuffle, and the turn, the uuids and the hands stay. */
  lemma BetSettlesHand(t: Table, uuid: string, balance: int, amount: int, deck: seq<Card>)
    requires Valid(t) && t.players != [] && IsShuffle(deck) && t.round + 1 == 3 * |t.players|
    ensures var r := Step(t, BetMsg(uuid, balance, amount, deck));
            var n := |t.players|;
            && |r.players| == n && |r.cards| == 25 < |deck|
            && (exists w :: 0 <= w < n
                  && (forall i :: 0 <= i < n ==>
                        && r.players[i] == t.players[i].(balance := r.players[i].balance)
                        && r.players[i].balance == t.players[i].balance - 10 + (if i == w then t.pot else 0)
                        && SeatValue(t.cards, i) <= SeatValue(t.cards, w))
                  && (forall i :: w < i < n ==> SeatValue(t.cards, i) < SeatValue(t.cards, w)))
            && (forall i :: 0 <= i < 25 ==> r.cards[i] == deck[i])
            && r.round == 0 && r.pot == 10 * n && r.minBet == 10 && r.current == t.current
  {
    hide IsShuffle, SeatValue, Step, Valid, Dealt;
    var e := BetMsg(uuid, balance, amount, deck);
    SettlementPaysBest(t, e);
    SettlementKeeps(t, e);
  }

  lemma SettlementKeeps(t: Table, e: Event)
    requires Valid(t) && Possible(t, e) && Settles(t, e)
    ensures var r := Step(t, e);
            && r.cards == DealFrom(e.deck) && r.current == t.current && |r.players| == |t.players|
            && forall i :: 0 <= i < |t.players| ==> r.players[i] == t.players[i].(balance := r.players[i].balance)
  {
    hide IsShuffle, Dealt, WinnerSeat, DealFrom;
  }

  /** Seats are never given up, swapped or renamed. */
  lemma {:induction false} SeatsStay(t: Table, es: seq<Event>, i: nat)
    requires Valid(t) && PossibleRun(t, es) && i < |t.players|
    ensures i < |Run(t, es).players| <= 4 && Run(t, es).players[i].uuid == t.players[i].uuid
    decreases |es|
  {
    if es != [] {
      SeatKept(t, es[0], i);
      SeatsStay(Step(t, es[0]), es[1..], i);
    }
  }

  lemma SeatKept(t: Table, e: Event, i: nat)
    requires Valid(t) && Possible(t, e) && i < |t.players|
    ensures i < |Step(t, e).players| && Step(t, e).players[i].uuid == t.players[i].uuid
  {
    hide WinnerSeat, DealFrom, Dealt, IsShuffle;
  }
}
