/** Whole runs of the poker table: chips, turns, deals and settlements. */
module TableRuns {
  import opened Cards
  import opened Winner
  import opened PokerTable

  datatype Event =
    | JoinMsg(uuid: string, balance: int)
    | StartMsg
    | BetMsg(uuid: string, balance: int, amount: int, deck: seq<Card>)
    | CheckMsg

  /** A bet or a check looks at the current player, so there has to be one; `deck` is
      the shuffle a settlement would deal from. */
  predicate Possible(t: Table, e: Event) {
    match e
    case BetMsg(_, _, _, deck) => t.players != [] && IsShuffle(deck)
    case CheckMsg => t.players != []
    case _ => true
  }

  function Step(t: Table, e: Event): (r: Table)
    requires Valid(t) && Possible(t, e)
    ensures Valid(r)
  {
    match e
    case JoinMsg(uuid, balance) => Join(t, uuid, balance)
    case StartMsg => Start(t)
    case BetMsg(uuid, balance, amount, deck) => Bet(t, uuid, balance, amount, deck)
    case CheckMsg => Check(t)
  }

  predicate PossibleRun(t: Table, es: seq<Event>)
    requires Valid(t)
    decreases |es|
  {
    es == [] || (Possible(t, es[0]) && PossibleRun(Step(t, es[0]), es[1..]))
  }

  /** The table after a run; its validity says that in every run the turn index is in
      range and `round` stays below three times the number of seats. */
  function Run(t: Table, es: seq<Event>): (r: Table)
    requires Valid(t) && PossibleRun(t, es)
    ensures Valid(r)
    decreases |es|
  {
    if es == [] then t else Run(Step(t, es[0]), es[1..])
  }

  predicate Settles(t: Table, e: Event) {
    e.BetMsg? && t.round + 1 == 3 * |t.players|
  }

  // ------------------------------------------------------------------------ chips

  function Balances(players: seq<Player>): int {
    if players == [] then 0 else Balances(players[..|players| - 1]) + players[|players| - 1].balance
  }

  /** All chips on the table: the balances and the pot. */
  function Chips(t: Table): int { Balances(t.players) + t.pot }

  /** Chips that come in with a join that finds a seat. */
  function BuyIn(t: Table, e: Event): int {
    if e.JoinMsg? && |t.players| < MAX_PLAYERS then e.balance else 0
  }

  /** By how much the seats with this uuid gain when each takes the reported balance and
      its bet goes to the pot. */
  function Gain(players: seq<Player>, uuid: string, balance: int, amount: int): int {
    if players == [] then 0
    else
      var p := players[|players| - 1];
      Gain(players[..|players| - 1], uuid, balance, amount)
      + if p.uuid == uuid then balance + amount - p.balance else 0
  }

  /** Chips that appear from nowhere (or vanish, when negative) in a step: a start
      forgets the pot, and a plain bet believes the reported balance. */
  function Drift(t: Table, e: Event): int {
    match e
    case StartMsg => if |t.players| > 1 then -t.pot else 0
    case BetMsg(uuid, balance, amount, _) =>
      if Settles(t, e) then 0 else Gain(t.players, uuid, balance, amount)
    case _ => 0
  }

  lemma {:induction false} BalancesDistributed(players: seq<Player>, cards: seq<Card>)
    requires 5 * |players| <= |cards|
    ensures Balances(Distribute(players, cards)) == Balances(players)
  {
    if players != [] {
      var k := |players| - 1;
      BalancesDistributed(players[..k], cards);
      assert Distribute(players, cards)[..k] == Distribute(players[..k], cards);
    }
  }

  lemma {:induction false} BalancesAnted(players: seq<Player>)
    ensures Balances(Anted(players)) == Balances(players) - ANTE * |players|
  {
    if players != [] {
      var k := |players| - 1;
      BalancesAnted(players[..k]);
      assert Anted(players)[..k] == Anted(players[..k]);
    }
  }

  lemma {:induction false} BalancesSettled(players: seq<Player>, winner: nat, pot: int)
    ensures Balances(Settled(players, winner, pot))
         == Balances(players) - ANTE * |players| + if winner < |players| then pot else 0
  {
    hide Settled;
    if players != [] {
      var k := |players| - 1;
      BalancesSettled(players[..k], winner, pot);
      assert Settled(players, winner, pot)[..k] == Settled(players[..k], winner, pot);
    }
  }

  lemma {:induction false} BalancesReported(players: seq<Player>, uuid: string, balance: int, amount: int)
    ensures Balances(Reported(players, uuid, balance)) + Matches(players, uuid) * amount
         == Balances(players) + Gain(players, uuid, balance, amount)
  {
    if players != [] {
      var k := |players| - 1;
      BalancesReported(players[..k], uuid, balance, amount);
      assert Reported(players, uuid, balance)[..k] == Reported(players[..k], uuid, balance);
      assert players[..k + 1] == players;
      MatchesNext(players, k, uuid, amount);
    }
  }

  /** What one step does to the chips, exactly. In particular a settlement, with its pot
      paid out and the next ante taken, loses nothing. */
  lemma StepChips(t: Table, e: Event)
    requires Valid(t) && Possible(t, e)
    ensures Chips(Step(t, e)) == Chips(t) + BuyIn(t, e) + Drift(t, e)
  {
    hide WinnerSeat, DealFrom;
    match e
    case JoinMsg(uuid, balance) =>
      if |t.players| < MAX_PLAYERS {
        var seats := t.players + [Player(uuid, balance, [])];
        assert seats[..|t.players|] == t.players;
        BalancesDistributed(seats, t.cards);
      }
    case StartMsg => BalancesAnted(t.players);
    case BetMsg(uuid, balance, amount, deck) =>
      if Settles(t, e) {
        BalancesSettled(t.players, WinnerSeat(t.cards, |t.players|), t.pot);
      } else {
        BalancesReported(t.players, uuid, balance, amount);
      }
    case CheckMsg =>
  }

  function TotalBuyIn(t: Table, es: seq<Event>): int
    requires Valid(t) && PossibleRun(t, es)
    decreases |es|
  {
    if es == [] then 0 else BuyIn(t, es[0]) + TotalBuyIn(Step(t, es[0]), es[1..])
  }

  function TotalDrift(t: Table, es: seq<Event>): int
    requires Valid(t) && PossibleRun(t, es)
    decreases |es|
  {
    if es == [] then 0 else Drift(t, es[0]) + TotalDrift(Step(t, es[0]), es[1..])
  }

  /** The accounts of any run at all. */
  lemma {:induction false} RunChips(t: Table, es: seq<Event>)
    requires Valid(t) && PossibleRun(t, es)
    ensures Chips(Run(t, es)) == Chips(t) + TotalBuyIn(t, es) + TotalDrift(t, es)
    decreases |es|
  {
    if es != [] {
      StepChips(t, es[0]);
      RunChips(Step(t, es[0]), es[1..]);
    }
  }

  /** A step a fair game takes: a hand starts on an empty pot, and a bet comes out of the
      balance it reports. */
  predicate Honest(t: Table, e: Event) {
    match e
    case StartMsg => |t.players| > 1 ==> t.pot == 0
    case BetMsg(uuid, balance, amount, _) =>
      Settles(t, e) ||
      forall i :: 0 <= i < |t.players| && t.players[i].uuid == uuid ==> balance + amount == t.players[i].balance
    case _ => true
  }

  predicate DistinctIds(players: seq<Player>) {
    forall i, j :: 0 <= i < j < |players| ==> players[i].uuid != players[j].uuid
  }

  lemma {:induction false} GainNone(players: seq<Player>, uuid: string, balance: int, amount: int)
    requires forall i :: 0 <= i < |players| && players[i].uuid == uuid ==> balance + amount == players[i].balance
    ensures Gain(players, uuid, balance, amount) == 0
  {
    if players != [] {
      GainNone(players[..|players| - 1], uuid, balance, amount);
    }
  }

  lemma {:induction false} GainOne(players: seq<Player>, uuid: string, balance: int, amount: int, i: nat)
    requires i < |players| && players[i].uuid == uuid && DistinctIds(players)
    ensures Gain(players, uuid, balance, amount) == balance + amount - players[i].balance
  {
    var k := |players| - 1;
    if i == k {
      assert forall j :: 0 <= j < k ==> players[j].uuid != uuid;
      GainNone(players[..k], uuid, balance, amount);
    } else {
      GainOne(players[..k], uuid, balance, amount, i);
    }
  }

  /** With different uuids at the table, a step keeps all chips exactly when it is
      honest. */
  lemma ConservedIffHonest(t: Table, e: Event)
    requires Valid(t) && Possible(t, e) && DistinctIds(t.players)
    ensures Chips(Step(t, e)) == Chips(t) + BuyIn(t, e) <==> Honest(t, e)
  {
    StepChips(t, e);
    if e.BetMsg? && !Settles(t, e) {
      if i :| 0 <= i < |t.players| && t.players[i].uuid == e.uuid {
        GainOne(t.players, e.uuid, e.balance, e.amount, i);
        forall j | 0 <= j < |t.players| && t.players[j].uuid == e.uuid ensures j == i {
        }
      } else {
        GainNone(t.players, e.uuid, e.balance, e.amount);
      }
    }
  }

  /** A start in mid-hand: thirty chips in the pot are forgotten, and twenty of ante take
      their place. */
  lemma MidHandStartLosesPot()
    ensures IsShuffle(FullDeck())
    ensures var seats := [Player("a", 80, []), Player("b", 90, [])];
            var t := Table(seats, DealFrom(FullDeck()), 1, 30, 10, 1);
            && Valid(t) && Chips(t) == 200 && t.players == seats
            && Chips(Step(t, StartMsg)) == 170 && Step(t, StartMsg).pot == 20
  {
    hide IsShuffle;
    assert IsShuffle(FullDeck()) by { SelfShuffle(); }
    var seats := [Player("a", 80, []), Player("b", 90, [])];
    var t := Table(seats, DealFrom(FullDeck()), 1, 30, 10, 1);
    assert seats[..1] == [Player("a", 80, [])] && seats[..1][..0] == [];
    assert Balances(seats) == 170;
    StepChips(t, StartMsg);
  }

  predicate HonestRun(t: Table, es: seq<Event>)
    requires Valid(t) && PossibleRun(t, es)
    decreases |es|
  {
    es == [] || (Honest(t, es[0]) && HonestRun(Step(t, es[0]), es[1..]))
  }

  /** Chip conservation: over an honest run, across joins, bets, checks and any number
      of settlements, balances and pot add up to what was bought in. */
  lemma {:induction false} ChipsConserved(t: Table, es: seq<Event>)
    requires Valid(t) && PossibleRun(t, es) && HonestRun(t, es)
    ensures Chips(Run(t, es)) == Chips(t) + TotalBuyIn(t, es)
    decreases |es|
  {
    if es != [] {
      StepChips(t, es[0]);
      if es[0].BetMsg? && !Settles(t, es[0]) {
        GainNone(t.players, es[0].uuid, es[0].balance, es[0].amount);
      }
      ChipsConserved(Step(t, es[0]), es[1..]);
    }
  }

  /** What the client reports after its chip buttons added `pressed` to the bet: both the
      buttons and the bet itself take the chips from its balance. */
  function ClientBet(uuid: string, balance: int, minBet: int, pressed: nat, deck: seq<Card>): (e: Event)
    ensures e.BetMsg? && e.uuid == uuid && e.deck == deck
    ensures e.amount == minBet + pressed && balance - e.balance == minBet + 2 * pressed
  {
    var shown := balance - pressed;
    var amount := minBet + pressed;
    BetMsg(uuid, shown - amount, amount, deck)
  }

  /** So a client's plain bet is honest exactly when no chip button was used; otherwise
      the chips pressed vanish. */
  lemma ChipButtonsLoseChips(t: Table, i: nat, minBet: int, pressed: nat, deck: seq<Card>)
    requires Valid(t) && i < |t.players| && DistinctIds(t.players) && IsShuffle(deck)
    requires t.round + 1 != 3 * |t.players|
    ensures var e := ClientBet(t.players[i].uuid, t.players[i].balance, minBet, pressed, deck);
            Chips(Step(t, e)) == Chips(t) - pressed && (Honest(t, e) <==> pressed == 0)
  {
    var e := ClientBet(t.players[i].uuid, t.players[i].balance, minBet, pressed, deck);
    StepChips(t, e);
    GainOne(t.players, e.uuid, e.balance, e.amount, i);
    ConservedIffHonest(t, e);
  }

  // ------------------------------------------------------------------ settlements

  /** At a settlement the pot goes to a seat whose hand no other seat beats, the last
      such seat; every other balance only pays the ante, which is the next pot. */
  lemma SettlementPaysBest(t: Table, e: Event)
    requires Valid(t) && Possible(t, e) && Settles(t, e)
    ensures var w := WinnerSeat(t.cards, |t.players|);
            && w < |t.players|
            && (forall i :: 0 <= i < |t.players| ==> SeatValue(t.cards, i) <= SeatValue(t.cards, w))
            && (forall i :: w < i < |t.players| ==> SeatValue(t.cards, i) < SeatValue(t.cards, w))
            && (forall i :: 0 <= i < |t.players| ==>
                  Step(t, e).players[i].balance == t.players[i].balance - ANTE + if i == w then t.pot else 0)
            && Step(t, e).pot == ANTE * |t.players| && Step(t, e).minBet == ANTE && Step(t, e).round == 0
  {
    hide SeatValue;
    var v := Values(t.cards, |t.players|);
    assert LastBest(v, WinnerSeat(t.cards, |t.players|));
    assert forall i :: 0 <= i < |t.players| ==> v[i] == SeatValue(t.cards, i);
  }
}
