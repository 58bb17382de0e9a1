/** The poker table of the chat server: seats, balances, pot, turn and deal, and what
    the join, start, bet and check messages do to them.
  */
module PokerTable {
  import opened Cards
  import opened Modular
  import opened Winner

  const MAX_PLAYERS := 4
  const ANTE := 10

  /** `current_player`, without the name, which is only echoed. */
  datatype Player = Player(uuid: string, balance: int, hand: seq<Card>)

  /** The fields of `chat_room` and its dealer. `cards` are the 25 cards of the current
      deal, dealt out and ranked alike. */
  datatype Table = Table(players: seq<Player>, cards: seq<Card>, round: nat, pot: int, minBet: int, current: nat)

  /** `Hands()`: the first 25 cards of a shuffled deck. */
  function DealFrom(deck: seq<Card>): (cards: seq<Card>)
    requires IsShuffle(deck)
    ensures Dealt(cards)
    ensures |cards| == 25 < |deck| && forall i :: 0 <= i < 25 ==> cards[i] == deck[i]
  {
    ShuffleDistinct(deck);
    deck[..25]
  }

  predicate Valid(t: Table) {
    && |t.players| <= MAX_PLAYERS && Dealt(t.cards)
    && (if t.players == [] then t.current == 0 && t.round == 0
        else t.current < |t.players| && t.round < 3 * |t.players|)
  }

  /** An empty table; the turn and the pot are taken to start at zero, and the minimum
      bet, which is only read after it is set, at anything. */
  function NewTable(deck: seq<Card>, minBet: int): (t: Table)
    requires IsShuffle(deck)
    ensures Valid(t)
  {
    Table([], DealFrom(deck), 0, 0, minBet, 0)
  }

  /** `distribute`: five more cards for every seat, from the start of the deal. */
  function Distribute(players: seq<Player>, cards: seq<Card>): (r: seq<Player>)
    requires 5 * |players| <= |cards|
    ensures |r| == |players|
    ensures forall i :: 0 <= i < |r| ==> r[i] == players[i].(hand := players[i].hand + Block(cards, i))
  {
    seq(|players|, i requires 0 <= i < |players| => players[i].(hand := players[i].hand + Block(cards, i)))
  }

  function Join(t: Table, uuid: string, balance: int): (r: Table)
    requires Valid(t)
    ensures Valid(r)
  {
    if |t.players| < MAX_PLAYERS then
      t.(players := Distribute(t.players + [Player(uuid, balance, [])], t.cards))
    else t
  }

  /** The winner takes the pot and everyone pays the ante. */
  function Settled(players: seq<Player>, winner: nat, pot: int): (r: seq<Player>)
    ensures |r| == |players|
    ensures forall i :: 0 <= i < |r| ==>
              r[i] == players[i].(balance := players[i].balance + (if i == winner then pot else 0) - ANTE)
  {
    seq(|players|, i requires 0 <= i < |players| =>
          players[i].(balance := players[i].balance + (if i == winner then pot else 0) - ANTE))
  }

  /** Everyone pays the ante. */
  function Anted(players: seq<Player>): (r: seq<Player>)
    ensures |r| == |players|
    ensures forall i :: 0 <= i < |r| ==> r[i] == players[i].(balance := players[i].balance - ANTE)
  {
    seq(|players|, i requires 0 <= i < |players| => players[i].(balance := players[i].balance - ANTE))
  }

  function Start(t: Table): (r: Table)
    requires Valid(t)
    ensures Valid(r)
  {
    if |t.players| > 1 then t.(pot := |t.players| * ANTE, players := Anted(t.players)) else t
  }

  /** Seats whose uuid is the one in the message. */
  function Matches(players: seq<Player>, uuid: string): nat {
    if players == [] then 0
    else Matches(players[..|players| - 1], uuid) + (if players[|players| - 1].uuid == uuid then 1 else 0)
  }

  lemma MatchesNone(players: seq<Player>, uuid: string)
    ensures Matches(players[..0], uuid) == 0
  {
  }

  lemma MatchesNext(players: seq<Player>, i: nat, uuid: string, amount: int)
    requires i < |players|
    ensures Matches(players[..i + 1], uuid) == Matches(players[..i], uuid) + if players[i].uuid == uuid then 1 else 0
    ensures Matches(players[..i + 1], uuid) * amount
         == Matches(players[..i], uuid) * amount + if players[i].uuid == uuid then amount else 0
  {
    assert players[..i + 1][..i] == players[..i];
  }

  /** Those seats take the balance reported in the message. */
  function Reported(players: seq<Player>, uuid: string, balance: int): (r: seq<Player>)
    ensures |r| == |players|
    ensures forall i :: 0 <= i < |r| ==>
              r[i] == if players[i].uuid == uuid then players[i].(balance := balance) else players[i]
  {
    seq(|players|, i requires 0 <= i < |players| =>
          if players[i].uuid == uuid then players[i].(balance := balance) else players[i])
  }

  function NextIndex(current: nat, n: nat): (next: nat)
    requires current < n
    ensures next == (current + 1) % n
  {
    DivUnique(current + 1, n, if current == n - 1 then 1 else 0, if current == n - 1 then 0 else current + 1);
    if current == n - 1 then 0 else current + 1
  }

  /** A bet that is not the last of the hand. */
  function PlainBet(t: Table, uuid: string, balance: int, amount: int): (r: Table)
    requires Valid(t) && t.players != [] && t.round + 1 != 3 * |t.players|
    ensures Valid(r)
  {
    var k := Matches(t.players, uuid);
    Table(Reported(t.players, uuid, balance), t.cards, t.round + 1, t.pot + k * amount,
          if k > 0 then amount else t.minBet, NextIndex(t.current, |t.players|))
  }

  /** The last bet of the hand: its amount is ignored, the hand is settled and a new one
      is dealt; the turn stays where it is. */
  function Settlement(t: Table, cards: seq<Card>): (r: Table)
    requires Valid(t) && t.players != [] && Dealt(cards)
    ensures Valid(r)
  {
    var n := |t.players|;
    Table(Settled(t.players, WinnerSeat(t.cards, n), t.pot), cards, 0, n * ANTE, ANTE, t.current)
  }

  function Bet(t: Table, uuid: string, balance: int, amount: int, deck: seq<Card>): (r: Table)
    requires Valid(t) && t.players != [] && IsShuffle(deck)
    ensures Valid(r)
  {
    if t.round + 1 == 3 * |t.players| then Settlement(t, DealFrom(deck))
    else PlainBet(t, uuid, balance, amount)
  }

  function Check(t: Table): (r: Table)
    requires Valid(t) && t.players != []
    ensures Valid(r)
  {
    t.(current := NextIndex(t.current, |t.players|))
  }

  /** The room object. */
  class PokerRoom {
    var allPlayers: seq<Player>
    var cards: seq<Card>
    var round: nat
    var pot: int
    var minBet: int
    var current: nat

    ghost function State(): Table
      reads this
    {
      Table(allPlayers, cards, round, pot, minBet, current)
    }

    constructor (deck: seq<Card>, initialMinBet: int)
      requires IsShuffle(deck)
      ensures State() == NewTable(deck, initialMinBet)
    {
      ShuffleDistinct(deck);
      allPlayers, round, pot, minBet, current := [], 0, 0, initialMinBet, 0;
      cards := deck[..25];
    }

    /** `Hands()` and `new_deal`: 25 times, push the next card of the shuffled deck. */
    method NewDeal(deck: seq<Card>)
      requires IsShuffle(deck)
      modifies this`cards
      ensures cards == DealFrom(deck)
    {
      ShuffleDistinct(deck);
      cards := [];
      var i := 0;
      while i < 25
        invariant 0 <= i <= 25 && cards == deck[..i]
      {
        cards := cards + [deck[i]];
        i := i + 1;
      }
    }

    /** `distribute`: a counter runs through the deal while five cards go to each seat. */
    method DistributeCards()
      requires 5 * |allPlayers| <= |cards|
      modifies this`allPlayers
      ensures allPlayers == Distribute(old(allPlayers), cards)
    {
      var num, count := |allPlayers|, 0;
      var i := 0;
      while i < num
        invariant 0 <= i <= num == |allPlayers| == |old(allPlayers)| && count == 5 * i
        invariant forall k :: 0 <= k < i ==> allPlayers[k] == Distribute(old(allPlayers), cards)[k]
        invariant forall k :: i <= k < num ==> allPlayers[k] == old(allPlayers)[k]
      {
        ghost var was := allPlayers[i];
        ghost var others := allPlayers;
        var j := 0;
        assert was.hand + cards[5 * i..5 * i] == was.hand;
        while j < 5
          invariant 0 <= j <= 5 && count == 5 * i + j && |allPlayers| == num
          invariant allPlayers == others[i := was.(hand := was.hand + cards[5 * i..5 * i + j])]
        {
          assert was.hand + cards[5 * i..count + 1] == was.hand + cards[5 * i..count] + [cards[count]];
          allPlayers := allPlayers[i := allPlayers[i].(hand := allPlayers[i].hand + [cards[count]])];
          count := count + 1;
          j := j + 1;
        }
        i := i + 1;
      }
    }

    method JoinGame(uuid: string, balance: int)
      requires Valid(State())
      modifies this
      ensures State() == Join(old(State()), uuid, balance)
    {
      if |allPlayers| < MAX_PLAYERS {
        allPlayers := allPlayers + [Player(uuid, balance, [])];
        DistributeCards();
      }
    }

    /** The loop that takes the minimum from every balance. */
    method TakeAnte()
      modifies this`allPlayers
      ensures allPlayers == Anted(old(allPlayers))
    {
      var i := 0;
      while i < |allPlayers|
        invariant 0 <= i <= |allPlayers| == |old(allPlayers)|
        invariant forall k :: 0 <= k < i ==> allPlayers[k] == Anted(old(allPlayers))[k]
        invariant forall k :: i <= k < |allPlayers| ==> allPlayers[k] == old(allPlayers)[k]
      {
        allPlayers := allPlayers[i := allPlayers[i].(balance := allPlayers[i].balance - ANTE)];
        i := i + 1;
      }
    }

    method StartGame()
      requires Valid(State())
      modifies this
      ensures State() == Start(old(State()))
    {
      if |allPlayers| > 1 {
        pot := |allPlayers| * ANTE;
        TakeAnte();
      }
    }

    method NextPlayer()
      requires current < |allPlayers|
      modifies this`current
      ensures current == (old(current) + 1) % |allPlayers|
    {
      ghost var next := NextIndex(current, |allPlayers|);
      var total := |allPlayers|;
      if current == total - 1 {
        current := 0;
      } else {
        current := current + 1;
      }
    }

    method PlaceBet(uuid: string, balance: int, amount: int, deck: seq<Card>)
      requires Valid(State()) && allPlayers != [] && IsShuffle(deck)
      modifies this
      ensures State() == Bet(old(State()), uuid, balance, amount, deck)
    {
      hide Dealt, IsShuffle;
      round := round + 1;
      var numPlay := |allPlayers|;
      if round == 3 * numPlay {
        Settle(deck);
      } else {
        UpdateBalances(uuid, balance, amount);
        NextPlayer();
      }
    }

    /** The branch for the last bet of a hand. */
    method Settle(deck: seq<Card>)
      requires 1 <= |allPlayers| <= MAX_PLAYERS && Dealt(cards) && IsShuffle(deck)
      modifies this
      ensures allPlayers == Settled(old(allPlayers), old(WinnerSeat(cards, |allPlayers|)), old(pot))
      ensures cards == DealFrom(deck) && round == 0 && current == old(current)
      ensures pot == |allPlayers| * ANTE && minBet == ANTE
    {
      hide WinnerSeat, Dealt, IsShuffle;
      var numPlay := |allPlayers|;
      var winner := DetermineWinner(cards, numPlay);
      round := 0;
      ghost var seats := allPlayers;
      allPlayers := allPlayers[winner - 1 := allPlayers[winner - 1].(balance := allPlayers[winner - 1].balance + pot)];
      minBet := 10;
      pot := 0;
      NewDeal(deck);
      pot := numPlay * ANTE;
      TakeAnte();
      assert allPlayers == Settled(seats, winner - 1, old(pot));
    }

    /** The loop of a plain bet over all seats. */
    method UpdateBalances(uuid: string, balance: int, amount: int)
      modifies this`allPlayers, this`pot, this`minBet
      ensures allPlayers == Reported(old(allPlayers), uuid, balance)
      ensures pot == old(pot) + Matches(old(allPlayers), uuid) * amount
      ensures minBet == if Matches(old(allPlayers), uuid) > 0 then amount else old(minBet)
    {
      hide Matches;
      ghost var seats := allPlayers;
      MatchesNone(seats, uuid);
      var i := 0;
      while i < |allPlayers|
        invariant 0 <= i <= |allPlayers| == |seats|
        invariant forall k :: 0 <= k < i ==> allPlayers[k] == Reported(seats, uuid, balance)[k]
        invariant forall k :: i <= k < |seats| ==> allPlayers[k] == seats[k]
        invariant pot == old(pot) + Matches(seats[..i], uuid) * amount
        invariant minBet == if Matches(seats[..i], uuid) > 0 then amount else old(minBet)
      {
        MatchesNext(seats, i, uuid, amount);
        if allPlayers[i].uuid == uuid {
          allPlayers := allPlayers[i := allPlayers[i].(balance := balance)];
          pot := pot + amount;
          minBet := amount;
        }
        i := i + 1;
      }
      assert seats[..i] == seats;
    }

    method CheckTurn()
      requires Valid(State()) && allPlayers != []
      modifies this
      ensures State() == Check(old(State()))
    {
      NextPlayer();
    }
  }
}
