/** Whose turn it is: runs of bets, checks and starts at a table with a fixed number of seats. */
module TableTurns {
  import opened Modular
  import opened PokerTable
  import opened TableRuns

  predicate Bets(es: seq<Event>) {
    forall i :: 0 <= i < |es| ==> es[i].BetMsg?
  }

  /** Stepping the index and adding is adding one more, modulo the number of seats. */
  lemma NextMod(c: nat, n: nat, k: int)
    requires c < n
    ensures (NextIndex(c, n) + k) % n == (c + 1 + k) % n
    ensures c % n == c
  {
    DivUnique(c, n, 0, c);
    if c == n - 1 {
      ModAdd(k, n);
    }
  }

  /** What one bet does to the turn. */
  lemma BetMoves(t: Table, e: Event)
    requires Valid(t) && Possible(t, e) && e.BetMsg?
    ensures var u := Step(t, e);
            && |u.players| == |t.players|
            && if Settles(t, e) then u.round == 0 && u.current == t.current
               else u.round == t.round + 1 && u.current == NextIndex(t.current, |t.players|)
  {
  }

  /** Messages that leave the seats as they are. */
  predicate NoJoins(es: seq<Event>) {
    forall i :: 0 <= i < |es| ==> !es[i].JoinMsg?
  }

  function BetCount(es: seq<Event>): nat {
    if es == [] then 0 else (if es[0].BetMsg? then 1 else 0) + BetCount(es[1..])
  }

  function CheckCount(es: seq<Event>): nat {
    if es == [] then 0 else (if es[0].CheckMsg? then 1 else 0) + CheckCount(es[1..])
  }

  /** What one check or start does to it. */
  lemma OthersMove(t: Table, e: Event)
    requires Valid(t) && Possible(t, e) && t.players != [] && (e.CheckMsg? || e.StartMsg?)
    ensures var u := Step(t, e);
            && |u.players| == |t.players| && u.round == t.round
            && u.current == if e.CheckMsg? then NextIndex(t.current, |t.players|) else t.current
  {
  }

  /** After any bets, checks and starts in any order: the bets since the last settlement
      are counted modulo 3n, and the turn has moved once for each bet and each check, less
      one at each settlement. Checks never bring a settlement closer. */
  lemma {:induction false} AfterMoves(t: Table, es: seq<Event>)
    requires Valid(t) && t.players != [] && NoJoins(es) && PossibleRun(t, es)
    ensures var n := |t.players|;
            var bets := t.round + BetCount(es);
            var r := Run(t, es);
            && |r.players| == n
            && r.round == bets % (3 * n)
            && r.current == (t.current + BetCount(es) + CheckCount(es) - bets / (3 * n)) % n
    decreases |es|
  {
    hide Step;
    var n := |t.players|;
    if es == [] {
      DivUnique(t.round, 3 * n, 0, t.round);
      NextMod(t.current, n, 0);
    } else {
      var rest := es[1..];
      var bets := t.round + BetCount(es);
      if es[0].BetMsg? {
        BetMoves(t, es[0]);
        AfterMoves(Step(t, es[0]), rest);
        if Settles(t, es[0]) {
          ModAdd(BetCount(rest), 3 * n);
        } else {
          NextMod(t.current, n, BetCount(rest) + CheckCount(rest) - bets / (3 * n));
        }
      } else {
        OthersMove(t, es[0]);
        AfterMoves(Step(t, es[0]), rest);
        NextMod(t.current, n, BetCount(rest) + CheckCount(rest) - bets / (3 * n));
      }
    }
  }

  lemma {:induction false} OnlyBets(es: seq<Event>)
    requires Bets(es)
    ensures NoJoins(es) && BetCount(es) == |es| && CheckCount(es) == 0
  {
    if es != [] {
      OnlyBets(es[1..]);
    }
  }

  /** After any number of bets. */
  lemma AfterBets(t: Table, es: seq<Event>)
    requires Valid(t) && t.players != [] && Bets(es) && PossibleRun(t, es)
    ensures var n := |t.players|;
            var total := t.round + |es|;
            var r := Run(t, es);
            && |r.players| == n
            && r.round == total % (3 * n)
            && r.current == (t.current + |es| - total / (3 * n)) % n
  {
    hide Run, PossibleRun, Bets, NoJoins, BetCount, CheckCount, Step;
    OnlyBets(es);
    AfterMoves(t, es);
  }

  lemma HandsMod(c: nat, n: nat, h: nat)
    requires c < n
    ensures (3 * n * h) % (3 * n) == 0 && (3 * n * h) / (3 * n) == h
    ensures (c + 3 * n * h - h) % n == (c - h) % n
  {
    DivUnique(3 * n * h, 3 * n, h, 0);
    var q, r := (c - h) / n, (c - h) % n;
    assert c - h == n * q + r;
    assert n * (q + 3 * h) == n * q + 3 * n * h;
    DivUnique(c + 3 * n * h - h, n, q + 3 * h, r);
  }

  /** A hand is exactly 3n bets, and after `h` hands the opening seat is `h` seats
      earlier than at the start. */
  lemma OpeningSeat(t: Table, es: seq<Event>, h: nat)
    requires Valid(t) && t.players != [] && t.round == 0 && Bets(es) && PossibleRun(t, es)
    requires |es| == 3 * |t.players| * h
    ensures Run(t, es).round == 0
    ensures Run(t, es).current == (t.current - h) % |t.players|
  {
    hide Run, PossibleRun, Bets;
    AfterBets(t, es);
    HandsMod(t.current, |t.players|, h);
    assert t.current + |es| - h == t.current + 3 * |t.players| * h - h;
  }

  /** In how many of the steps of a run a seat is current when the message arrives. */
  function TimesCurrent(t: Table, es: seq<Event>, seat: nat): nat
    requires Valid(t) && PossibleRun(t, es)
    decreases |es|
  {
    if es == [] then 0
    else (if t.current == seat then 1 else 0) + TimesCurrent(Step(t, es[0]), es[1..], seat)
  }

  /** The same for an index going round. */
  function Visits(c: nat, n: nat, k: nat, seat: nat): nat
    requires c < n
    decreases k
  {
    if k == 0 then 0 else (if c == seat then 1 else 0) + Visits(NextIndex(c, n), n, k - 1, seat)
  }

  /** Going round visits every seat once in every n steps. */
  lemma {:induction false} VisitsCounted(c: nat, n: nat, k: nat, seat: nat)
    requires c < n && seat < n
    ensures Visits(c, n, k, seat) == k / n + if (seat - c) % n < k % n then 1 else 0
    decreases k
  {
    if k > 0 {
      VisitsCounted(NextIndex(c, n), n, k - 1, seat);
      VisitsStep(c, n, k, seat);
    }
  }

  lemma VisitsStep(c: nat, n: nat, k: nat, seat: nat)
    requires c < n && seat < n && k > 0
    ensures k / n + (if (seat - c) % n < k % n then 1 else 0)
         == (if c == seat then 1 else 0) + (k - 1) / n + if (seat - NextIndex(c, n)) % n < (k - 1) % n then 1 else 0
  {
    CountUp(k, n);
    Difference(seat, c, n);
    Difference(seat, NextIndex(c, n), n);
    assert (k - 1) % n < n;
  }

  lemma {:induction false} CurrentGoesRound(t: Table, es: seq<Event>, seat: nat)
    requires Valid(t) && t.players != [] && Bets(es) && PossibleRun(t, es)
    requires t.round + |es| <= 3 * |t.players|
    ensures TimesCurrent(t, es, seat) == Visits(t.current, |t.players|, |es|, seat)
    decreases |es|
  {
    hide Step;
    if es != [] {
      BetMoves(t, es[0]);
      if Settles(t, es[0]) {
        assert es[1..] == [];
      } else {
        CurrentGoesRound(Step(t, es[0]), es[1..], seat);
      }
    }
  }

  /** Within one hand every seat is current for exactly three bets. */
  lemma ThreeTurnsEach(t: Table, es: seq<Event>, seat: nat)
    requires Valid(t) && seat < |t.players| && t.round == 0 && Bets(es) && PossibleRun(t, es)
    requires |es| == 3 * |t.players|
    ensures TimesCurrent(t, es, seat) == 3
  {
    CurrentGoesRound(t, es, seat);
    VisitsCounted(t.current, |t.players|, |es|, seat);
    DivUnique(3 * |t.players|, |t.players|, 3, 0);
    Difference(seat, t.current, |t.players|);
  }
}
