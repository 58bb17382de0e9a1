/** `chat_room`: sessions join and leave, and every message is broadcast to the
    sessions present. Each handler is atomic, since one thread runs them all.
  */
module ChatRoom {
  import opened WriteQueue

  const MAX_RECENT := 100

  /** A session's link, and the part of the message history it has been given: from
      its join up to its departure, or up to now while it is a member. */
  datatype Session = Session(link: Link, joinedAt: nat, leftAt: nat, present: bool)

  /** `history` is every message the room was asked to deliver; `recent` is
      `recent_msgs_`; `sessions` are all the sessions there have been, by identity. */
  datatype Room<Id(==)> =
    Room(history: seq<Message>, recent: seq<Message>, members: set<Id>, sessions: map<Id, Session>)

  datatype Event<Id> =
    | Join(id: Id)
    | Leave(id: Id)
    | Deliver(m: Message)
    | WriteCompletes(id: Id, ok: bool)

  /** `join` happens once for a new session; the others concern sessions there are. */
  predicate Possible<Id>(r: Room<Id>, e: Event<Id>) {
    match e
    case Join(id) => id !in r.sessions
    case Leave(id) => id in r.sessions
    case Deliver(_) => true
    case WriteCompletes(id, ok) =>
      id in r.sessions && r.sessions[id].link.writing != [] && r.sessions[id].link.queue != []
  }

  /** The loop that drops messages from the front beyond a hundred. */
  function Trim(recent: seq<Message>): seq<Message>
    decreases |recent|
  {
    if |recent| > MAX_RECENT then Trim(recent[1..]) else recent
  }

  /** `leave`, which is harmless for a session that has left already. */
  function Departed(s: Session, now: nat): Session {
    if s.present then s.(present := false, leftAt := now) else s
  }

  function RoomStep<Id>(r: Room<Id>, e: Event<Id>): Room<Id>
    requires Possible(r, e)
  {
    match e
    case Join(id) =>
      r.(members := r.members + {id},
         sessions := r.sessions[id := Session(IDLE, |r.history|, |r.history|, true)])
    case Leave(id) =>
      r.(members := r.members - {id},
         sessions := r.sessions[id := Departed(r.sessions[id], |r.history|)])
    case Deliver(m) =>
      r.(history := r.history + [m], recent := Trim(r.recent + [m]),
         sessions := map id | id in r.sessions ::
           if id in r.members then r.sessions[id].(link := Push(r.sessions[id].link, m)) else r.sessions[id])
    case WriteCompletes(id, ok) =>
      var s := r.sessions[id].(link := Completed(r.sessions[id].link, ok));
      if ok then r.(sessions := r.sessions[id := s])
      else r.(members := r.members - {id}, sessions := r.sessions[id := Departed(s, |r.history|)])
  }

  /** Where a session's share of the history ends. */
  function End(s: Session, now: nat): nat {
    if s.present then now else s.leftAt
  }

  /** What the room promises about one session: its link is orderly, and what it has
      sent plus what it still queues is a contiguous segment of the history that starts
      at its join. */
  predicate Served(s: Session, history: seq<Message>) {
    && Orderly(s.link)
    && s.joinedAt <= End(s, |history|) <= |history|
    && (s.present ==> !s.link.failed)
    && s.link.sent + s.link.queue == history[s.joinedAt..End(s, |history|)]
  }

  function LastUpTo(history: seq<Message>, n: nat): seq<Message> {
    if |history| <= n then history else history[|history| - n..]
  }

  predicate Invariant<Id>(r: Room<Id>) {
    && r.members == (set id | id in r.sessions && r.sessions[id].present)
    && (forall id | id in r.sessions :: Served(r.sessions[id], r.history))
    && r.recent == LastUpTo(r.history, 100)
  }

  function Empty<Id>(): Room<Id> { Room([], [], {}, map[]) }

  lemma ServedDelivers(s: Session, history: seq<Message>, m: Message)
    requires Served(s, history)
    ensures s.present ==> Served(s.(link := Push(s.link, m)), history + [m])
    ensures !s.present ==> Served(s, history + [m])
  {
    if s.present {
      PushOrderly(s.link, m);
      assert (history + [m])[s.joinedAt..|history| + 1] == history[s.joinedAt..|history|] + [m];
    } else {
      assert (history + [m])[s.joinedAt..s.leftAt] == history[s.joinedAt..s.leftAt];
    }
  }

  lemma ServedCompletes(s: Session, history: seq<Message>, ok: bool)
    requires Served(s, history) && s.link.writing != []
    ensures var t := s.(link := Completed(s.link, ok));
            Served(if ok then t else Departed(t, |history|), history)
  {
    CompletedOrderly(s.link, ok);
  }

  lemma RecentDelivers(history: seq<Message>, m: Message)
    ensures Trim(LastUpTo(history, 100) + [m]) == LastUpTo(history + [m], 100)
  {
    var next := LastUpTo(history, 100) + [m];
    if |next| > 100 {
      assert Trim(next) == Trim(next[1..]) == next[1..];
    }
  }

  lemma StepKeeps<Id>(r: Room<Id>, e: Event<Id>)
    requires Invariant(r) && Possible(r, e)
    ensures Invariant(RoomStep(r, e))
  {
    hide Served, Trim, LastUpTo;
    match e
    case Join(id) => NewServed(r.history);
    case Leave(id) => LeaveServed(r.sessions[id], r.history);
    case Deliver(m) =>
      RecentDelivers(r.history, m);
      forall id | id in r.sessions
        ensures Served(RoomStep(r, e).sessions[id], RoomStep(r, e).history)
      {
        ServedDelivers(r.sessions[id], r.history, m);
      }
    case WriteCompletes(id, ok) => ServedCompletes(r.sessions[id], r.history, ok);
  }

  lemma NewServed(history: seq<Message>)
    ensures Served(Session(IDLE, |history|, |history|, true), history)
  {
  }

  lemma LeaveServed(s: Session, history: seq<Message>)
    requires Served(s, history)
    ensures Served(Departed(s, |history|), history)
  {
  }

  predicate PossibleRun<Id>(r: Room<Id>, es: seq<Event<Id>>)
    decreases |es|
  {
    es == [] || (Possible(r, es[0]) && PossibleRun(RoomStep(r, es[0]), es[1..]))
  }

  function Run<Id>(r: Room<Id>, es: seq<Event<Id>>): Room<Id>
    requires PossibleRun(r, es)
    decreases |es|
  {
    if es == [] then r else Run(RoomStep(r, es[0]), es[1..])
  }

  /** Every run of joins, departures, broadcasts, completions and errors keeps the
      invariant. */
  lemma {:induction false} EveryRun<Id>(r: Room<Id>, es: seq<Event<Id>>)
    requires Invariant(r) && PossibleRun(r, es)
    ensures Invariant(Run(r, es))
    decreases |es|
  {
    if es != [] {
      StepKeeps(r, es[0]);
      EveryRun(RoomStep(r, es[0]), es[1..]);
    }
  }

  /** What a session has been given: sent, then still queued. */
  function Given(s: Session): seq<Message> { s.link.sent + s.link.queue }

  /** Broadcast is totally ordered. After any run, any stretch of the history that two
      sessions were both present for appears contiguously, in the same order, in what
      each was given. */
  lemma TotalOrder<Id>(es: seq<Event<Id>>, a: Id, b: Id, lo: nat, hi: nat)
    requires PossibleRun(Empty<Id>(), es)
    requires a in Run(Empty<Id>(), es).sessions && b in Run(Empty<Id>(), es).sessions
    requires var r := Run(Empty<Id>(), es);
             && r.sessions[a].joinedAt <= lo <= hi <= End(r.sessions[a], |r.history|)
             && r.sessions[b].joinedAt <= lo <= hi <= End(r.sessions[b], |r.history|)
    ensures var r := Run(Empty<Id>(), es);
            var (s, t) := (r.sessions[a], r.sessions[b]);
            && hi <= |r.history|
            && |Given(s)| == End(s, |r.history|) - s.joinedAt
            && |Given(t)| == End(t, |r.history|) - t.joinedAt
            && Given(s)[lo - s.joinedAt..hi - s.joinedAt] == r.history[lo..hi]
            && Given(t)[lo - t.joinedAt..hi - t.joinedAt] == r.history[lo..hi]
  {
    hide Run, RoomStep, PossibleRun, Served, Given;
    EmptyInvariant<Id>();
    EveryRun(Empty<Id>(), es);
    var r := Run(Empty<Id>(), es);
    SegmentOf(r.sessions[a], r.history, lo, hi);
    SegmentOf(r.sessions[b], r.history, lo, hi);
  }

  lemma EmptyInvariant<Id>()
    ensures Invariant(Empty<Id>())
  {
  }

  lemma SliceOfSlice(h: seq<Message>, from: nat, to: nat, lo: nat, hi: nat)
    requires from <= lo <= hi <= to <= |h|
    ensures h[from..to][lo - from..hi - from] == h[lo..hi]
  {
    forall k | 0 <= k < hi - lo ensures h[from..to][lo - from..hi - from][k] == h[lo..hi][k] {
      assert h[from..to][lo - from + k] == h[lo + k];
    }
  }

  lemma SegmentOf(s: Session, history: seq<Message>, lo: nat, hi: nat)
    requires Served(s, history)
    requires s.joinedAt <= lo <= hi <= End(s, |history|)
    ensures hi <= |history| && |Given(s)| == End(s, |history|) - s.joinedAt
    ensures Given(s)[lo - s.joinedAt..hi - s.joinedAt] == history[lo..hi]
  {
    SliceOfSlice(history, s.joinedAt, End(s, |history|), lo, hi);
  }

  // ------------------------------------------------- what joining and leaving mean

  /** The messages broadcast in a run, in order. */
  function Delivered<Id>(es: seq<Event<Id>>): seq<Message> {
    if es == [] then []
    else (if es[0].Deliver? then [es[0].m] else []) + Delivered(es[1..])
  }

  /** The history is everything broadcast, and nothing else. */
  lemma {:induction false} HistoryGrows<Id>(r: Room<Id>, es: seq<Event<Id>>)
    requires PossibleRun(r, es)
    ensures Run(r, es).history == r.history + Delivered(es)
    decreases |es|
  {
    if es == [] {
      assert r.history + [] == r.history;
    } else {
      HistoryGrows(RoomStep(r, es[0]), es[1..]);
      if es[0].Deliver? {
        assert r.history + ([es[0].m] + Delivered(es[1..])) == (r.history + [es[0].m]) + Delivered(es[1..]);
      } else {
        assert Delivered(es) == Delivered(es[1..]);
      }
    }
  }

  /** The run takes the session out of the room at no point. */
  predicate KeepsIn<Id(==)>(es: seq<Event<Id>>, id: Id) {
    forall i :: 0 <= i < |es| ==> es[i] != Leave(id) && es[i] != WriteCompletes(id, false)
  }

  lemma {:induction false} StaysMember<Id>(r: Room<Id>, es: seq<Event<Id>>, id: Id)
    requires Invariant(r) && PossibleRun(r, es) && KeepsIn(es, id) && id in r.members
    ensures Invariant(Run(r, es)) && id in Run(r, es).members
    ensures Run(r, es).sessions[id].present && Run(r, es).sessions[id].joinedAt == r.sessions[id].joinedAt
    decreases |es|
  {
    hide Served, LastUpTo, Trim, Push, Completed;
    if es != [] {
      var u := RoomStep(r, es[0]);
      StepKeeps(r, es[0]);
      assert id in u.members && u.sessions[id].joinedAt == r.sessions[id].joinedAt;
      StaysMember(u, es[1..], id);
    }
  }

  /** A session that joins is a member from then on, and what it has been given, sent or
      queued, is exactly what has been broadcast since, until it leaves or fails. */
  lemma JoinerIsServed<Id>(r: Room<Id>, id: Id, es: seq<Event<Id>>)
    requires Invariant(r) && Possible(r, Join(id))
    requires PossibleRun(RoomStep(r, Join(id)), es) && KeepsIn(es, id)
    ensures var u := Run(RoomStep(r, Join(id)), es);
            && id in u.members && id in u.sessions && u.sessions[id].present
            && u.history == r.history + Delivered(es)
            && Given(u.sessions[id]) == Delivered(es)
  {
    hide Run, PossibleRun, LastUpTo;
    var j := RoomStep(r, Join(id));
    StepKeeps(r, Join(id));
    assert id in j.members && j.sessions[id].joinedAt == |j.history|;
    StaysMember(j, es, id);
    HistoryGrows(j, es);
    var u := Run(j, es);
    SegmentOf(u.sessions[id], u.history, |r.history|, |u.history|);
    assert Given(u.sessions[id]) == u.history[|r.history|..];
  }

  /** In particular the first message after a join is at once being written to it. */
  lemma JoinThenDeliver<Id>(r: Room<Id>, id: Id, m: Message)
    requires Possible(r, Join(id))
    ensures var u := RoomStep(RoomStep(r, Join(id)), Deliver(m));
            && id in u.members && id in u.sessions
            && u.sessions[id].link.sent + u.sessions[id].link.queue == [m]
            && u.sessions[id].link.writing == [m]
  {
  }

  /** A departure, or a failed write, takes out that session and no other. */
  lemma LeaverIsOut<Id>(r: Room<Id>, id: Id, e: Event<Id>)
    requires Invariant(r) && Possible(r, e) && (e == Leave(id) || e == WriteCompletes(id, false))
    ensures RoomStep(r, e).members == r.members - {id} && id in RoomStep(r, e).sessions
    ensures Given(RoomStep(r, e).sessions[id]) == Given(r.sessions[id])
    ensures RoomStep(r, e).history == r.history && RoomStep(r, e).recent == r.recent
    ensures forall other | other in r.sessions && other != id ::
              other in RoomStep(r, e).sessions && RoomStep(r, e).sessions[other] == r.sessions[other]
  {
  }

  /** And for good: it is given nothing more in any run. */
  lemma {:induction false} LeaverStaysOut<Id>(r: Room<Id>, es: seq<Event<Id>>, id: Id)
    requires Invariant(r) && PossibleRun(r, es) && id in r.sessions && id !in r.members
    ensures id in Run(r, es).sessions && id !in Run(r, es).members
    ensures Given(Run(r, es).sessions[id]) == Given(r.sessions[id])
    decreases |es|
  {
    hide LastUpTo, Trim;
    if es != [] {
      var u := RoomStep(r, es[0]);
      StepKeeps(r, es[0]);
      assert id in u.sessions && id !in u.members;
      OutsiderKeeps(r, es[0], id);
      LeaverStaysOut(u, es[1..], id);
    }
  }

  lemma OutsiderKeeps<Id>(r: Room<Id>, e: Event<Id>, id: Id)
    requires Invariant(r) && Possible(r, e) && id in r.sessions && id !in r.members
    ensures id in RoomStep(r, e).sessions && Given(RoomStep(r, e).sessions[id]) == Given(r.sessions[id])
  {
    hide LastUpTo, Trim, Push;
    if e.WriteCompletes? && e.id == id {
      CompletedOrderly(r.sessions[id].link, e.ok);
    }
  }

  /** A successful completion moves the front of that session's queue to what it has sent
      and starts the next write; nothing else in the room changes. */
  lemma CompletionSends<Id>(r: Room<Id>, id: Id)
    requires Invariant(r) && Possible(r, WriteCompletes(id, true))
    ensures var u := RoomStep(r, WriteCompletes(id, true));
            var (was, now) := (r.sessions[id].link, u.sessions[id].link);
            && now.sent == was.sent + [was.queue[0]] && now.queue == was.queue[1..]
            && now.writing == (if |was.queue| == 1 then [] else [was.queue[1]])
            && u == r.(sessions := r.sessions[id := r.sessions[id].(link := now)])
  {
    CompletedOrderly(r.sessions[id].link, true);
  }

  // ------------------------------------------------------------------ the object

  /** The room. Members are the connections of the sessions present; the ghost fields
      record the history and what is known of every session there has been. */
  class ChatRoom {
    var players: set<Connection>
    var recentMsgs: seq<Message>
    ghost var history: seq<Message>
    ghost var seen: map<Connection, (nat, nat)>

    ghost function State(): Room<Connection>
      reads this, seen.Keys
    {
      Room(history, recentMsgs, players,
           map p | p in seen :: Session(p.State(), seen[p].0, seen[p].1, p in players))
    }

    constructor ()
      ensures State() == Empty()
    {
      players, recentMsgs, history, seen := {}, [], [], map[];
    }

    method JoinRoom(p: Connection)
      requires Invariant(State()) && p !in seen && p.State() == IDLE
      modifies this
      ensures State() == RoomStep(old(State()), Join(p))
      ensures Invariant(State())
    {
      hide Invariant;
      StepKeeps(State(), Join(p));
      players := players + {p};
      seen := seen[p := (|history|, |history|)];
    }

    /** `leave`, called from the error paths of the read and write handlers. */
    method LeaveRoom(p: Connection)
      requires p in seen
      modifies this
      ensures State() == RoomStep(old(State()), Leave(p))
    {
      if p in players {
        seen := seen[p := (seen[p].0, |history|)];
      }
      players := players - {p};
    }

    /** A session's read handlers: on an error or a bad header the session leaves. */
    method OnReadError(p: Connection)
      requires Invariant(State()) && p in seen
      modifies this
      ensures State() == RoomStep(old(State()), Leave(p))
      ensures Invariant(State())
    {
      hide Invariant;
      StepKeeps(State(), Leave(p));
      LeaveRoom(p);
    }

    /** The part of `deliver` that keeps the last hundred messages. */
    method Remember(msg: Message)
      modifies this`recentMsgs
      ensures recentMsgs == Trim(old(recentMsgs) + [msg])
    {
      recentMsgs := recentMsgs + [msg];
      while |recentMsgs| > MAX_RECENT
        invariant Trim(recentMsgs) == Trim(old(recentMsgs) + [msg])
        decreases |recentMsgs|
      {
        recentMsgs := recentMsgs[1..];
      }
    }

    /** The part of `deliver` that hands the message to every participant. */
    method Broadcast(msg: Message)
      modifies players
      ensures forall p <- players :: p.State() == Push(old(p.State()), msg)
    {
      hide Push;
      var todo := players;
      while todo != {}
        invariant todo <= players
        invariant forall p <- players :: p.State() == if p in todo then old(p.State()) else Push(old(p.State()), msg)
        decreases |todo|
      {
        var p :| p in todo;
        p.Deliver(msg);
        todo := todo - {p};
      }
    }

    method DeliverAll(msg: Message)
      requires Invariant(State())
      modifies this, players
      ensures State() == RoomStep(old(State()), Deliver(msg))
      ensures Invariant(State())
    {
      hide Push, Trim, Invariant;
      StepKeeps(State(), Deliver(msg));
      Remember(msg);
      history := history + [msg];
      Broadcast(msg);
    }

    /** A session's write handler: on an error the session leaves. */
    method OnWriteCompleted(p: Connection, ok: bool)
      requires Invariant(State()) && p in seen && p.writing != [] && p.writeMsgs != []
      modifies this, p
      ensures State() == RoomStep(old(State()), WriteCompletes(p, ok))
      ensures Invariant(State())
    {
      hide Invariant, Completed;
      StepKeeps(State(), WriteCompletes(p, ok));
      p.WriteCompleted(ok);
      if !ok {
        LeaveRoom(p);
      }
    }
  }
}
