/** The write queue of one connection, the same in server sessions and in the client:
    messages wait in a deque and are written one at a time.
  */
module WriteQueue {
  import opened Buffers

  /** The bytes of an encoded message. */
  type Message = seq<byte>

  /** `queue` is the deque; `writing` lists the messages of the `async_write` calls
      started and not yet completed; `sent` lists the messages written completely. */
  datatype Link = Link(queue: seq<Message>, writing: seq<Message>, sent: seq<Message>, failed: bool)

  const IDLE := Link([], [], [], false)

  /** `do_write`: start writing the front of the queue. */
  function StartWrite(l: Link): Link
    requires l.queue != []
  {
    l.(writing := l.writing + [l.queue[0]])
  }

  /** `deliver` (server) and the handler posted by `write` (client). */
  function Push(l: Link, m: Message): Link {
    var pushed := l.(queue := l.queue + [m]);
    if l.queue == [] then StartWrite(pushed) else pushed
  }

  /** The completion handler of a write. */
  function Completed(l: Link, ok: bool): Link
    requires l.writing != [] && l.queue != []
  {
    if ok then
      var popped := Link(l.queue[1..], l.writing[1..], l.sent + [l.writing[0]], l.failed);
      if popped.queue != [] then StartWrite(popped) else popped
    else l.(writing := l.writing[1..], failed := true)
  }

  /** At most one write is outstanding and it is for the front of the queue; until an
      error one is outstanding exactly when the queue is not empty; after an error
      none ever is, and the message that failed stays at the front. */
  predicate Orderly(l: Link) {
    if l.failed then l.writing == [] && l.queue != []
    else l.writing == if l.queue == [] then [] else [l.queue[0]]
  }

  lemma PushOrderly(l: Link, m: Message)
    requires Orderly(l)
    ensures Orderly(Push(l, m)) && Push(l, m).sent == l.sent && Push(l, m).failed == l.failed
    ensures Push(l, m).sent + Push(l, m).queue == l.sent + l.queue + [m]
  {
  }

  lemma CompletedOrderly(l: Link, ok: bool)
    requires Orderly(l) && l.writing != []
    ensures Orderly(Completed(l, ok))
    ensures Completed(l, ok).sent + Completed(l, ok).queue == l.sent + l.queue
    ensures Completed(l, ok).failed == !ok
    ensures Completed(l, ok).sent == if ok then l.sent + [l.queue[0]] else l.sent
  {
  }

  datatype Event = Submit(m: Message) | WriteDone | WriteError

  /** A completion can only arrive while a write is outstanding. */
  predicate Possible(l: Link, e: Event) {
    e.Submit? || (l.writing != [] && l.queue != [])
  }

  function Step(l: Link, e: Event): Link
    requires Possible(l, e)
  {
    match e
    case Submit(m) => Push(l, m)
    case WriteDone => Completed(l, true)
    case WriteError => Completed(l, false)
  }

  predicate PossibleRun(l: Link, es: seq<Event>)
    decreases |es|
  {
    es == [] || (Possible(l, es[0]) && PossibleRun(Step(l, es[0]), es[1..]))
  }

  function Run(l: Link, es: seq<Event>): Link
    requires PossibleRun(l, es)
    decreases |es|
  {
    if es == [] then l else Run(Step(l, es[0]), es[1..])
  }

  function Submitted(es: seq<Event>): seq<Message> {
    if es == [] then []
    else (if es[0].Submit? then [es[0].m] else []) + Submitted(es[1..])
  }

  /** In every run: the discipline holds, and messages sent plus messages queued are
      the messages submitted, in order. */
  lemma {:induction false} EveryRun(l: Link, es: seq<Event>)
    requires Orderly(l) && PossibleRun(l, es)
    ensures Orderly(Run(l, es))
    ensures Run(l, es).sent + Run(l, es).queue == l.sent + l.queue + Submitted(es)
    decreases |es|
  {
    if es != [] {
      var e := es[0];
      if e.Submit? {
        PushOrderly(l, e.m);
        assert l.sent + l.queue + ([e.m] + Submitted(es[1..])) == l.sent + l.queue + [e.m] + Submitted(es[1..]);
      } else {
        CompletedOrderly(l, e.WriteDone?);
        assert Submitted(es) == Submitted(es[1..]);
      }
      EveryRun(Step(l, e), es[1..]);
    }
  }

  /** After a write error nothing more is ever sent, however much is submitted. */
  lemma {:induction false} SilentAfterError(l: Link, es: seq<Event>)
    requires Orderly(l) && l.failed && PossibleRun(l, es)
    ensures Run(l, es).failed && Run(l, es).sent == l.sent && Run(l, es).writing == []
    ensures forall i :: 0 <= i < |es| ==> es[i].Submit?
    decreases |es|
  {
    if es != [] {
      assert es[0].Submit?;
      PushOrderly(l, es[0].m);
      SilentAfterError(Step(l, es[0]), es[1..]);
      assert forall i :: 0 < i < |es| ==> es[i] == es[1..][i - 1];
    }
  }

  function Done(n: nat): seq<Event> { seq(n, i => WriteDone) }

  /** Nothing is stuck: without an error, as many completions as there are queued
      messages are possible and send them all. */
  lemma {:induction false} Drains(l: Link)
    requires Orderly(l) && !l.failed
    ensures PossibleRun(l, Done(|l.queue|))
    ensures Run(l, Done(|l.queue|)) == Link([], [], l.sent + l.queue, false)
    decreases |l.queue|
  {
    if l.queue == [] {
      assert l.sent + [] == l.sent;
    } else {
      var t := Completed(l, true);
      CompletedOrderly(l, true);
      Drains(t);
      assert Done(|l.queue|)[1..] == Done(|t.queue|);
      assert t.sent + t.queue == l.sent + l.queue;
    }
  }

  /** One end of a connection. The ghost fields record the writes in progress. */
  class Connection {
    var writeMsgs: seq<Message>
    ghost var writing: seq<Message>
    ghost var sent: seq<Message>
    ghost var failed: bool

    ghost function State(): Link reads this { Link(writeMsgs, writing, sent, failed) }

    constructor ()
      ensures State() == IDLE
    {
      writeMsgs, writing, sent, failed := [], [], [], false;
    }

    method DoWrite()
      requires writeMsgs != []
      modifies this`writing
      ensures State() == StartWrite(old(State()))
    {
      writing := writing + [writeMsgs[0]];
    }

    method Deliver(msg: Message)
      modifies this
      ensures State() == Push(old(State()), msg)
    {
      var writeInProgress := writeMsgs != [];
      writeMsgs := writeMsgs + [msg];
      if !writeInProgress {
        DoWrite();
      }
    }

    /** The completion handler; the caller leaves the room or closes the socket on an
        error. */
    method WriteCompleted(ok: bool)
      requires writing != [] && writeMsgs != []
      modifies this
      ensures State() == Completed(old(State()), ok)
    {
      if ok {
        sent := sent + [writing[0]];
        writing := writing[1..];
        writeMsgs := writeMsgs[1..];
        if writeMsgs != [] {
          DoWrite();
        }
      } else {
        writing := writing[1..];
        failed := true;
      }
    }
  }
}
