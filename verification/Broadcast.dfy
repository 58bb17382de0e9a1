/** The transport end to end: texts broadcast by the room, written by each session's
    queue, and read by that session's client.
  */
module Broadcast {
  import opened Buffers
  import opened ChatMessage
  import opened Framing
  import WriteQueue
  import ChatRoom

  /** All messages one after the other, as they go over a connection. */
  function Stream(messages: seq<seq<byte>>): seq<byte> {
    if messages == [] then [] else messages[0] + Stream(messages[1..])
  }

  lemma {:induction false} StreamOfFrames(messages: seq<seq<byte>>, texts: seq<seq<byte>>)
    requires |messages| == |texts|
    requires forall i :: 0 <= i < |texts| ==> messages[i] == Frame(Body(texts[i]))
    ensures Stream(messages) == Frames(texts)
  {
    if texts != [] {
      StreamOfFrames(messages[1..], texts[1..]);
    }
  }

  lemma {:induction false} StreamConcat(a: seq<seq<byte>>, b: seq<seq<byte>>)
    ensures Stream(a + b) == Stream(a) + Stream(b)
  {
    if a == [] {
      assert a + b == b;
    } else {
      assert (a + b)[1..] == a[1..] + b;
      StreamConcat(a[1..], b);
    }
  }

  /** Reading any beginning of a stream of frames yields a beginning of the texts. */
  lemma PrefixRead(texts: seq<seq<byte>>, arrived: seq<byte>, rest: seq<byte>)
    requires arrived + rest == Frames(texts)
    ensures ReadFrames(arrived).waiting && ReadFrames(arrived).texts <= Bodies(texts)
  {
    hide ReadFrames, Frames, Bodies;
    RoundTrip(texts, []);
    assert Frames(texts) + [] == Frames(texts);
    EmptyStream();
    assert Bodies(texts) + [] == Bodies(texts);
    ReadInPieces(arrived, rest);
    if !ReadFrames(arrived).waiting {
      assert false;
    }
  }

  lemma EmptyStream()
    ensures ReadFrames([]) == Reading([], true, [])
  {
  }

  /** After any run of the room in which the broadcast messages are the encodings of
      `texts`: the client of any session, from whatever part of its session's stream has
      arrived, has read texts from the history without gap or reordering, starting at
      its session's join; from everything its session has sent it has read exactly that
      many. */
  lemma ClientsReadHistory<Id>(es: seq<ChatRoom.Event<Id>>, id: Id, texts: seq<seq<byte>>,
                               arrived: seq<byte>, rest: seq<byte>)
    requires ChatRoom.PossibleRun(ChatRoom.Empty<Id>(), es)
    requires id in ChatRoom.Run(ChatRoom.Empty<Id>(), es).sessions
    requires var r := ChatRoom.Run(ChatRoom.Empty<Id>(), es);
             && |texts| == |r.history|
             && (forall i :: 0 <= i < |texts| ==> r.history[i] == Frame(Body(texts[i])))
             && arrived + rest == Stream(ChatRoom.Given(r.sessions[id]))
    ensures var s := ChatRoom.Run(ChatRoom.Empty<Id>(), es).sessions[id];
            && s.joinedAt + |ChatRoom.Given(s)| <= |texts|
            && ReadFrames(arrived).texts <= Bodies(texts[s.joinedAt..s.joinedAt + |ChatRoom.Given(s)|])
            && ReadFrames(Stream(s.link.sent))
               == Reading(Bodies(texts[s.joinedAt..s.joinedAt + |s.link.sent|]), true, [])
  {
    hide ChatRoom.Run, ChatRoom.PossibleRun, ChatRoom.RoomStep, ReadFrames, Frame, Body;
    var r := ChatRoom.Run(ChatRoom.Empty<Id>(), es);
    var s := r.sessions[id];
    ChatRoom.EmptyInvariant<Id>();
    ChatRoom.EveryRun(ChatRoom.Empty<Id>(), es);
    SessionReads(s, r.history, texts, arrived, rest);
  }

  lemma SessionReads(s: ChatRoom.Session, history: seq<seq<byte>>, texts: seq<seq<byte>>,
                     arrived: seq<byte>, rest: seq<byte>)
    requires ChatRoom.Served(s, history) && |texts| == |history|
    requires forall i :: 0 <= i < |texts| ==> history[i] == Frame(Body(texts[i]))
    requires arrived + rest == Stream(ChatRoom.Given(s))
    ensures s.joinedAt + |ChatRoom.Given(s)| <= |texts|
    ensures ReadFrames(arrived).texts <= Bodies(texts[s.joinedAt..s.joinedAt + |ChatRoom.Given(s)|])
    ensures ReadFrames(Stream(s.link.sent))
         == Reading(Bodies(texts[s.joinedAt..s.joinedAt + |s.link.sent|]), true, [])
  {
    hide ReadFrames, Frame, Body, Stream, Bodies;
    var given := ChatRoom.Given(s);
    var mine := texts[s.joinedAt..s.joinedAt + |given|];
    StreamOfFrames(given, mine);
    PrefixRead(mine, arrived, rest);
    var done := texts[s.joinedAt..s.joinedAt + |s.link.sent|];
    assert forall i :: 0 <= i < |s.link.sent| ==> s.link.sent[i] == given[i];
    StreamOfFrames(s.link.sent, done);
    RoundTrip(done, []);
    EmptyStream();
    assert Frames(done) + [] == Frames(done);
    assert Bodies(done) + [] == Bodies(done);
  }
}
