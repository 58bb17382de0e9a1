/** The read-header / read-body loop of both ends of the connection, over the whole
    stream of bytes it receives.
  */
module Framing {
  import opened Buffers
  import opened Options
  import opened ChatMessage

  /** What has been made of a stream so far: the texts handed on, whether the loop is
      still waiting for more bytes (otherwise it has closed), and the unread bytes. */
  datatype Reading = Reading(texts: seq<seq<byte>>, waiting: bool, left: seq<byte>)

  function ReadFrames(stream: seq<byte>): (r: Reading)
    ensures |r.left| <= |stream|
    decreases |stream|
  {
    if |stream| < HEADER_LENGTH then Reading([], true, stream)
    else
      var length := DecodeLength(stream[..HEADER_LENGTH]);
      if length.None? then Reading([], false, stream[HEADER_LENGTH..])
      else if |stream| < HEADER_LENGTH + length.value then Reading([], true, stream)
      else
        var r := ReadFrames(stream[HEADER_LENGTH + length.value..]);
        r.(texts := [UpToNul(stream[HEADER_LENGTH..HEADER_LENGTH + length.value])] + r.texts)
  }

  lemma Unfold(stream: seq<byte>)
    ensures ReadFrames(stream) ==
      if |stream| < HEADER_LENGTH then Reading([], true, stream)
      else if DecodeLength(stream[..HEADER_LENGTH]).None? then Reading([], false, stream[HEADER_LENGTH..])
      else
        var n := HEADER_LENGTH + DecodeLength(stream[..HEADER_LENGTH]).value;
        if |stream| < n then Reading([], true, stream)
        else
          var r := ReadFrames(stream[n..]);
          r.(texts := [UpToNul(stream[HEADER_LENGTH..n])] + r.texts)
  {
  }

  /** The stream a sender produces for a list of texts. */
  function Frames(texts: seq<seq<byte>>): seq<byte> {
    if texts == [] then [] else Frame(Body(texts[0])) + Frames(texts[1..])
  }

  function Bodies(texts: seq<seq<byte>>): (r: seq<seq<byte>>)
    ensures |r| == |texts| && forall i :: 0 <= i < |texts| ==> r[i] == Body(texts[i])
  {
    if texts == [] then [] else [Body(texts[0])] + Bodies(texts[1..])
  }

  /** One frame at the front of a stream is read as one text. */
  lemma ReadOne(text: seq<byte>, rest: seq<byte>)
    ensures ReadFrames(Frame(Body(text)) + rest)
         == ReadFrames(rest).(texts := [Body(text)] + ReadFrames(rest).texts)
  {
    var b := Body(text);
    var stream := Frame(b) + rest;
    HeaderRoundTrip(|b|);
    UpToNulAll(b);
    assert stream[..HEADER_LENGTH] == Format4(|b|);
    assert stream[HEADER_LENGTH..HEADER_LENGTH + |b|] == b;
    assert stream[HEADER_LENGTH + |b|..] == rest;
  }

  /** Round trip over streams: whatever follows, a list of frames is read back as the
      list of their bodies, and reading goes on with what follows. */
  lemma {:induction false} RoundTrip(texts: seq<seq<byte>>, rest: seq<byte>)
    ensures ReadFrames(Frames(texts) + rest)
         == ReadFrames(rest).(texts := Bodies(texts) + ReadFrames(rest).texts)
  {
    if texts == [] {
      assert Frames(texts) + rest == rest;
      assert Bodies(texts) + ReadFrames(rest).texts == ReadFrames(rest).texts;
    } else {
      assert Frames(texts) + rest == Frame(Body(texts[0])) + (Frames(texts[1..]) + rest);
      ReadOne(texts[0], Frames(texts[1..]) + rest);
      RoundTrip(texts[1..], rest);
      assert [Body(texts[0])] + (Bodies(texts[1..]) + ReadFrames(rest).texts)
          == Bodies(texts) + ReadFrames(rest).texts;
    }
  }

  /** For texts without NUL the bodies are the texts, each cut to 4096 bytes. */
  lemma RoundTripExact(texts: seq<seq<byte>>)
    requires forall i :: 0 <= i < |texts| ==> 0 !in texts[i]
    ensures ReadFrames(Frames(texts)) == Reading(Bodies(texts), true, [])
    ensures forall i :: 0 <= i < |texts| ==> Bodies(texts)[i] == texts[i][..Min(|texts[i]|, 4096)]
  {
    RoundTrip(texts, []);
    assert Frames(texts) + [] == Frames(texts);
    assert Bodies(texts) + [] == Bodies(texts);
    forall i | 0 <= i < |texts|
      ensures Bodies(texts)[i] == texts[i][..Min(|texts[i]|, 4096)]
    {
      UpToNulAll(texts[i]);
    }
  }

  /** A payload a sender of this program would not produce, with NULs in it, is read as the
      text up to the first of them; the whole payload is consumed. */
  lemma ReadPayload(payload: seq<byte>, rest: seq<byte>)
    requires |payload| <= 4096
    ensures ReadFrames(Format4(|payload|) + payload + rest)
         == ReadFrames(rest).(texts := [UpToNul(payload)] + ReadFrames(rest).texts)
  {
    var stream := Format4(|payload|) + payload + rest;
    HeaderRoundTrip(|payload|);
    assert stream[..HEADER_LENGTH] == Format4(|payload|);
    assert stream[HEADER_LENGTH..HEADER_LENGTH + |payload|] == payload;
    assert stream[HEADER_LENGTH + |payload|..] == rest;
  }

  /** A bad header ends the reading for good: everything before it has been handed on, and
      whatever follows is never looked at. */
  lemma BadHeaderEnds(texts: seq<seq<byte>>, header: seq<byte>, rest: seq<byte>)
    requires |header| == 4 && (Atoi(UpToNul(header)) < 0 || Atoi(UpToNul(header)) > 4096)
    ensures ReadFrames(Frames(texts) + (header + rest)) == Reading(Bodies(texts), false, rest)
  {
    hide Frames, Bodies, Atoi;
    RoundTrip(texts, header + rest);
    Unfold(header + rest);
    assert (header + rest)[..HEADER_LENGTH] == header && (header + rest)[HEADER_LENGTH..] == rest;
    assert Bodies(texts) + [] == Bodies(texts);
  }

  /** How the network cuts the stream does not matter: reading a first part and then
      the rest, starting from what was left unread, reads the whole. Texts already
      handed on never change. */
  lemma {:induction false} ReadInPieces(a: seq<byte>, b: seq<byte>)
    ensures var r := ReadFrames(a);
            var s := ReadFrames(r.left + b);
            ReadFrames(a + b) == if r.waiting then s.(texts := r.texts + s.texts)
                                 else r.(left := r.left + b)
    decreases |a|
  {
    hide ReadFrames, DecodeLength, UpToNul;
    Unfold(a);
    Unfold(a + b);
    var r := ReadFrames(a);
    if |a| >= HEADER_LENGTH {
      assert (a + b)[..HEADER_LENGTH] == a[..HEADER_LENGTH];
      var length := DecodeLength(a[..HEADER_LENGTH]);
      if length.None? {
        assert (a + b)[HEADER_LENGTH..] == a[HEADER_LENGTH..] + b;
      } else if |a| >= HEADER_LENGTH + length.value {
        var k := HEADER_LENGTH + length.value;
        assert (a + b)[HEADER_LENGTH..k] == a[HEADER_LENGTH..k];
        assert (a + b)[k..] == a[k..] + b;
        ReadInPieces(a[k..], b);
        var rest := ReadFrames(a[k..]);
        var s := ReadFrames(r.left + b);
        assert r.texts == [UpToNul(a[HEADER_LENGTH..k])] + rest.texts;
        assert r.texts + s.texts == [UpToNul(a[HEADER_LENGTH..k])] + (rest.texts + s.texts);
      } else {
        assert r.texts + ReadFrames(a + b).texts == ReadFrames(a + b).texts;
      }
    } else {
      assert r.texts + ReadFrames(a + b).texts == ReadFrames(a + b).texts;
    }
  }

  /** No stream, however malformed, makes the loop hand on more than 4096 bytes at a
      time, or a text containing NUL. */
  lemma {:induction false} TextsBounded(stream: seq<byte>, i: nat)
    requires i < |ReadFrames(stream).texts|
    ensures |ReadFrames(stream).texts[i]| <= 4096 && 0 !in ReadFrames(stream).texts[i]
    decreases |stream|
  {
    var length := DecodeLength(stream[..HEADER_LENGTH]);
    if i > 0 {
      TextsBounded(stream[HEADER_LENGTH + length.value..], i - 1);
    }
  }

  /** The loop has handed on `texts` and stands at position `at` of the stream. */
  predicate ReadSoFar(stream: seq<byte>, at: nat, texts: seq<seq<byte>>) {
    at <= |stream| &&
    ReadFrames(stream) == ReadFrames(stream[at..]).(texts := texts + ReadFrames(stream[at..]).texts)
  }

  lemma ReadSoFarStart(stream: seq<byte>)
    ensures ReadSoFar(stream, 0, [])
  {
    assert stream[0..] == stream;
    assert [] + ReadFrames(stream).texts == ReadFrames(stream).texts;
  }

  lemma ReadSoFarStep(stream: seq<byte>, at: nat, n: nat, texts: seq<seq<byte>>)
    requires ReadSoFar(stream, at, texts) && at + HEADER_LENGTH + n <= |stream|
    requires DecodeLength(stream[at..at + HEADER_LENGTH]) == Some(n)
    ensures ReadSoFar(stream, at + HEADER_LENGTH + n,
                      texts + [UpToNul(stream[at + HEADER_LENGTH..at + HEADER_LENGTH + n])])
  {
    hide ReadFrames, DecodeLength, UpToNul;
    var from := at + HEADER_LENGTH;
    var ahead := stream[at..];
    Unfold(ahead);
    assert ahead[..HEADER_LENGTH] == stream[at..from];
    assert ahead[HEADER_LENGTH..HEADER_LENGTH + n] == stream[from..from + n];
    assert ahead[HEADER_LENGTH + n..] == stream[from + n..];
    var (text, rest) := (UpToNul(stream[from..from + n]), ReadFrames(stream[from + n..]));
    assert texts + ([text] + rest.texts) == (texts + [text]) + rest.texts;
  }

  lemma ReadSoFarEnd(stream: seq<byte>, at: nat, texts: seq<seq<byte>>)
    requires ReadSoFar(stream, at, texts)
    ensures at + HEADER_LENGTH > |stream| ==> ReadFrames(stream) == Reading(texts, true, stream[at..])
    ensures at + HEADER_LENGTH <= |stream| ==>
              match DecodeLength(stream[at..at + HEADER_LENGTH])
              case None => ReadFrames(stream) == Reading(texts, false, stream[at + HEADER_LENGTH..])
              case Some(n) =>
                at + HEADER_LENGTH + n > |stream| ==> ReadFrames(stream) == Reading(texts, true, stream[at..])
  {
    hide ReadFrames, DecodeLength, UpToNul;
    var ahead := stream[at..];
    Unfold(ahead);
    assert texts + [] == texts;
    if at + HEADER_LENGTH <= |stream| {
      assert ahead[..HEADER_LENGTH] == stream[at..at + HEADER_LENGTH];
      assert ahead[HEADER_LENGTH..] == stream[at + HEADER_LENGTH..];
    }
  }

  /** The loop itself, over one message object that every frame is read into. The
      completion handlers that start one another are the turns of the loop. */
  method ReadLoop(stream: seq<byte>) returns (r: Reading)
    ensures r == ReadFrames(stream)
  {
    hide ReadSoFar, ReadFrames, DecodeLength, UpToNul;
    var msg := new ChatMessage();
    var at: nat := 0;
    var texts: seq<seq<byte>> := [];
    ReadSoFarStart(stream);
    while |stream| - at >= HEADER_LENGTH
      invariant at <= |stream| && msg.Valid() && fresh(msg) && fresh(msg.data)
      invariant ReadSoFar(stream, at, texts)
      decreases |stream| - at
    {
      ReadSoFarEnd(stream, at, texts);
      var from := at + HEADER_LENGTH;
      msg.Receive(0, stream[at..from]);
      assert msg.data[..HEADER_LENGTH] == msg.data[0..0 + HEADER_LENGTH];
      var ok := msg.DecodeHeader();
      if !ok {
        return Reading(texts, false, stream[from..]);
      }
      if |stream| - from < msg.bodyLength {
        return Reading(texts, true, stream[at..]);
      }
      ReadSoFarStep(stream, at, msg.bodyLength, texts);
      msg.Receive(HEADER_LENGTH, stream[from..from + msg.bodyLength]);
      var text := msg.Text();
      texts := texts + [text];
      at := from + msg.bodyLength;
    }
    ReadSoFarEnd(stream, at, texts);
    return Reading(texts, true, stream[at..]);
  }
}
