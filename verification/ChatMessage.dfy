/** `chat_message`: a fixed array holding a four-character decimal length and up to
    4096 bytes of body, and the text conversions its header goes through.
  */
module ChatMessage {
  import opened Buffers
  import opened Options

  const HEADER_LENGTH := 4
  const MAX_BODY_LENGTH := 4096

  // ------------------------------------------------- the C library's text functions

  /** A C string: the bytes before the first NUL. */
  function UpToNul(s: seq<byte>): (r: seq<byte>)
    ensures |r| <= |s| && r == s[..|r|] && 0 !in r
    ensures |r| < |s| ==> s[|r|] == 0
  {
    if s == [] || s[0] == 0 then [] else [s[0]] + UpToNul(s[1..])
  }

  predicate IsSpace(b: byte) { b == 32 || 9 <= b <= 13 }

  predicate IsDigit(b: byte) { 48 <= b <= 57 }

  function SkipSpaces(s: seq<byte>): seq<byte> {
    if s != [] && IsSpace(s[0]) then SkipSpaces(s[1..]) else s
  }

  /** The value of the leading digits, continuing from `acc`. */
  function Digits(s: seq<byte>, acc: nat): nat {
    if s != [] && IsDigit(s[0]) then Digits(s[1..], 10 * acc + (s[0] - 48)) else acc
  }

  /** `atoi`: blanks, an optional sign, digits. */
  function Atoi(s: seq<byte>): int
  {
    var t := SkipSpaces(s);
    if t != [] && t[0] == 45 then 0 - Digits(t[1..], 0) as int
    else if t != [] && t[0] == 43 then Digits(t[1..], 0)
    else Digits(t, 0)
  }

  function Decimal(n: nat): (r: seq<byte>)
    ensures r != [] && forall i :: 0 <= i < |r| ==> IsDigit(r[i])
  {
    if n < 10 then [48 + n] else Decimal(n / 10) + [48 + n % 10]
  }

  function Blanks(n: nat): (r: seq<byte>)
    ensures |r| == n && forall i :: 0 <= i < n ==> r[i] == 32
  {
    seq(n, i => 32)
  }

  /** `sprintf("%4d", n)` for a number that is not negative. */
  function Format4(n: nat): seq<byte> {
    var d := Decimal(n);
    if |d| < 4 then Blanks(4 - |d|) + d else d
  }

  lemma {:induction false} DigitsOfMore(s: seq<byte>, b: byte, acc: nat)
    requires forall i :: 0 <= i < |s| ==> IsDigit(s[i])
    requires IsDigit(b)
    ensures Digits(s + [b], acc) == 10 * Digits(s, acc) + (b - 48)
  {
    if s == [] {
      assert s + [b] == [b];
    } else {
      assert (s + [b])[1..] == s[1..] + [b];
      DigitsOfMore(s[1..], b, 10 * acc + (s[0] - 48));
    }
  }

  lemma {:induction false} DigitsOfDecimal(n: nat)
    ensures Digits(Decimal(n), 0) == n
  {
    if n >= 10 {
      DigitsOfDecimal(n / 10);
      DigitsOfMore(Decimal(n / 10), 48 + n % 10, 0);
    }
  }

  lemma {:induction false} SkipBlanks(k: nat, s: seq<byte>)
    requires s != [] && IsDigit(s[0])
    ensures SkipSpaces(Blanks(k) + s) == s
  {
    if k == 0 {
      assert Blanks(0) + s == s;
    } else {
      assert (Blanks(k) + s)[1..] == Blanks(k - 1) + s;
      SkipBlanks(k - 1, s);
    }
  }

  /** Printing a number and reading it back, at any width. */
  lemma FormatRoundTrip(n: nat)
    ensures Atoi(Format4(n)) == n
  {
    var d := Decimal(n);
    DigitsOfDecimal(n);
    SkipBlanks(if |d| < 4 then 4 - |d| else 0, d);
    assert Blanks(0) + d == d;
  }

  lemma {:induction false} UpToNulAll(s: seq<byte>)
    requires 0 !in s
    ensures UpToNul(s) == s
  {
    if s != [] {
      UpToNulAll(s[1..]);
    }
  }

  /** Cutting a longer C string at `|a|` bytes only depends on those bytes. */
  lemma {:induction false} UpToNulPrefix(a: seq<byte>, b: seq<byte>)
    ensures UpToNul(a) == UpToNul(a + b)[..Min(|a|, |UpToNul(a + b)|)]
  {
    if a != [] {
      assert (a + b)[1..] == a[1..] + b;
      UpToNulPrefix(a[1..], b);
    }
  }

  // ------------------------------------------------------------- header and body

  /** What `decode_header` accepts: the length in four header bytes, if it is one. */
  function DecodeLength(header: seq<byte>): (r: Option<nat>)
    ensures r.Some? ==> r.value <= MAX_BODY_LENGTH
  {
    var n := Atoi(UpToNul(header));
    if 0 <= n <= MAX_BODY_LENGTH then Some(n) else None
  }

  /** The body `write_to_clients` sends for a text: up to its first NUL, at most
      4096 bytes of it. */
  function Body(text: seq<byte>): (r: seq<byte>)
    ensures |r| <= MAX_BODY_LENGTH && 0 !in r
  {
    var s := UpToNul(text);
    s[..Min(|s|, MAX_BODY_LENGTH)]
  }

  /** The bytes put on the wire for a body: header, then body. */
  function Frame(body: seq<byte>): seq<byte> {
    Format4(|body|) + body
  }

  /** Every length that fits gets a header of four characters, all printable, which
      decodes to that length. */
  lemma HeaderRoundTrip(n: nat)
    requires n <= MAX_BODY_LENGTH
    ensures |Format4(n)| == HEADER_LENGTH
    ensures DecodeLength(Format4(n)) == Some(n)
  {
    DecimalWidth(n);
    FormatRoundTrip(n);
    UpToNulAll(Format4(n));
  }

  /** The header field is too narrow exactly for numbers over 9999. */
  lemma DecimalWidth(n: nat)
    ensures |Decimal(n)| <= 4 <==> n <= 9999
  {
    DecimalDigits(n / 10);
    DecimalDigits(n / 10 / 10);
    DecimalDigits(n / 10 / 10 / 10);
    if n >= 10 {
      assert |Decimal(n)| == 1 + |Decimal(n / 10)|;
      if n >= 100 {
        assert |Decimal(n / 10)| == 1 + |Decimal(n / 10 / 10)|;
        if n >= 1000 {
          assert |Decimal(n / 10 / 10)| == 1 + |Decimal(n / 10 / 10 / 10)|;
        }
      }
    }
  }

  lemma DecimalDigits(n: nat)
    ensures |Decimal(n)| == 1 <==> n < 10
  {
  }

  /** The header byte for a decimal place: the digit, or a blank left of the number. */
  predicate IsPlace(b: byte, n: nat, place: nat)
    requires place > 0
  {
    b == if n >= place || place == 1 then 48 + n / place % 10 else 32
  }

  /** The header of a length up to 9999, byte by byte: the digits of the number at the
      right, blanks to the left of them. */
  lemma HeaderBytes(n: nat)
    requires n <= 9999
    ensures var h := Format4(n);
            |h| == 4 && IsPlace(h[3], n, 1) && IsPlace(h[2], n, 10) && IsPlace(h[1], n, 100) && IsPlace(h[0], n, 1000)
  {
    DecimalWidth(n);
    var (a, b, c) := (n / 10, n / 10 / 10, n / 10 / 10 / 10);
    assert a == n / 10 && b == n / 100 && c == n / 1000;
    if n < 10 {
      assert Decimal(n) == [48 + n];
    } else if n < 100 {
      assert Decimal(a) == [48 + a] && Decimal(n) == [48 + a, 48 + n % 10];
    } else if n < 1000 {
      assert Decimal(b) == [48 + b] && Decimal(a) == [48 + b, 48 + a % 10];
      assert Decimal(n) == [48 + b, 48 + a % 10, 48 + n % 10];
    } else {
      assert Decimal(c) == [48 + c] && Decimal(b) == [48 + c, 48 + b % 10];
      assert Decimal(a) == [48 + c, 48 + b % 10, 48 + a % 10];
      assert Decimal(n) == [48 + c, 48 + b % 10, 48 + a % 10, 48 + n % 10];
    }
  }

  /** A frame is four header bytes, as above, and then the body. */
  lemma FrameLayout(body: seq<byte>)
    requires |body| <= 4096
    ensures var f := Frame(body);
            && |f| == 4 + |body| && f[4..] == body
            && IsPlace(f[3], |body|, 1) && IsPlace(f[2], |body|, 10)
            && IsPlace(f[1], |body|, 100) && IsPlace(f[0], |body|, 1000)
  {
    HeaderBytes(|body|);
  }

  /** The body of a text is what comes before its first NUL, at most 4096 bytes of it. */
  lemma BodyIsCut(before: seq<byte>, after: seq<byte>)
    requires 0 !in before
    ensures Body(before) == before[..Min(|before|, 4096)]
    ensures Body(before + [0] + after) == before[..Min(|before|, 4096)]
  {
    UpToNulAll(before);
    UpToNulStops(before, after);
  }

  lemma {:induction false} UpToNulStops(before: seq<byte>, after: seq<byte>)
    requires 0 !in before
    ensures UpToNul(before + [0] + after) == before
  {
    var s := before + [0] + after;
    if before != [] {
      assert s[1..] == before[1..] + [0] + after;
      UpToNulStops(before[1..], after);
    }
  }

  /** `atoi` reads a number after any white space, with or without a sign, up to the
      first character that is no digit; without a digit in its place it is zero. */
  lemma AtoiReads(space: seq<byte>, n: nat, tail: seq<byte>)
    requires forall i :: 0 <= i < |space| ==> space[i] == 32 || 9 <= space[i] <= 13
    requires tail == [] || !(48 <= tail[0] <= 57)
    ensures Atoi(space + (Decimal(n) + tail)) == n
    ensures Atoi(space + ([43] + (Decimal(n) + tail))) == n
    ensures Atoi(space + ([45] + (Decimal(n) + tail))) + n == 0
    ensures tail == [] || tail[0] !in [32, 9, 10, 11, 12, 13, 43, 45] ==> Atoi(space + tail) == 0
  {
    hide Decimal;
    var d := Decimal(n);
    DigitsOfDecimal(n);
    DigitsStop(d, tail, 0);
    SkipAll(space, d + tail);
    SkipAll(space, [43] + (d + tail));
    SkipAll(space, [45] + (d + tail));
    assert ([43] + (d + tail))[1..] == d + tail && ([45] + (d + tail))[1..] == d + tail;
    if tail == [] || tail[0] !in [32, 9, 10, 11, 12, 13, 43, 45] {
      SkipAll(space, tail);
    }
  }

  lemma {:induction false} SkipAll(space: seq<byte>, s: seq<byte>)
    requires forall i :: 0 <= i < |space| ==> IsSpace(space[i])
    requires s == [] || !IsSpace(s[0])
    ensures SkipSpaces(space + s) == s
  {
    if space == [] {
      assert space + s == s;
    } else {
      assert (space + s)[1..] == space[1..] + s;
      SkipAll(space[1..], s);
    }
  }

  lemma {:induction false} DigitsStop(d: seq<byte>, tail: seq<byte>, acc: nat)
    requires forall i :: 0 <= i < |d| ==> IsDigit(d[i])
    requires tail == [] || !IsDigit(tail[0])
    ensures Digits(d + tail, acc) == Digits(d, acc)
  {
    if d == [] {
      assert d + tail == tail;
    } else {
      assert (d + tail)[1..] == d[1..] + tail;
      DigitsStop(d[1..], tail, 10 * acc + (d[0] - 48));
    }
  }

  /** A printed number is accepted exactly up to 4096, and with a minus sign only when it
      is zero. */
  lemma AcceptedLengths(n: nat)
    ensures DecodeLength(Format4(n)) == if n <= 4096 then Some(n) else None
    ensures DecodeLength([45] + Decimal(n)) == if n == 0 then Some(0) else None
  {
    FormatRoundTrip(n);
    UpToNulAll(Format4(n));
    UpToNulAll([45] + Decimal(n));
    AtoiReads([], n, []);
    assert [] + ([45] + (Decimal(n) + [])) == [45] + Decimal(n);
  }

  /** The message object. */
  class ChatMessage {
    const data: array<byte>
    var bodyLength: nat

    ghost predicate Valid()
      reads this
    {
      data.Length == 4 + 4096 && bodyLength <= 4096
    }

    constructor ()
      ensures Valid() && bodyLength == 0 && fresh(data)
    {
      data := new byte[HEADER_LENGTH + MAX_BODY_LENGTH];
      bodyLength := 0;
    }

    function Length(): nat
      reads this
    {
      HEADER_LENGTH + bodyLength
    }

    method SetBodyLength(newLength: nat)
      requires Valid()
      modifies this
      ensures Valid() && bodyLength == Min(newLength, 4096)
    {
      bodyLength := newLength;
      if bodyLength > MAX_BODY_LENGTH {
        bodyLength := MAX_BODY_LENGTH;
      }
    }

    method EncodeHeader()
      requires Valid()
      modifies data
      ensures data[..HEADER_LENGTH] == Format4(bodyLength)
      ensures IsPlace(data[3], bodyLength, 1) && IsPlace(data[2], bodyLength, 10)
      ensures IsPlace(data[1], bodyLength, 100) && IsPlace(data[0], bodyLength, 1000)
      ensures data[4..] == old(data[4..])
    {
      HeaderRoundTrip(bodyLength);
      HeaderBytes(bodyLength);
      var header := Format4(bodyLength);
      forall i | 0 <= i < HEADER_LENGTH {
        data[i] := header[i];
      }
    }

    /** `decode_header`: the unsigned conversion makes a negative number enormous. */
    method DecodeHeader() returns (ok: bool)
      requires Valid()
      modifies this
      ensures Valid()
      ensures ok <==> DecodeLength(data[..HEADER_LENGTH]).Some?
      ensures bodyLength == if ok then DecodeLength(data[..HEADER_LENGTH]).value else 0
    {
      var header := UpToNul(data[..HEADER_LENGTH]);
      var n := Atoi(header);
      bodyLength := if n < 0 then (0x1_0000_0000_0000_0000 + n) % 0x1_0000_0000_0000_0000 else n;
      if n < 0 {
        AtoiSmall(header);
      }
      if bodyLength > MAX_BODY_LENGTH {
        bodyLength := 0;
        return false;
      }
      return true;
    }

    /** Bytes read from the connection into part of the array. */
    method Receive(at: nat, bytes: seq<byte>)
      requires at + |bytes| <= data.Length
      modifies data
      ensures data[..] == old(data[..at]) + bytes + old(data[at + |bytes|..])
      ensures data[at..at + |bytes|] == bytes
    {
      forall i | 0 <= i < |bytes| {
        data[at + i] := bytes[i];
      }
    }

    /** The text both receivers build: a C string from the body, which may run past it,
        then cut to the body length. */
    method Text() returns (text: seq<byte>)
      requires Valid()
      ensures text == UpToNul(data[HEADER_LENGTH..HEADER_LENGTH + bodyLength])
    {
      var whole := UpToNul(data[HEADER_LENGTH..]);
      text := whole[..Min(bodyLength, |whole|)];
      var body := data[HEADER_LENGTH..HEADER_LENGTH + bodyLength];
      var rest := data[HEADER_LENGTH + bodyLength..];
      UpToNulPrefix(body, rest);
      assert data[HEADER_LENGTH..] == body + rest;
    }
  }

  function Power10(n: nat): nat { if n == 0 then 1 else 10 * Power10(n - 1) }

  lemma Scale(a: nat, b: nat, q: nat)
    requires a <= b
    ensures a * q <= b * q
  {
  }

  lemma Regroup(a: nat, q: nat)
    ensures 10 * a * q == a * (10 * q)
  {
  }

  lemma {:induction false} DigitsBound(s: seq<byte>, acc: nat)
    ensures Digits(s, acc) < (acc + 1) * Power10(|s|)
    decreases |s|
  {
    if s != [] && IsDigit(s[0]) {
      var next := 10 * acc + (s[0] - 48);
      var q := Power10(|s| - 1);
      DigitsBound(s[1..], next);
      Scale(next + 1, 10 * (acc + 1), q);
      Regroup(acc + 1, q);
    } else {
      PowerPositive(|s|);
      Scale(1, Power10(|s|), acc + 1);
    }
  }

  lemma {:induction false} PowerPositive(n: nat)
    ensures Power10(n) >= 1
  {
    if n > 0 {
      PowerPositive(n - 1);
    }
  }

  lemma {:induction false} PowerGrows(m: nat, n: nat)
    requires m <= n
    ensures Power10(m) <= Power10(n)
  {
    if m < n {
      PowerGrows(m, n - 1);
    }
  }

  lemma {:induction false} SkipSpacesShortens(s: seq<byte>)
    ensures |SkipSpaces(s)| <= |s|
  {
    if s != [] && IsSpace(s[0]) {
      SkipSpacesShortens(s[1..]);
    }
  }

  /** Four characters hold no number near the limits of the types involved. */
  lemma AtoiSmall(s: seq<byte>)
    requires |s| <= 4
    ensures -10000 < Atoi(s) < 10000
  {
    SkipSpacesShortens(s);
    var t := SkipSpaces(s);
    assert Power10(4) == 10000;
    DigitsBound(t, 0);
    PowerGrows(|t|, 4);
    if t != [] {
      DigitsBound(t[1..], 0);
      PowerGrows(|t| - 1, 4);
    }
  }

  /** `write_to_clients`: the message built for a text has its frame in front. */
  method Compose(text: seq<byte>) returns (msg: ChatMessage)
    ensures fresh(msg) && fresh(msg.data) && msg.Valid()
    ensures msg.data[..msg.Length()] == Frame(Body(text))
  {
    msg := new ChatMessage();
    var s := UpToNul(text);
    msg.SetBodyLength(|s|);
    msg.Receive(HEADER_LENGTH, s[..msg.bodyLength]);
    HeaderRoundTrip(msg.bodyLength);
    ghost var after := msg.data[HEADER_LENGTH..];
    assert after[..msg.bodyLength] == Body(text);
    msg.EncodeHeader();
    assert msg.data[..msg.Length()] == msg.data[..HEADER_LENGTH] + msg.data[HEADER_LENGTH..][..msg.bodyLength];
  }
}
