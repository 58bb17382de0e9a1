/** `basic_streambuf`: a byte queue kept as five positions into one vector that is
    compacted in place and grown up to a bound.

    `Sb` is a snapshot of the object; the functions on it say what each member does
    to the whole state, the class does it in place.
  */
module Streambuf {
  import opened Buffers
  import opened Options

  const BUFFER_DELTA := 128
  const INT_MAX := 0x7fff_ffff

  /** One more than the largest `size_t`, and than the largest address. */
  const SIZE_LIMIT := 0x1_0000_0000_0000_0000

  /** The conversion of a `size_t` to a 32-bit `int` in `pbump(static_cast<int>(n))`
      and `gbump(static_cast<int>(n))`. */
  function ToInt(n: nat): int {
    var r := n % 0x1_0000_0000;
    if r <= INT_MAX then r else r - 0x1_0000_0000
  }

  /** The conversion keeps the low 32 bits, read as a signed number. */
  lemma ToIntRange(n: nat)
    ensures -0x8000_0000 <= ToInt(n) <= 0x7fff_ffff && (n - ToInt(n)) % 0x1_0000_0000 == 0
  {
  }

  /** The conversion is harmless exactly up to `INT_MAX`. */
  lemma ToIntExact(n: nat)
    ensures ToInt(n) == n <==> n <= INT_MAX
  {
  }

  /** Positions are offsets from the start of the vector. */
  datatype Sb = Sb(maxSize: nat, buffer: seq<byte>, eback: int, gptr: int, egptr: int, pptr: int, epptr: int)

  function Max(a: nat, b: nat): nat { if a < b then b else a }

  predicate Valid(s: Sb) {
    && 0 == s.eback <= s.gptr <= s.egptr <= s.pptr <= s.epptr <= s.maxSize
    && |s.buffer| == Max(s.epptr, 1)
  }

  function Zeros(n: nat): (r: seq<byte>)
    ensures |r| == n && forall i :: 0 <= i < n ==> r[i] == 0
  {
    seq(n, i => 0)
  }

  function Init(maxSize: nat): (s: Sb)
    ensures Valid(s) && Contents(s) == []
  {
    var pend := Min(maxSize, BUFFER_DELTA);
    Sb(maxSize, Zeros(Max(pend, 1)), 0, 0, 0, 0, pend)
  }

  /** `data()`: the input sequence. */
  function Contents(s: Sb): seq<byte>
    requires Valid(s)
  {
    s.buffer[s.gptr..s.pptr]
  }

  function Size(s: Sb): int { s.pptr - s.gptr }

  /** The vector after the overlapping move of the get area to the front. */
  function Shifted(s: Sb): (r: seq<byte>)
    requires Valid(s)
    ensures |r| == |s.buffer|
  {
    s.buffer[s.gptr..s.pptr] + s.buffer[s.pptr - s.gptr..]
  }

  lemma ShiftedShape(s: Sb)
    requires Valid(s)
    ensures |Shifted(s)| == |s.buffer| && Shifted(s)[..s.pptr - s.gptr] == Contents(s)
  {
  }

  lemma ShiftedNothing(s: Sb)
    requires Valid(s) && s.gptr == 0
    ensures Shifted(s) == s.buffer
  {
  }

  /** `reserve`: the state left behind and whether it returned normally. A failing
      call has moved the bytes but not the positions. Either way the five positions
      stay in order and within the limit. */
  function Reserve(s: Sb, n: nat): (r: (Sb, bool))
    requires Valid(s)
    ensures Valid(r.0) && r.0.maxSize == s.maxSize
  {
    var size := Size(s);
    if n <= s.epptr - s.pptr then (s, true)
    else if n <= s.epptr - size then
      (s.(buffer := Shifted(s), gptr := 0, egptr := size, pptr := size), true)
    else if size + n <= s.maxSize then
      (s.(buffer := Shifted(s) + Zeros(Max(size + n, 1) - |s.buffer|),
          gptr := 0, egptr := size, pptr := size, epptr := size + n), true)
    else (s.(buffer := Shifted(s)), false)
  }

  /** `reserve` fails exactly when the limit would be exceeded; when it succeeds the
      contents are the same and there is room for `n` more bytes. */
  lemma ReserveKeeps(s: Sb, n: nat)
    requires Valid(s)
    ensures Reserve(s, n).1 <==> Size(s) + n <= s.maxSize
    ensures Reserve(s, n).1 ==>
              Contents(Reserve(s, n).0) == Contents(s) && Reserve(s, n).0.epptr - Reserve(s, n).0.pptr >= n
  {
    hide Shifted;
    ShiftedShape(s);
    var size := Size(s);
    if n <= s.epptr - s.pptr {
    } else if n <= s.epptr - size {
      assert Contents(Reserve(s, n).0) == Shifted(s)[..size];
    } else if size + n <= s.maxSize {
      assert Contents(Reserve(s, n).0) == Shifted(s)[..size];
    }
  }

  /** What else `reserve` does to the positions. With room enough it touches nothing. If
      not, the get area moves to the front and its end is brought up to the put position;
      the vector grows only if that is still not enough, and then to exactly `n` bytes of
      room. A failing call leaves every position alone. */
  lemma ReserveShape(s: Sb, n: nat)
    requires Valid(s)
    ensures var (t, ok) := Reserve(s, n);
            && (s.epptr - s.pptr >= n ==> t == s)
            && (ok && s.epptr - s.pptr < n ==> t.gptr == 0 && t.egptr == t.pptr == Size(s))
            && (ok ==> t.epptr == if s.epptr - s.pptr >= n || s.epptr - Size(s) >= n then s.epptr else Size(s) + n)
            && (!ok ==> (t.eback, t.gptr, t.egptr, t.pptr, t.epptr) == (s.eback, s.gptr, s.egptr, s.pptr, s.epptr))
  {
  }

  /** A new streambuf has 128 bytes of room, or as many as the limit allows. */
  lemma InitRoom(maxSize: nat)
    ensures var s := Init(maxSize);
            s.epptr - s.pptr == (if maxSize < 128 then maxSize else 128) && s.maxSize == maxSize
  {
  }

  /** The contents repeat with period `gptr`. */
  predicate Repeats(s: Sb)
    requires Valid(s)
  {
    forall j :: 0 <= j < Size(s) - s.gptr ==> Contents(s)[j + s.gptr] == Contents(s)[j]
  }

  /** What a failed `reserve` does to the contents: it keeps them exactly when they
      repeat with period `gptr` (in particular when nothing has been consumed, or when
      the get area does not reach its new place). */
  lemma FailedReserveContents(s: Sb, n: nat)
    requires Valid(s) && Size(s) + n > s.maxSize
    ensures Contents(Reserve(s, n).0) == Contents(s) <==> Repeats(s)
    ensures s.gptr == 0 || Size(s) <= s.gptr ==> Contents(Reserve(s, n).0) == Contents(s)
  {
    hide Reserve, Contents, Shifted;
    var now := Contents(Reserve(s, n).0);
    var was := Contents(s);
    FailedReserveBytes(s, n);
    if now == was {
      forall j | 0 <= j < Size(s) - s.gptr ensures was[j + s.gptr] == was[j] {
        assert now[j] == was[j];
      }
    }
    if forall j :: 0 <= j < Size(s) - s.gptr ==> was[j + s.gptr] == was[j] {
      forall j | 0 <= j < |was| ensures now[j] == was[j] {
      }
    }
  }

  lemma FailedReserveBytes(s: Sb, n: nat)
    requires Valid(s) && Size(s) + n > s.maxSize
    ensures |Contents(Reserve(s, n).0)| == |Contents(s)| == Size(s)
    ensures forall j :: 0 <= j < Size(s) ==>
              Contents(Reserve(s, n).0)[j] == Contents(s)[if j + s.gptr < Size(s) then j + s.gptr else j]
  {
  }

  /** A failed `prepare` can lose data: one byte consumed of [1, 2, 3], then a
      request beyond the limit. */
  lemma FailedReserveLosesData()
    ensures var s := Sb(4, [1, 2, 3, 0], 0, 1, 1, 3, 4);
            Valid(s) && !Reserve(s, 3).1 && Contents(s) == [2, 3] && Contents(Reserve(s, 3).0) == [3, 3]
  {
  }

  /** Bytes written by the client to the start of the prepared output sequence. */
  function Fill(s: Sb, data: seq<byte>): (r: Sb)
    requires Valid(s) && |data| <= s.epptr - s.pptr
    ensures Valid(r)
  {
    s.(buffer := s.buffer[..s.pptr] + data + s.buffer[s.pptr + |data|..])
  }

  function Commit(s: Sb, n: nat): Sb
    requires Valid(s)
  {
    var k := Min(n, s.epptr - s.pptr);
    s.(pptr := s.pptr + ToInt(k), egptr := s.pptr + ToInt(k))
  }

  /** `commit` appends the clamped number of bytes exactly when that number fits in
      an `int`. */
  lemma CommitAppends(s: Sb, n: nat)
    requires Valid(s)
    ensures var k := Min(n, s.epptr - s.pptr);
            (Valid(Commit(s, n)) && Contents(Commit(s, n)) == Contents(s) + s.buffer[s.pptr..s.pptr + k])
            <==> k <= INT_MAX
  {
    hide ToInt;
    var k := Min(n, s.epptr - s.pptr);
    var t := Commit(s, n);
    ToIntExact(k);
    if k <= INT_MAX {
      assert t == s.(pptr := s.pptr + k, egptr := s.pptr + k);
      assert Contents(t) == Contents(s) + s.buffer[s.pptr..s.pptr + k];
    }
  }

  /** The number of bytes `consume(n)` asks `gbump` for, when `size` bytes of input lie
      from address `front` on. The end of the request is the pointer `gptr() + n`, which
      wraps around like every address. */
  function ConsumeCount(size: nat, front: nat, n: nat): nat {
    if (front + n) % SIZE_LIMIT > front + size then size else n
  }

  /** `consume`, while the input sequence lies at address `front`. */
  function Consume(s: Sb, front: nat, n: nat): Sb
    requires Valid(s) && front + Size(s) < SIZE_LIMIT && n < SIZE_LIMIT
  {
    s.(egptr := s.pptr, gptr := s.gptr + ToInt(ConsumeCount(Size(s), front, n)))
  }

  /** When `consume` does what it is for: a request that does not wrap must move no more
      than `INT_MAX` bytes; one that wraps is not cut down to the size, so its low 32
      bits would have to be the size by chance. */
  predicate ConsumeFits(size: nat, front: nat, n: nat) {
    if front + n < SIZE_LIMIT then Min(n, size) <= INT_MAX else ToInt(n) == size
  }

  /** `consume` removes `n` bytes from the front, or all there are, exactly then. */
  lemma ConsumeRemoves(s: Sb, front: nat, n: nat)
    requires Valid(s) && front + Size(s) < SIZE_LIMIT && n < SIZE_LIMIT
    ensures (Valid(Consume(s, front, n)) && Contents(Consume(s, front, n)) == Contents(s)[Min(n, Size(s))..])
       <==> ConsumeFits(Size(s), front, n)
  {
    hide ToInt;
    var t := Consume(s, front, n);
    ConsumeCounts(Size(s), front, n);
    if ConsumeFits(Size(s), front, n) {
      assert Contents(t) == Contents(s)[Min(n, Size(s))..];
    }
  }

  lemma ConsumeCounts(size: nat, front: nat, n: nat)
    requires front + size < SIZE_LIMIT && n < SIZE_LIMIT
    ensures ToInt(ConsumeCount(size, front, n)) == Min(n, size) <==> ConsumeFits(size, front, n)
  {
    if front + n < SIZE_LIMIT {
      ToIntExact(Min(n, size));
    } else {
      assert (front + n) % SIZE_LIMIT == front + n - SIZE_LIMIT;
    }
  }

  /** Consuming "everything" by the largest request there is brings a byte already
      consumed back; on a queue of which nothing has been consumed, the get position
      leaves the vector. */
  lemma WrappingConsume(front: nat)
    requires 0 < front < SIZE_LIMIT - 4
    ensures var s := Sb(4, [1, 2, 3, 0], 0, 1, 1, 3, 4);
            && Valid(s) && Contents(s) == [2, 3]
            && Valid(Consume(s, front, SIZE_LIMIT - 1))
            && Contents(Consume(s, front, SIZE_LIMIT - 1)) == [1, 2, 3]
    ensures var s := Sb(4, [1, 2, 3, 0], 0, 0, 0, 3, 4);
            Valid(s) && Consume(s, front, SIZE_LIMIT - 1).gptr == -1
  {
    assert (front + (SIZE_LIMIT - 1)) % SIZE_LIMIT == front - 1;
    assert ToInt(SIZE_LIMIT - 1) == -1;
  }

  /** Consuming 2^31 bytes in one go moves the get position out of the vector. */
  lemma HugeConsume(front: nat)
    requires front < SIZE_LIMIT - 0x8000_0000
    ensures var n := 0x8000_0000;
            var s := Sb(n, Zeros(n), 0, 0, 0, n, n);
            Valid(s) && |Contents(s)| == n && Consume(s, front, n).gptr == -n
  {
    assert ToInt(0x8000_0000) == -0x8000_0000;
  }

  function Underflow(s: Sb): (r: (Sb, Option<byte>))
    requires Valid(s)
    ensures Valid(r.0) && r.0.maxSize == s.maxSize
  {
    if s.gptr < s.pptr then (s.(egptr := s.pptr), Some(s.buffer[s.gptr])) else (s, None)
  }

  /** How much `overflow` asks `reserve` for when the put area is full. */
  function OverflowRequest(s: Sb): (r: nat)
    requires Valid(s)
    ensures r >= 1
  {
    if Size(s) < s.maxSize && s.maxSize - Size(s) < BUFFER_DELTA then s.maxSize - Size(s) else BUFFER_DELTA
  }

  /** Storing one character at the put position. */
  function Put(s: Sb, c: byte): (r: Sb)
    requires Valid(s) && s.pptr < s.epptr
    ensures Valid(r) && r.maxSize == s.maxSize
  {
    s.(buffer := s.buffer[s.pptr := c], pptr := s.pptr + 1)
  }

  lemma PutAppends(s: Sb, c: byte)
    requires Valid(s) && s.pptr < s.epptr
    ensures Contents(Put(s, c)) == Contents(s) + [c]
  {
  }

  /** `overflow(c)`; `None` is the end-of-file value. */
  function Overflow(s: Sb, c: Option<byte>): (r: (Sb, bool))
    requires Valid(s)
    ensures Valid(r.0) && r.0.maxSize == s.maxSize
  {
    if c.None? then (s, true)
    else if s.pptr < s.epptr then (Put(s, c.value), true)
    else
      ReserveKeeps(s, OverflowRequest(s));
      var (t, ok) := Reserve(s, OverflowRequest(s));
      if ok then (Put(t, c.value), true) else (t, false)
  }

  /** Overflowing with a character fails exactly when the queue holds `max_size`
      bytes, and then nothing at all has changed; otherwise the character is appended. */
  lemma OverflowAppends(s: Sb, c: byte)
    requires Valid(s)
    ensures Overflow(s, Some(c)).1 <==> Size(s) < s.maxSize
    ensures Size(s) == s.maxSize ==> Overflow(s, Some(c)).0 == s
    ensures Size(s) < s.maxSize ==> Contents(Overflow(s, Some(c)).0) == Contents(s) + [c]
  {
    hide Reserve, Contents, Put;
    if s.pptr < s.epptr {
      PutAppends(s, c);
    } else {
      ReserveKeeps(s, OverflowRequest(s));
      if Size(s) < s.maxSize {
        PutAppends(Reserve(s, OverflowRequest(s)).0, c);
      } else {
        FullReserve(s);
      }
    }
  }

  /** An `overflow` that finds the put area full makes room for 128 characters, or for all
      that the limit still allows, unless the consumed bytes free more; one that finds room
      makes none. */
  lemma OverflowRoom(s: Sb, c: byte)
    requires Valid(s) && Size(s) < s.maxSize
    ensures var t := Overflow(s, Some(c)).0;
            if s.pptr < s.epptr then t.epptr == s.epptr
            else t.epptr - t.pptr + 1 == Max(Min(128, s.maxSize - Size(s)), s.gptr)
  {
    hide Reserve;
    ReserveKeeps(s, OverflowRequest(s));
    ReserveShape(s, OverflowRequest(s));
  }

  /** A full queue starts at the front of its vector, so there is nothing to move. */
  lemma FullReserve(s: Sb)
    requires Valid(s) && Size(s) == s.maxSize
    ensures Reserve(s, OverflowRequest(s)) == (s, false)
  {
    ShiftedNothing(s);
  }

  /** After a `commit`, a `consume` or a peek at a byte, all bytes put are there to get
      without another call. */
  lemma GetAreaSynced(s: Sb, n: nat, front: nat)
    requires Valid(s) && front + Size(s) < SIZE_LIMIT && n < SIZE_LIMIT
    ensures Commit(s, n).egptr == Commit(s, n).pptr
    ensures Consume(s, front, n).egptr == Consume(s, front, n).pptr == s.pptr
    ensures Size(s) > 0 ==> Underflow(s).0.egptr == s.pptr
    ensures Underflow(s).0.(egptr := s.egptr) == s
  {
  }

  /** `read_size_helper`, for a vector of the given capacity. */
  function ReadSize(s: Sb, maxSize: nat, capacity: nat): nat
    requires Valid(s) && |s.buffer| <= capacity
  {
    Min(Max(512, capacity - Size(s)), Min(maxSize, s.maxSize - Size(s)))
  }

  /** What `read_size_helper` suggests: the most that fits the caller's bound and the limit,
      and that is at most 512 or needs no larger vector. */
  lemma ReadSizeIs(s: Sb, maxSize: nat, capacity: nat, k: nat)
    requires Valid(s) && |s.buffer| <= capacity
    ensures k <= ReadSize(s, maxSize, capacity) <==>
              k <= maxSize && Size(s) + k <= s.maxSize && (k <= 512 || Size(s) + k <= capacity)
  {
  }

  /** Preparing what `read_size_helper` suggests never fails, whatever the capacity. */
  lemma ReadSizeFits(s: Sb, maxSize: nat, capacity: nat)
    requires Valid(s) && |s.buffer| <= capacity
    ensures Reserve(s, ReadSize(s, maxSize, capacity)).1
    ensures Contents(Reserve(s, ReadSize(s, maxSize, capacity)).0) == Contents(s)
    ensures 0 < maxSize && Size(s) < s.maxSize ==> ReadSize(s, maxSize, capacity) > 0
  {
    hide Reserve, Contents;
    ReserveKeeps(s, ReadSize(s, maxSize, capacity));
  }

  /** The operations of a dynamic buffer; `front` is where the input sequence lies when
      the call is made. */
  datatype BufferOp =
    | Prepare(n: nat)
    | Write(data: seq<byte>)
    | CommitOp(n: nat)
    | ConsumeOp(n: nat, front: nat)

  /** What a client must respect: write inside the output sequence, and move no more
      bytes in one call than the conversions to `int` and the address space carry. */
  predicate Allowed(s: Sb, op: BufferOp)
    requires Valid(s)
  {
    match op
    case Prepare(_) => true
    case Write(data) => |data| <= s.epptr - s.pptr
    case CommitOp(n) => Min(n, s.epptr - s.pptr) <= INT_MAX
    case ConsumeOp(n, front) =>
      n < SIZE_LIMIT && front + Size(s) < SIZE_LIMIT && ConsumeFits(Size(s), front, n)
  }

  function Apply(s: Sb, op: BufferOp): (r: Sb)
    requires Valid(s) && Allowed(s, op)
    ensures Valid(r) && r.maxSize == s.maxSize
  {
    match op
    case Prepare(n) => Reserve(s, n).0
    case Write(data) => Fill(s, data)
    case CommitOp(n) => CommitAppends(s, n); Commit(s, n)
    case ConsumeOp(n, front) => ConsumeRemoves(s, front, n); Consume(s, front, n)
  }

  /** The object. The vector is an array that `resize` replaces, at an address the
      allocator chooses. */
  class BasicStreambuf {
    const maxSize: nat
    var buffer: array<byte>
    var base: nat
    var eback: int
    var gptr: int
    var egptr: int
    var pptr: int
    var epptr: int

    ghost function State(): Sb
      reads this, buffer
    {
      Sb(maxSize, buffer[..], eback, gptr, egptr, pptr, epptr)
    }

    /** The vector and the end of it have addresses, and the limit is a `size_t`. */
    ghost predicate Placed()
      reads this
    {
      base + buffer.Length < SIZE_LIMIT && maxSize < SIZE_LIMIT
    }

    constructor (maximumSize: nat)
      requires maximumSize < SIZE_LIMIT
      ensures maxSize == maximumSize && fresh(buffer) && Placed()
      ensures State() == Init(maximumSize)
    {
      var pend := Min(maximumSize, BUFFER_DELTA);
      maxSize := maximumSize;
      buffer := new byte[Max(pend, 1)](_ => 0);
      eback, gptr, egptr := 0, 0, 0;
      pptr, epptr := 0, pend;
      var at: nat :| at + Max(pend, 1) < SIZE_LIMIT;
      base := at;
      new;
      assert buffer[..] == Zeros(Max(pend, 1));
    }

    /** The standard library's overlapping move towards the front. */
    method MoveToFront(from: nat, n: nat)
      requires from + n <= buffer.Length
      modifies buffer
      ensures buffer[..] == old(buffer[..])[from..from + n] + old(buffer[..])[n..]
    {
      var i := 0;
      while i < n
        invariant 0 <= i <= n
        invariant forall j :: 0 <= j < i ==> buffer[j] == old(buffer[from + j])
        invariant forall j :: i <= j < buffer.Length ==> buffer[j] == old(buffer[j])
      {
        buffer[i] := buffer[from + i];
        i := i + 1;
      }
    }

    /** `std::vector::resize` to a larger size: same bytes, then zeros. */
    method Resize(n: nat)
      requires buffer.Length <= n < SIZE_LIMIT
      modifies this`buffer, this`base
      ensures fresh(buffer) && base + n < SIZE_LIMIT
      ensures buffer[..] == old(buffer[..]) + Zeros(n - old(buffer.Length))
    {
      var bigger := new byte[n](_ => 0);
      var i := 0;
      while i < buffer.Length
        invariant buffer == old(buffer) && buffer[..] == old(buffer[..])
        invariant 0 <= i <= buffer.Length <= bigger.Length == n && fresh(bigger)
        invariant forall j :: 0 <= j < i ==> bigger[j] == buffer[j]
        invariant forall j :: i <= j < n ==> bigger[j] == 0
      {
        bigger[i] := buffer[i];
        i := i + 1;
      }
      buffer := bigger;
      var at: nat :| at + n < SIZE_LIMIT;
      base := at;
    }

    /** The first half of `reserve`: shift the get area to the start of the vector. */
    method Compact()
      requires Valid(State())
      modifies buffer
      ensures buffer[..] == Shifted(old(State()))
    {
      ghost var s := State();
      if gptr > 0 {
        MoveToFront(gptr, pptr - gptr);
      } else {
        ShiftedNothing(s);
      }
    }

    method ReserveSpace(n: nat) returns (ok: bool)
      requires Valid(State()) && Placed()
      modifies this, buffer
      ensures (buffer == old(buffer) || fresh(buffer)) && Placed()
      ensures (State(), ok) == Reserve(old(State()), n)
    {
      hide Shifted, Zeros;
      var gnext, pnext, pend := gptr, pptr, epptr;
      if n <= pend - pnext {
        return true;
      }
      Compact();
      pnext := pnext - gnext;
      if n > pend - pnext {
        if n <= maxSize && pnext <= maxSize - n {
          pend := pnext + n;
          Resize(Max(pend, 1));
        } else {
          return false;
        }
      }
      eback, gptr, egptr := 0, 0, pnext;
      pptr, epptr := pnext, pend;
      return true;
    }

    /** `prepare`: on success, the output sequence is `n` bytes at `start`. */
    method Prepare(n: nat) returns (ok: bool, start: int)
      requires Valid(State()) && Placed()
      modifies this, buffer
      ensures (buffer == old(buffer) || fresh(buffer)) && Placed()
      ensures (State(), ok) == Reserve(old(State()), n)
      ensures ok <==> old(Size(State())) + n <= maxSize
      ensures ok ==> start == pptr && start + n <= buffer.Length
      ensures ok ==> Valid(State()) && Contents(State()) == old(Contents(State()))
    {
      ReserveKeeps(State(), n);
      ok := ReserveSpace(n);
      start := pptr;
    }

    /** What a client does with the prepared bytes. */
    method Write(data: seq<byte>)
      requires Valid(State()) && |data| <= epptr - pptr
      modifies buffer
      ensures State() == Fill(old(State()), data)
    {
      forall i | 0 <= i < |data| {
        buffer[pptr + i] := data[i];
      }
    }

    method CommitBytes(n: nat)
      requires Valid(State())
      modifies this`pptr, this`egptr
      ensures State() == Commit(old(State()), n)
    {
      var k := Min(n, epptr - pptr);
      pptr := pptr + ToInt(k);
      egptr := pptr;
    }

    /** `consume`: the end of the request is computed on addresses. */
    method ConsumeBytes(n: nat)
      requires Valid(State()) && Placed() && n < SIZE_LIMIT
      modifies this`eback, this`egptr, this`gptr
      ensures State() == Consume(old(State()), old(base + gptr), n)
    {
      if egptr < pptr {
        eback, egptr := 0, pptr;
      }
      var k := n;
      if (base + gptr + n) % SIZE_LIMIT > base + pptr {
        k := pptr - gptr;
      }
      gptr := gptr + ToInt(k);
    }

    method UnderflowByte() returns (c: Option<byte>)
      requires Valid(State())
      modifies this`eback, this`egptr
      ensures (State(), c) == Underflow(old(State()))
      ensures c == if old(Contents(State())) == [] then None else Some(old(Contents(State()))[0])
    {
      if gptr < pptr {
        eback, egptr := 0, pptr;
        c := Some(buffer[gptr]);
      } else {
        c := None;
      }
    }

    method OverflowByte(c: Option<byte>) returns (ok: bool)
      requires Valid(State()) && Placed()
      modifies this, buffer
      ensures (buffer == old(buffer) || fresh(buffer)) && Placed()
      ensures (State(), ok) == Overflow(old(State()), c)
    {
      hide Reserve, Contents, Put, OverflowRequest;
      if c.None? {
        return true;
      }
      ReserveKeeps(State(), OverflowRequest(State()));
      if pptr == epptr {
        ok := MakeRoom();
        if !ok {
          return;
        }
      }
      Store(c.value);
      ok := true;
    }

    /** The part of `overflow` for a full put area. */
    method MakeRoom() returns (ok: bool)
      requires Valid(State()) && Placed()
      modifies this, buffer
      ensures (buffer == old(buffer) || fresh(buffer)) && Placed()
      ensures (State(), ok) == Reserve(old(State()), OverflowRequest(old(State())))
    {
      hide Reserve;
      var bufferSize := pptr - gptr;
      if bufferSize < maxSize && maxSize - bufferSize < BUFFER_DELTA {
        ok := ReserveSpace(maxSize - bufferSize);
      } else {
        ok := ReserveSpace(BUFFER_DELTA);
      }
    }

    /** The end of `overflow`: store at the put position and move it on. */
    method Store(c: byte)
      requires Valid(State()) && pptr < epptr
      modifies this`pptr, buffer
      ensures State() == Put(old(State()), c)
    {
      buffer[pptr] := c;
      pptr := pptr + 1;
    }
  }
}
