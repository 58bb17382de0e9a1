/** `dynamic_string_buffer` and `dynamic_vector_buffer` (the same code over a string
    and over a vector), and their observational equality with `basic_streambuf`.
  */
module DynamicBuffer {
  import opened Buffers
  import opened Streambuf

  /** A snapshot: the backing string, the size of the input sequence, the limit. */
  datatype Db = Db(text: seq<byte>, size: nat, maxSize: nat)

  predicate Sound(d: Db) { d.size <= |d.text| }

  function Data(d: Db): seq<byte>
    requires Sound(d)
  {
    d.text[..d.size]
  }

  function Resized(text: seq<byte>, n: nat): (r: seq<byte>)
    ensures |r| == n
    ensures forall i :: 0 <= i < n ==> r[i] == if i < |text| then text[i] else 0
  {
    if n <= |text| then text[..n] else text + Zeros(n - |text|)
  }

  function DbPrepare(d: Db, n: nat): (Db, bool) {
    if d.size > d.maxSize || d.maxSize - d.size < n then (d, false)
    else (d.(text := Resized(d.text, d.size + n)), true)
  }

  function DbFill(d: Db, data: seq<byte>): Db
    requires d.size + |data| <= |d.text|
  {
    d.(text := d.text[..d.size] + data + d.text[d.size + |data|..])
  }

  function DbCommit(d: Db, n: nat): Db
    requires Sound(d)
  {
    var size := d.size + Min(n, |d.text| - d.size);
    Db(Resized(d.text, size), size, d.maxSize)
  }

  function DbConsume(d: Db, n: nat): Db
    requires Sound(d)
  {
    var k := Min(n, d.size);
    Db(d.text[k..], d.size - k, d.maxSize)
  }

  /** The adapter object; the container it refers to is the field `text`. */
  class DynamicBuffer {
    var text: seq<byte>
    var size: nat
    const maxSize: nat

    ghost function State(): Db reads this { Db(text, size, maxSize) }

    constructor (existing: seq<byte>, maximumSize: nat)
      ensures State() == Db(existing, |existing|, maximumSize)
    {
      text := existing;
      size := |existing|;
      maxSize := maximumSize;
    }

    method Prepare(n: nat) returns (ok: bool, start: nat)
      requires Sound(State())
      modifies this
      ensures (State(), ok) == DbPrepare(old(State()), n)
      ensures ok <==> old(size) + n <= maxSize
      ensures !ok ==> State() == old(State())
      ensures ok ==> start == size && |text| == size + n && text[..size] == old(text)[..size]
    {
      start := size;
      if size > maxSize || maxSize - size < n {
        return false, start;
      }
      text := Resized(text, size + n);
      ok := true;
    }

    method Write(data: seq<byte>)
      requires Sound(State()) && size + |data| <= |text|
      modifies this`text
      ensures State() == DbFill(old(State()), data)
    {
      text := text[..size] + data + text[size + |data|..];
    }

    method Commit(n: nat)
      requires Sound(State())
      modifies this
      ensures State() == DbCommit(old(State()), n)
      ensures Data(State()) == old(text)[..old(size) + Min(n, |old(text)| - old(size))]
    {
      size := size + Min(n, |text| - size);
      text := Resized(text, size);
    }

    method Consume(n: nat)
      requires Sound(State())
      modifies this
      ensures State() == DbConsume(old(State()), n)
      ensures Data(State()) == old(Data(State()))[Min(n, old(size))..]
    {
      var consumeLength := Min(n, size);
      text := text[consumeLength..];
      size := size - consumeLength;
    }
  }

  // ------------------------------------------------------------------ equality

  /** The reference queue: its contents, the bytes the client has written since the
      last `prepare`, and the room that `prepare` made. */
  datatype Queue = Queue(contents: seq<byte>, written: seq<byte>, room: nat, maxSize: nat)

  /** A legal step: each prepare fits, writes stay inside the prepared room, a commit
      takes only bytes written since, and the amounts moved survive the conversions and the
      address arithmetic of a streambuf. */
  predicate Legal(q: Queue, op: BufferOp) {
    match op
    case Prepare(n) => |q.contents| + n <= q.maxSize
    case Write(data) => |data| <= q.room
    case CommitOp(n) => n <= |q.written| && n <= INT_MAX
    case ConsumeOp(n, front) =>
      n < SIZE_LIMIT && front + |q.contents| < SIZE_LIMIT && ConsumeFits(|q.contents|, front, n)
  }

  function QueueStep(q: Queue, op: BufferOp): Queue
    requires Legal(q, op)
  {
    match op
    case Prepare(n) => q.(written := [], room := n)
    case Write(data) =>
      q.(written := if |data| < |q.written| then data + q.written[|data|..] else data)
    case CommitOp(n) => q.(contents := q.contents + q.written[..n], written := [], room := 0)
    case ConsumeOp(n, _) => q.(contents := q.contents[Min(n, |q.contents|)..])
  }

  /** How a streambuf represents the reference queue. */
  predicate Streams(s: Sb, q: Queue) {
    && Valid(s) && s.maxSize == q.maxSize
    && Contents(s) == q.contents
    && |q.written| <= q.room <= s.epptr - s.pptr
    && s.buffer[s.pptr..s.pptr + |q.written|] == q.written
  }

  /** How a dynamic buffer represents it. */
  predicate Adapts(d: Db, q: Queue) {
    && Sound(d) && d.maxSize == q.maxSize
    && Data(d) == q.contents
    && |d.text| == d.size + q.room && |q.written| <= q.room
    && d.text[d.size..d.size + |q.written|] == q.written
  }

  /** A legal step is one the streambuf allows. */
  lemma LegalAllowed(s: Sb, q: Queue, op: BufferOp)
    requires Streams(s, q) && Legal(q, op)
    ensures Allowed(s, op)
  {
  }

  function DbStep(d: Db, q: Queue, op: BufferOp): Db
    requires Adapts(d, q) && Legal(q, op)
  {
    match op
    case Prepare(n) => DbPrepare(d, n).0
    case Write(data) => DbFill(d, data)
    case CommitOp(n) => DbCommit(d, n)
    case ConsumeOp(n, _) => DbConsume(d, n)
  }

  lemma SlicePrefix(a: seq<byte>, from: nat, w: seq<byte>, n: nat)
    requires from + |w| <= |a| && a[from..from + |w|] == w && n <= |w|
    ensures a[from..from + n] == w[..n]
  {
    assert a[from..from + n] == a[from..from + |w|][..n];
  }

  /** Overwriting the start of a region that already begins with `w`. */
  lemma SpliceWritten(a: seq<byte>, from: nat, w: seq<byte>, data: seq<byte>)
    requires from + |w| <= |a| && from + |data| <= |a| && a[from..from + |w|] == w
    ensures var b := a[..from] + data + a[from + |data|..];
            var v := if |data| < |w| then data + w[|data|..] else data;
            b[from..from + |v|] == v
  {
    var b := a[..from] + data + a[from + |data|..];
    var v := if |data| < |w| then data + w[|data|..] else data;
    forall i | 0 <= i < |v| ensures b[from + i] == v[i] {
      if i >= |data| {
        assert b[from + i] == a[from + i] == a[from..from + |w|][i];
      }
    }
  }

  lemma StreamsWrite(s: Sb, q: Queue, data: seq<byte>)
    requires Streams(s, q) && |data| <= q.room
    ensures Streams(Fill(s, data), QueueStep(q, Write(data)))
  {
    SpliceWritten(s.buffer, s.pptr, q.written, data);
    assert Contents(Fill(s, data)) == Contents(s);
  }

  /** The streambuf follows the reference queue step by step, and no legal prepare throws. */
  lemma StreamsStep(s: Sb, q: Queue, op: BufferOp)
    requires Streams(s, q) && Legal(q, op)
    ensures Allowed(s, op) && Streams(Apply(s, op), QueueStep(q, op))
    ensures op.Prepare? ==> Reserve(s, op.n).1
  {
    hide ToInt, Reserve, ConsumeFits;
    LegalAllowed(s, q, op);
    match op
    case Prepare(n) => ReserveKeeps(s, n);
    case Write(data) => StreamsWrite(s, q, data);
    case CommitOp(n) =>
      CommitAppends(s, n);
      SlicePrefix(s.buffer, s.pptr, q.written, n);
    case ConsumeOp(n, front) =>
      ConsumeRemoves(s, front, n);
  }

  lemma AdaptsWrite(d: Db, q: Queue, data: seq<byte>)
    requires Adapts(d, q) && |data| <= q.room
    ensures Adapts(DbFill(d, data), QueueStep(q, Write(data)))
  {
    SpliceWritten(d.text, d.size, q.written, data);
    assert Data(DbFill(d, data)) == Data(d);
  }

  lemma AdaptsCommit(d: Db, q: Queue, n: nat)
    requires Adapts(d, q) && n <= |q.written|
    requires Legal(q, CommitOp(n))
    ensures Adapts(DbCommit(d, n), QueueStep(q, CommitOp(n)))
  {
    SlicePrefix(d.text, d.size, q.written, n);
    assert Data(DbCommit(d, n)) == d.text[..d.size + n] == Data(d) + d.text[d.size..d.size + n];
  }

  lemma AdaptsConsume(d: Db, q: Queue, n: nat, front: nat)
    requires Adapts(d, q) && Legal(q, ConsumeOp(n, front))
    ensures Adapts(DbConsume(d, n), QueueStep(q, ConsumeOp(n, front)))
  {
    var k := Min(n, d.size);
    assert d.text[k..][d.size - k..d.size - k + |q.written|] == d.text[d.size..d.size + |q.written|];
  }

  /** So does the dynamic buffer. */
  lemma AdaptsStep(d: Db, q: Queue, op: BufferOp)
    requires Adapts(d, q) && Legal(q, op)
    ensures Adapts(DbStep(d, q, op), QueueStep(q, op))
    ensures op.Prepare? ==> DbPrepare(d, op.n).1
  {
    match op
    case Prepare(n) => assert Data(DbPrepare(d, n).0) == Data(d);
    case Write(data) => AdaptsWrite(d, q, data);
    case CommitOp(n) => AdaptsCommit(d, q, n);
    case ConsumeOp(n, front) => AdaptsConsume(d, q, n, front);
  }

  predicate LegalRun(q: Queue, ops: seq<BufferOp>)
    decreases |ops|
  {
    ops == [] || (Legal(q, ops[0]) && LegalRun(QueueStep(q, ops[0]), ops[1..]))
  }

  function QueueRun(q: Queue, ops: seq<BufferOp>): Queue
    requires LegalRun(q, ops)
    decreases |ops|
  {
    if ops == [] then q else QueueRun(QueueStep(q, ops[0]), ops[1..])
  }

  function SbRun(s: Sb, q: Queue, ops: seq<BufferOp>): (r: Sb)
    requires Streams(s, q) && LegalRun(q, ops)
    ensures Streams(r, QueueRun(q, ops))
    decreases |ops|
  {
    if ops == [] then s
    else StreamsStep(s, q, ops[0]); SbRun(Apply(s, ops[0]), QueueStep(q, ops[0]), ops[1..])
  }

  function DbRun(d: Db, q: Queue, ops: seq<BufferOp>): (r: Db)
    requires Adapts(d, q) && LegalRun(q, ops)
    ensures Adapts(r, QueueRun(q, ops))
    decreases |ops|
  {
    if ops == [] then d
    else AdaptsStep(d, q, ops[0]); DbRun(DbStep(d, q, ops[0]), QueueStep(q, ops[0]), ops[1..])
  }

  /** Both buffers, empty and with the same limit, show the same `data()` and `size()`
      after every legal run (hence after every step of one), namely those of the
      reference queue. */
  lemma {:induction false} SameObservations(maxSize: nat, ops: seq<BufferOp>)
    requires LegalRun(Queue([], [], 0, maxSize), ops)
    ensures var q := Queue([], [], 0, maxSize);
            && Streams(Init(maxSize), q) && Adapts(Db([], 0, maxSize), q)
            && Contents(SbRun(Init(maxSize), q, ops)) == QueueRun(q, ops).contents
            && Data(DbRun(Db([], 0, maxSize), q, ops)) == QueueRun(q, ops).contents
            && Size(SbRun(Init(maxSize), q, ops)) == DbRun(Db([], 0, maxSize), q, ops).size
  {
    var q := Queue([], [], 0, maxSize);
    assert Streams(Init(maxSize), q);
    var s := SbRun(Init(maxSize), q, ops);
    assert |Contents(s)| == Size(s);
  }

  /** Beyond the legal amounts the equality fails: 2^31 bytes committed in one go are
      appended to a dynamic buffer, and move a streambuf's put position out of its
      vector. */
  lemma HugeCommitDiffers()
    ensures var n := 0x8000_0000;
            var s := Sb(n, Zeros(n), 0, 0, 0, 0, n);
            var d := Db(Zeros(n), 0, n);
            && Valid(s) && Sound(d) && Contents(s) == Data(d) == []
            && Commit(s, n).pptr == -n && DbCommit(d, n).size == n
  {
    assert ToInt(0x8000_0000) == -0x8000_0000;
  }

  /** And the largest request empties a dynamic buffer, while a streambuf with the same
      contents gets a consumed byte back. */
  lemma WrappingConsumeDiffers(front: nat)
    requires 0 < front < SIZE_LIMIT - 4
    ensures var n := SIZE_LIMIT - 1;
            var s := Sb(4, [1, 2, 3, 0], 0, 1, 1, 3, 4);
            var d := Db([2, 3], 2, 4);
            && Valid(s) && Sound(d) && Contents(s) == Data(d) == [2, 3]
            && Valid(Consume(s, front, n)) && Contents(Consume(s, front, n)) == [1, 2, 3]
            && Data(DbConsume(d, n)) == []
  {
    WrappingConsume(front);
  }
}
