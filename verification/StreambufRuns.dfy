/** Whole runs of a `basic_streambuf`: it is a bounded first-in-first-out queue. */
module StreambufRuns {
  import opened Buffers
  import opened Options
  import opened Streambuf

  datatype Op = Buffered(op: BufferOp) | Peek | PutChar(c: Option<byte>)

  function Step(s: Sb, op: Op): (r: Sb)
    requires Valid(s) && Possible(s, op)
    ensures Valid(r) && r.maxSize == s.maxSize
  {
    match op
    case Buffered(b) => Apply(s, b)
    case Peek => Underflow(s).0
    case PutChar(c) => Overflow(s, c).0
  }

  predicate Possible(s: Sb, op: Op)
    requires Valid(s)
  {
    op.Buffered? ==> Allowed(s, op.op)
  }

  predicate AllowedRun(s: Sb, ops: seq<Op>)
    requires Valid(s)
    decreases |ops|
  {
    ops == [] || (Possible(s, ops[0]) && AllowedRun(Step(s, ops[0]), ops[1..]))
  }

  /** The state after a run. That this is a function into valid states is the
      invariant: 0 <= gptr <= egptr <= pptr <= epptr <= max_size everywhere, failed
      calls included. */
  function Run(s: Sb, ops: seq<Op>): (r: Sb)
    requires Valid(s) && AllowedRun(s, ops)
    ensures Valid(r) && r.maxSize == s.maxSize
    decreases |ops|
  {
    if ops == [] then s else Run(Step(s, ops[0]), ops[1..])
  }

  /** The bytes one operation adds at the back. */
  function Added(s: Sb, op: Op): seq<byte>
    requires Valid(s)
  {
    match op
    case Buffered(CommitOp(n)) => s.buffer[s.pptr..s.pptr + Min(n, s.epptr - s.pptr)]
    case PutChar(Some(c)) => if Size(s) < s.maxSize then [c] else []
    case _ => []
  }

  /** The bytes one operation takes from the front. */
  function Taken(s: Sb, op: Op): seq<byte>
    requires Valid(s)
  {
    match op
    case Buffered(ConsumeOp(n, _)) => Contents(s)[..Min(n, Size(s))]
    case _ => []
  }

  function AllAdded(s: Sb, ops: seq<Op>): seq<byte>
    requires Valid(s) && AllowedRun(s, ops)
    decreases |ops|
  {
    if ops == [] then [] else Added(s, ops[0]) + AllAdded(Step(s, ops[0]), ops[1..])
  }

  function AllTaken(s: Sb, ops: seq<Op>): seq<byte>
    requires Valid(s) && AllowedRun(s, ops)
    decreases |ops|
  {
    if ops == [] then [] else Taken(s, ops[0]) + AllTaken(Step(s, ops[0]), ops[1..])
  }

  /** A failed `prepare` that spoils the contents: one that fails while they do not
      repeat with period `gptr`. */
  predicate Spoils(s: Sb, op: Op)
    requires Valid(s)
  {
    op.Buffered? && op.op.Prepare? && Size(s) + op.op.n > s.maxSize && !Repeats(s)
  }

  predicate NothingSpoiled(s: Sb, ops: seq<Op>)
    requires Valid(s) && AllowedRun(s, ops)
    decreases |ops|
  {
    ops == [] || (!Spoils(s, ops[0]) && NothingSpoiled(Step(s, ops[0]), ops[1..]))
  }

  /** One operation keeps the books exactly when it does not spoil the contents: what was
      there and what came in is what went out and what is there. */
  lemma StepBalances(s: Sb, op: Op)
    requires Valid(s) && Possible(s, op)
    ensures Contents(s) + Added(s, op) == Taken(s, op) + Contents(Step(s, op)) <==> !Spoils(s, op)
  {
    hide Contents, Reserve, Overflow, Fill, Commit, Consume, Underflow, Repeats, Added, Taken;
    match op
    case Buffered(Prepare(n)) =>
      NothingMoves(s, op);
      PrepareBalances(s, n);
    case Buffered(CommitOp(n)) => CommitBalances(s, n);
    case Buffered(ConsumeOp(n, front)) => ConsumeBalances(s, n, front);
    case PutChar(Some(c)) => PutBalances(s, c);
    case _ =>
      NothingMoves(s, op);
      OthersKeep(s, op);
      Units(Contents(s));
  }

  lemma Units(c: seq<byte>)
    ensures c + [] == c && [] + c == c
  {
  }

  lemma NothingMoves(s: Sb, op: Op)
    requires Valid(s)
    requires match op
             case Buffered(b) => b.Prepare? || b.Write?
             case Peek => true
             case PutChar(c) => c.None?
    ensures Added(s, op) == [] && Taken(s, op) == []
  {
  }

  lemma OthersKeep(s: Sb, op: Op)
    requires Valid(s) && Possible(s, op)
    requires match op
             case Buffered(b) => b.Write?
             case Peek => true
             case PutChar(c) => c.None?
    ensures Contents(Step(s, op)) == Contents(s)
  {
    if op.Buffered? {
      FillKeeps(s, op.op.data);
    }
  }

  lemma CommitBalances(s: Sb, n: nat)
    requires Valid(s) && Allowed(s, CommitOp(n))
    ensures var op := Buffered(CommitOp(n));
            Contents(s) + Added(s, op) == Taken(s, op) + Contents(Step(s, op))
  {
    hide ToInt, Contents;
    CommitAppends(s, n);
    Units(Contents(Commit(s, n)));
  }

  lemma ConsumeBalances(s: Sb, n: nat, front: nat)
    requires Valid(s) && Allowed(s, ConsumeOp(n, front))
    ensures var op := Buffered(ConsumeOp(n, front));
            Contents(s) + Added(s, op) == Taken(s, op) + Contents(Step(s, op))
  {
    hide ToInt, ConsumeFits;
    ConsumeRemoves(s, front, n);
    var c := Contents(s);
    Units(c);
    assert c == c[..Min(n, Size(s))] + c[Min(n, Size(s))..];
  }

  lemma PutBalances(s: Sb, c: byte)
    requires Valid(s)
    ensures var op := PutChar(Some(c));
            Contents(s) + Added(s, op) == Taken(s, op) + Contents(Step(s, op))
  {
    hide Overflow, Contents;
    OverflowAppends(s, c);
    Units(Contents(s));
    Units(Contents(Overflow(s, Some(c)).0));
  }

  lemma PrepareBalances(s: Sb, n: nat)
    requires Valid(s)
    ensures Contents(s) + [] == [] + Contents(Reserve(s, n).0) <==> !Spoils(s, Buffered(Prepare(n)))
  {
    hide Reserve, Repeats, Contents;
    ReserveKeeps(s, n);
    if Size(s) + n > s.maxSize {
      FailedReserveContents(s, n);
    }
    Units(Contents(s));
    Units(Contents(Reserve(s, n).0));
  }

  lemma FillKeeps(s: Sb, data: seq<byte>)
    requires Valid(s) && |data| <= s.epptr - s.pptr
    ensures Contents(Fill(s, data)) == Contents(s)
  {
  }

  lemma Balances(before: seq<byte>, in1: seq<byte>, in2: seq<byte>,
                 out1: seq<byte>, out2: seq<byte>, middle: seq<byte>, after: seq<byte>)
    requires before + in1 == out1 + middle && middle + in2 == out2 + after
    ensures before + (in1 + in2) == (out1 + out2) + after
  {
    assert before + (in1 + in2) == (before + in1) + in2;
    assert (out1 + middle) + in2 == out1 + (middle + in2);
    assert out1 + (out2 + after) == (out1 + out2) + after;
  }

  /** Over any run in which no failed `prepare` spoils the contents, all bytes ever added, in order, are all
      bytes ever taken, in order, followed by the present contents. */
  lemma {:induction false} FirstInFirstOut(s: Sb, ops: seq<Op>)
    requires Valid(s) && AllowedRun(s, ops) && NothingSpoiled(s, ops)
    ensures Contents(s) + AllAdded(s, ops) == AllTaken(s, ops) + Contents(Run(s, ops))
    decreases |ops|
  {
    if ops != [] {
      var t := Step(s, ops[0]);
      var rest := ops[1..];
      StepBalances(s, ops[0]);
      FirstInFirstOut(t, rest);
      Balances(Contents(s), Added(s, ops[0]), AllAdded(t, rest),
               Taken(s, ops[0]), AllTaken(t, rest), Contents(t), Contents(Run(t, rest)));
    }
  }

  /** The bound: never more than `max_size` bytes, in any state of any run. */
  lemma NeverBeyondLimit(maxSize: nat, ops: seq<Op>)
    requires AllowedRun(Init(maxSize), ops)
    ensures |Contents(Run(Init(maxSize), ops))| <= maxSize
  {
  }

  /** Reading never goes wrong on the state: peeking shows the next byte that would be
      taken, after any run. */
  lemma PeekIsNext(s: Sb, front: nat)
    requires Valid(s)
    ensures Underflow(s).1 == if Contents(s) == [] then None else Some(Contents(s)[0])
    ensures 1 <= Size(s) ==> Taken(s, Buffered(ConsumeOp(1, front))) == [Underflow(s).1.value]
  {
  }
}
