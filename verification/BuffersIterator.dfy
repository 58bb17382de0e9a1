/** `buffers_iterator`: a random-access iterator over the flattened bytes of a
    buffer sequence. Single steps and jumps are separate code in the source; here a
    jump is proved to land exactly where that many single steps would.
  */
module BuffersIterator {
  import opened Buffers

  /** Where an iterator stands: buffer index, offset in that buffer, byte position. */
  datatype Cursor = Cursor(current: nat, offset: nat, position: nat)

  /** Bytes in the first `i` buffers. */
  function Before(bufs: seq<Buffer>, i: nat): nat
    requires i <= |bufs|
  {
    if i == 0 then 0 else Before(bufs, i - 1) + bufs[i - 1].size
  }

  /** A cursor an iterator can have: never inside or at an empty buffer, never at the
      end of a buffer, and at offset zero past the last buffer. */
  predicate Proper(bufs: seq<Buffer>, c: Cursor) {
    && c.current <= |bufs|
    && (if c.current == |bufs| then c.offset == 0 else c.offset < bufs[c.current].size)
    && c.position == Before(bufs, c.current) + c.offset
  }

  /** The first non-empty buffer from `i` on, or the end. */
  function SkipEmpty(bufs: seq<Buffer>, i: nat): (r: nat)
    requires i <= |bufs|
    ensures i <= r <= |bufs|
    ensures r < |bufs| ==> bufs[r].size > 0
    ensures Before(bufs, r) == Before(bufs, i)
    decreases |bufs| - i
  {
    if i == |bufs| || bufs[i].size > 0 then i else SkipEmpty(bufs, i + 1)
  }

  /** One step forward. */
  function Next(bufs: seq<Buffer>, c: Cursor): (r: Cursor)
    requires Proper(bufs, c) && c.current < |bufs|
    ensures Proper(bufs, r) && r.position == c.position + 1
  {
    if c.offset + 1 != bufs[c.current].size then Cursor(c.current, c.offset + 1, c.position + 1)
    else Cursor(SkipEmpty(bufs, c.current + 1), 0, c.position + 1)
  }

  /** The last non-empty buffer before `i`. */
  function LastBefore(bufs: seq<Buffer>, i: nat): (r: nat)
    requires i <= |bufs| && Before(bufs, i) > 0
    ensures r < i && bufs[r].size > 0
    ensures Before(bufs, r) + bufs[r].size == Before(bufs, i)
  {
    if bufs[i - 1].size > 0 then i - 1 else LastBefore(bufs, i - 1)
  }

  /** One step back. */
  function Prev(bufs: seq<Buffer>, c: Cursor): (r: Cursor)
    requires Proper(bufs, c) && c.position > 0
    ensures Proper(bufs, r) && r.position == c.position - 1
  {
    if c.offset != 0 then Cursor(c.current, c.offset - 1, c.position - 1)
    else
      var i := LastBefore(bufs, c.current);
      Cursor(i, bufs[i].size - 1, c.position - 1)
  }

  lemma {:induction false} BeforeMonotone(bufs: seq<Buffer>, i: nat, j: nat)
    requires i <= j <= |bufs|
    ensures Before(bufs, i) <= Before(bufs, j)
    ensures i < j ==> Before(bufs, i) + bufs[i].size <= Before(bufs, j)
    decreases j
  {
    if i < j {
      BeforeMonotone(bufs, i, j - 1);
    }
  }

  /** Positions in range are exactly those before the end. */
  lemma ProperBounds(bufs: seq<Buffer>, c: Cursor)
    requires Proper(bufs, c)
    ensures c.position <= Before(bufs, |bufs|)
    ensures c.current < |bufs| <==> c.position < Before(bufs, |bufs|)
  {
    BeforeMonotone(bufs, c.current, |bufs|);
  }

  /** A position determines the buffer and the offset: comparing iterators by
      position, as the source does, compares where they stand. */
  lemma PositionDetermines(bufs: seq<Buffer>, a: Cursor, b: Cursor)
    requires Proper(bufs, a) && Proper(bufs, b)
    ensures a.position == b.position <==> a == b
  {
    if a.current < b.current {
      BeforeMonotone(bufs, a.current, b.current);
    } else if b.current < a.current {
      BeforeMonotone(bufs, b.current, a.current);
    }
  }

  /** `n` single steps forward. */
  function Nexts(bufs: seq<Buffer>, c: Cursor, n: nat): (r: Cursor)
    requires Proper(bufs, c) && c.position + n <= Before(bufs, |bufs|)
    ensures Proper(bufs, r) && r.position == c.position + n
  {
    if n == 0 then c
    else
      ProperBounds(bufs, Nexts(bufs, c, n - 1));
      Next(bufs, Nexts(bufs, c, n - 1))
  }

  /** `n` single steps back. */
  function Prevs(bufs: seq<Buffer>, c: Cursor, n: nat): (r: Cursor)
    requires Proper(bufs, c) && n <= c.position
    ensures Proper(bufs, r) && r.position == c.position - n
  {
    if n == 0 then c else Prev(bufs, Prevs(bufs, c, n - 1))
  }

  /** Increment and decrement undo each other, across any run of empty buffers. */
  lemma StepsUndo(bufs: seq<Buffer>, c: Cursor)
    requires Proper(bufs, c)
    ensures c.current < |bufs| ==> Prev(bufs, Next(bufs, c)) == c
    ensures c.position > 0 ==> Prev(bufs, c).current < |bufs| && Next(bufs, Prev(bufs, c)) == c
  {
    if c.current < |bufs| {
      PositionDetermines(bufs, Prev(bufs, Next(bufs, c)), c);
    }
    if c.position > 0 {
      ProperBounds(bufs, c);
      ProperBounds(bufs, Prev(bufs, c));
      PositionDetermines(bufs, Next(bufs, Prev(bufs, c)), c);
    }
  }

  /** Any number of steps one way is undone by as many the other way. */
  lemma RunsUndo(bufs: seq<Buffer>, c: Cursor, n: nat)
    requires Proper(bufs, c)
    ensures c.position + n <= Before(bufs, |bufs|) ==> Prevs(bufs, Nexts(bufs, c, n), n) == c
    ensures n <= c.position ==>
              c.position - n + n <= Before(bufs, |bufs|) && Nexts(bufs, Prevs(bufs, c, n), n) == c
  {
    ProperBounds(bufs, c);
    if c.position + n <= Before(bufs, |bufs|) {
      PositionDetermines(bufs, Prevs(bufs, Nexts(bufs, c, n), n), c);
    }
    if n <= c.position {
      PositionDetermines(bufs, Nexts(bufs, Prevs(bufs, c, n), n), c);
    }
  }

  lemma {:induction false} BeforeFlat(bufs: seq<Buffer>, i: nat)
    requires i <= |bufs|
    ensures Before(bufs, i) + |Flat(bufs[i..])| == |Flat(bufs)|
    ensures Flat(bufs)[Before(bufs, i)..] == Flat(bufs[i..])
  {
    if i == 0 {
      assert bufs[0..] == bufs;
    } else {
      BeforeFlat(bufs, i - 1);
      assert bufs[i - 1..][1..] == bufs[i..];
      var ahead := Flat(bufs[i - 1..]);
      assert Flat(bufs)[Before(bufs, i)..] == ahead[bufs[i - 1].size..];
    }
  }

  /** The flattening has as many bytes as all the buffers together. */
  lemma TotalIsFlat(bufs: seq<Buffer>)
    ensures Before(bufs, |bufs|) == |Flat(bufs)|
  {
    BeforeFlat(bufs, |bufs|);
  }

  /** A cursor points at the address found at its position in the flattening. */
  lemma CursorAddress(bufs: seq<Buffer>, c: Cursor)
    requires Proper(bufs, c) && c.current < |bufs|
    ensures c.position < |Flat(bufs)|
    ensures bufs[c.current].data + c.offset == Flat(bufs)[c.position]
  {
    BeforeFlat(bufs, c.current);
    assert Flat(bufs)[Before(bufs, c.current)..][c.offset] == Flat(bufs)[c.position];
  }

  /** The iterator object. `begin_` and `end_` are 0 and the length of `bufs`. */
  class BuffersIterator {
    const bufs: seq<Buffer>
    var currentBuffer: Buffer
    var currentBufferPosition: nat
    var current: nat
    var position: nat

    ghost function At(): Cursor reads this { Cursor(current, currentBufferPosition, position) }

    ghost predicate Valid()
      reads this
    {
      Proper(bufs, At()) && (current < |bufs| ==> currentBuffer == bufs[current])
    }

    /** `begin`: skip the leading empty buffers. */
    constructor Begin(buffers: seq<Buffer>)
      ensures bufs == buffers && Valid() && At() == Cursor(SkipEmpty(buffers, 0), 0, 0)
    {
      bufs := buffers;
      currentBuffer := Buffer(0, 0);
      currentBufferPosition := 0;
      current := 0;
      position := 0;
      new;
      while current != |bufs|
        invariant bufs == buffers && current <= |bufs| && currentBufferPosition == 0 && position == 0
        invariant SkipEmpty(bufs, current) == SkipEmpty(bufs, 0)
        decreases |bufs| - current
      {
        currentBuffer := bufs[current];
        if currentBuffer.size > 0 {
          break;
        }
        current := current + 1;
      }
    }

    /** `end`: add up all the sizes. */
    constructor End(buffers: seq<Buffer>)
      ensures bufs == buffers && Valid() && At() == Cursor(|buffers|, 0, Before(buffers, |buffers|))
    {
      bufs := buffers;
      currentBuffer := Buffer(0, 0);
      currentBufferPosition := 0;
      current := 0;
      position := 0;
      new;
      while current != |bufs|
        invariant bufs == buffers && current <= |bufs| && currentBufferPosition == 0
        invariant position == Before(bufs, current)
        decreases |bufs| - current
      {
        var buffer := bufs[current];
        position := position + buffer.size;
        current := current + 1;
      }
    }

    /** The copy every post-increment and `operator[]` makes first. */
    constructor Copy(other: BuffersIterator)
      requires other.Valid()
      ensures bufs == other.bufs && Valid() && At() == other.At()
    {
      bufs := other.bufs;
      currentBuffer := other.currentBuffer;
      currentBufferPosition := other.currentBufferPosition;
      current := other.current;
      position := other.position;
    }

    /** `dereference`: the byte at this position of the flattening. */
    method Dereference(mem: array<byte>) returns (b: byte)
      requires Valid() && current < |bufs| && Fits(bufs, mem.Length)
      ensures position < |Flat(bufs)| && InBounds(Flat(bufs), mem.Length)
      ensures b == mem[Flat(bufs)[position]]
    {
      CursorAddress(bufs, At());
      FlatInBounds(bufs, mem.Length);
      b := mem[currentBuffer.data + currentBufferPosition];
    }

    /** `equal` and `distance_to`. */
    method DistanceTo(other: BuffersIterator) returns (d: int, equal: bool)
      requires Valid() && other.Valid() && bufs == other.bufs
      ensures d == other.At().position - At().position
      ensures equal <==> At() == other.At()
    {
      PositionDetermines(bufs, At(), other.At());
      d := other.position - position;
      equal := position == other.position;
    }

    method Increment()
      requires Valid() && current < |bufs|
      modifies this
      ensures Valid() && At() == Next(bufs, old(At()))
    {
      position := position + 1;
      currentBufferPosition := currentBufferPosition + 1;
      if currentBufferPosition != currentBuffer.size {
        return;
      }
      ghost var from := current + 1;
      current := current + 1;
      currentBufferPosition := 0;
      while current != |bufs|
        invariant from <= current <= |bufs| && currentBufferPosition == 0
        invariant position == old(position) + 1
        invariant SkipEmpty(bufs, current) == SkipEmpty(bufs, from)
        decreases |bufs| - current
      {
        currentBuffer := bufs[current];
        if currentBuffer.size > 0 {
          return;
        }
        current := current + 1;
      }
    }

    method Decrement()
      requires Valid() && position > 0
      modifies this
      ensures Valid() && At() == Prev(bufs, old(At()))
    {
      position := position - 1;
      if currentBufferPosition != 0 {
        currentBufferPosition := currentBufferPosition - 1;
        return;
      }
      var iter: nat := current;
      while iter != 0
        invariant iter <= current && current == old(current) && currentBufferPosition == 0
        invariant position == old(position) - 1
        invariant Before(bufs, iter) == Before(bufs, current)
        invariant LastBefore(bufs, iter) == LastBefore(bufs, current)
      {
        iter := iter - 1;
        var buffer := bufs[iter];
        var bufferSize := buffer.size;
        if bufferSize > 0 {
          current := iter;
          currentBuffer := buffer;
          currentBufferPosition := bufferSize - 1;
          return;
        }
      }
    }

    /** `advance`: jump by whole buffers, in either direction. */
    method Advance(n: int)
      requires Valid() && 0 <= position + n <= Before(bufs, |bufs|)
      modifies this
      ensures Valid()
      ensures n >= 0 ==> At() == Nexts(bufs, old(At()), n)
      ensures n <= 0 ==> At() == Prevs(bufs, old(At()), -n)
    {
      ghost var from := At();
      ProperBounds(bufs, from);
      if n > 0 {
        AdvanceForward(n);
        PositionDetermines(bufs, At(), Nexts(bufs, from, n));
      } else if n < 0 {
        AdvanceBack(-n);
        PositionDetermines(bufs, At(), Prevs(bufs, from, -n));
      }
    }

    /** The forward branch of `advance`. */
    method AdvanceForward(distance: nat)
      requires Valid() && 0 < distance && current < |bufs|
      requires position + distance <= Before(bufs, |bufs|)
      modifies this
      ensures Valid() && position == old(position) + distance
    {
      var n: nat := distance;
      while true
        invariant current < |bufs| && currentBuffer == bufs[current]
        invariant currentBufferPosition <= currentBuffer.size
        invariant position == Before(bufs, current) + currentBufferPosition
        invariant position + n == old(position) + distance
        decreases |bufs| - current
      {
        var balance := currentBuffer.size - currentBufferPosition;
        if balance > n {
          position := position + n;
          currentBufferPosition := currentBufferPosition + n;
          return;
        }
        BeforeMonotone(bufs, current, |bufs|);
        n := n - balance;
        position := position + balance;
        current := current + 1;
        if current == |bufs| {
          currentBuffer := Buffer(0, 0);
          currentBufferPosition := 0;
          return;
        }
        currentBuffer := bufs[current];
        currentBufferPosition := 0;
      }
    }

    /** The backward branch of `advance`: two nested loops, the inner one skipping the
        empty buffers before the current one. */
    method AdvanceBack(distance: nat)
      requires Valid() && 0 < distance <= position
      modifies this
      ensures Valid() && position == old(position) - distance
    {
      var n: nat := distance;
      while true
        invariant current <= |bufs|
        invariant if current == |bufs| then currentBufferPosition == 0
                  else currentBuffer == bufs[current] && currentBufferPosition <= currentBuffer.size
        invariant position == Before(bufs, current) + currentBufferPosition
        invariant 0 < n <= position && position - n == old(position) - distance
        decreases current
      {
        if currentBufferPosition >= n {
          position := position - n;
          currentBufferPosition := currentBufferPosition - n;
          return;
        }
        n := n - currentBufferPosition;
        position := position - currentBufferPosition;
        if current == 0 {
          assert false;
        }
        var iter: nat := current;
        ghost var found := LastBefore(bufs, current);
        while iter != 0
          invariant iter <= current && Before(bufs, iter) == Before(bufs, current) == position
          invariant found == LastBefore(bufs, iter) && found < iter
        {
          iter := iter - 1;
          var buffer := bufs[iter];
          var bufferSize := buffer.size;
          if bufferSize > 0 {
            current := iter;
            currentBuffer := buffer;
            currentBufferPosition := bufferSize;
            break;
          }
        }
      }
    }

    /** `operator[]`: advance a copy and dereference it. */
    method Element(mem: array<byte>, difference: int) returns (b: byte)
      requires Valid() && Fits(bufs, mem.Length)
      requires 0 <= position + difference < Before(bufs, |bufs|)
      ensures position + difference < |Flat(bufs)| && InBounds(Flat(bufs), mem.Length)
      ensures b == mem[Flat(bufs)[position + difference]]
    {
      var tmp := new BuffersIterator.Copy(this);
      tmp.Advance(difference);
      ProperBounds(bufs, tmp.At());
      b := tmp.Dereference(mem);
    }
  }

  /** Walking from `buffers_begin` to `buffers_end`: as many steps as `buffer_size`
      counts bytes, and the bytes come in the order of the flattening. */
  method Walk(mem: array<byte>, bufs: seq<Buffer>) returns (bytes: seq<byte>, steps: nat)
    requires Fits(bufs, mem.Length)
    ensures InBounds(Flat(bufs), mem.Length)
    ensures steps == |Flat(bufs)| && bytes == Gather(mem[..], Flat(bufs))
  {
    hide Flat, Before, SkipEmpty;
    FlatInBounds(bufs, mem.Length);
    TotalIsFlat(bufs);
    var iter := new BuffersIterator.Begin(bufs);
    var end := new BuffersIterator.End(bufs);
    bytes, steps := [], 0;
    var distance, done := iter.DistanceTo(end);
    while !done
      invariant iter.Valid() && iter.bufs == bufs && end.Valid() && end.bufs == bufs
      invariant fresh(iter) && fresh(end) && iter != end
      invariant end.At() == Cursor(|bufs|, 0, |Flat(bufs)|)
      invariant done <==> iter.At() == end.At()
      invariant steps == iter.position == |bytes| <= |Flat(bufs)|
      invariant bytes == Gather(mem[..], Flat(bufs)[..steps])
      decreases |Flat(bufs)| - steps
    {
      ProperBounds(bufs, iter.At());
      PositionDetermines(bufs, iter.At(), end.At());
      var b := iter.Dereference(mem);
      bytes := bytes + [b];
      steps := steps + 1;
      iter.Increment();
      ProperBounds(bufs, iter.At());
      distance, done := iter.DistanceTo(end);
    }
    assert Flat(bufs)[..steps] == Flat(bufs);
  }
}
