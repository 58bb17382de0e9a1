/** `buffer_copy`: the five overloads of scatter/gather copying, each proved
    against one description of the memory it leaves behind.
  */
module BufferCopy {
  import opened Buffers

  /** Memory after the first `n` source bytes are stored at the first `n` target
      addresses, in order; the bytes are read from the memory before the call. */
  function Copied(m: seq<byte>, target: seq<nat>, source: seq<nat>, n: nat): (r: seq<byte>)
    requires n <= |target| && n <= |source|
    requires InBounds(target, |m|) && InBounds(source, |m|)
    ensures |r| == |m|
  {
    Scatter(m, target[..n], Gather(m, source[..n]))
  }

  /** How many bytes two sequences allow to be copied. */
  function Room(target: seq<Buffer>, source: seq<Buffer>): nat {
    Min(|Flat(target)|, |Flat(source)|)
  }

  /** What every overload demands for copying `n` bytes: memory that exists, and, since
      bytes move by `memcpy`, no byte that is both read and written. */
  predicate Copyable(target: seq<Buffer>, source: seq<Buffer>, memory: nat, n: nat)
    requires n <= Room(target, source)
  {
    Fits(target, memory) && Fits(source, memory) && Disjoint(Flat(target)[..n], Flat(source)[..n])
  }

  lemma CopyableInBounds(target: seq<Buffer>, source: seq<Buffer>, memory: nat, n: nat)
    requires n <= Room(target, source) && Copyable(target, source, memory, n)
    ensures InBounds(Flat(target), memory) && InBounds(Flat(source), memory)
  {
    FlatInBounds(target, memory);
    FlatInBounds(source, memory);
  }

  /** When the target buffers do not overlap one another, the copied prefix of the
      flattened target equals that prefix of the flattened source, the rest of the
      target and every byte outside it are unchanged. */
  lemma {:induction false} CopiedMeaning(m: seq<byte>, target: seq<nat>, source: seq<nat>, n: nat)
    requires n <= |target| && n <= |source|
    requires InBounds(target, |m|) && InBounds(source, |m|)
    requires Distinct(target)
    ensures Gather(Copied(m, target, source, n), target)
         == Gather(m, source)[..n] + Gather(m, target)[n..]
    ensures forall a :: 0 <= a < |m| && a !in target[..n] ==> Copied(m, target, source, n)[a] == m[a]
  {
    var m' := Copied(m, target, source, n);
    var bytes := Gather(m, source[..n]);
    ScatterGather(m, target[..n], bytes);
    forall a | 0 <= a < |m| && a !in target[..n]
      ensures m'[a] == m[a]
    {
      ScatterFrame(m, target[..n], bytes, a);
    }
    forall i | 0 <= i < |target|
      ensures m'[target[i]] == (Gather(m, source)[..n] + Gather(m, target)[n..])[i]
    {
      if i < n {
        assert target[..n][i] == target[i];
        assert Gather(m', target[..n])[i] == bytes[i];
      } else {
        ScatterFrame(m, target[..n], bytes, target[i]);
      }
    }
  }

  /** Copying a whole sequence into one contiguous buffer of `buffer_size` bytes
      leaves the flattened source there: the bytes an iterator walk reads. */
  lemma {:induction false} CopiedLinearises(m: seq<byte>, start: nat, source: seq<Buffer>)
    requires Fits(source, |m|) && start + |Flat(source)| <= |m|
    ensures InBounds(Flat(source), |m|)
    ensures var n := |Flat(source)|;
            Copied(m, Range(start, n), Flat(source), n)[start..start + n] == Gather(m, Flat(source))
  {
    hide Copied, Scatter, Flat, Gather;
    FlatInBounds(source, |m|);
    var n := |Flat(source)|;
    CopiedMeaning(m, Range(start, n), Flat(source), n);
    var m' := Copied(m, Range(start, n), Flat(source), n);
    assert m'[start..start + n] == Gather(m', Range(start, n));
    assert Gather(m, Flat(source))[..n] + Gather(m, Range(start, n))[n..] == Gather(m, Flat(source));
  }

  /** Source bytes survive a copy, so copying again changes nothing. */
  lemma {:induction false} CopiedKeepsSource(m: seq<byte>, target: seq<nat>, source: seq<nat>, n: nat)
    requires n <= |target| && n <= |source|
    requires InBounds(target, |m|) && InBounds(source, |m|)
    requires Disjoint(target[..n], source)
    ensures Gather(Copied(m, target, source, n), source) == Gather(m, source)
  {
    forall j | 0 <= j < |source|
      ensures Copied(m, target, source, n)[source[j]] == m[source[j]]
    {
      ScatterFrame(m, target[..n], Gather(m, source[..n]), source[j]);
    }
  }

  /** One more block: after the first `done` bytes, a `memcpy` of the next `k`
      bytes yields the memory for `done + k`. */
  lemma {:induction false} CopiedExtend(m: seq<byte>, target: seq<nat>, source: seq<nat>, done: nat, k: nat)
    requires done + k <= |target| && done + k <= |source|
    requires InBounds(target, |m|) && InBounds(source, |m|)
    requires Disjoint(target[..done + k], source[..done + k])
    ensures Copied(m, target, source, done + k)
         == Scatter(Copied(m, target, source, done), target[done..][..k],
                    Gather(Copied(m, target, source, done), source[done..][..k]))
  {
    var now := Copied(m, target, source, done);
    assert Gather(now, source[done..][..k]) == Gather(m, source[done..][..k]) by {
      forall j | 0 <= j < k ensures now[source[done..][..k][j]] == m[source[done..][..k][j]] {
        assert source[done..][..k][j] == source[..done + k][done + j];
        assert forall i :: 0 <= i < done ==> target[..done][i] == target[..done + k][i];
        ScatterFrame(m, target[..done], Gather(m, source[..done]), source[done + j]);
      }
    }
    assert target[..done + k] == target[..done] + target[done..][..k];
    assert Gather(m, source[..done + k]) == Gather(m, source[..done]) + Gather(m, source[done..][..k]);
    ScatterConcat(m, target[..done], Gather(m, source[..done]),
                  target[done..][..k], Gather(m, source[done..][..k]));
  }

  /** The C library's copy of `n` bytes between ranges that do not overlap. */
  method Memcpy(mem: array<byte>, dst: nat, src: nat, n: nat)
    requires dst + n <= mem.Length && src + n <= mem.Length
    requires Disjoint(Range(dst, n), Range(src, n))
    modifies mem
    ensures InBounds(Range(dst, n), mem.Length) && InBounds(Range(src, n), mem.Length)
    ensures mem[..] == Scatter(old(mem[..]), Range(dst, n), Gather(old(mem[..]), Range(src, n)))
  {
    hide Scatter, Gather, Disjoint;
    ghost var before := mem[..];
    forall i | 0 <= i < n {
      mem[dst + i] := mem[src + i];
    }
    ghost var bytes := Gather(before, Range(src, n));
    ScatterRange(before, dst, bytes);
    assert mem[..] == before[..dst] + bytes + before[dst + n..];
  }

  /** `buffer_copy_1`. */
  method CopyBuffer(mem: array<byte>, target: Buffer, source: Buffer) returns (n: nat)
    requires target.data + target.size <= mem.Length && source.data + source.size <= mem.Length
    requires var k := Min(target.size, source.size);
             Disjoint(Range(target.data, k), Range(source.data, k))
    modifies mem
    ensures n == Min(target.size, source.size)
    ensures InBounds(Range(target.data, n), mem.Length) && InBounds(Range(source.data, n), mem.Length)
    ensures mem[..] == Scatter(old(mem[..]), Range(target.data, n), Gather(old(mem[..]), Range(source.data, n)))
  {
    n := if target.size < source.size then target.size else source.size;
    if n > 0 {
      Memcpy(mem, target.data, source.data, n);
    }
  }

  /** The addresses still ahead of an iterator: from `offset` bytes into buffer `at`. */
  predicate At(bufs: seq<Buffer>, at: nat, offset: nat, done: nat) {
    && at <= |bufs|
    && (at == |bufs| ==> offset == 0)
    && (at < |bufs| ==> offset <= bufs[at].size)
    && done + |Flat(bufs[at..])| == |Flat(bufs)| + offset
    && offset <= done
    && Flat(bufs)[done - offset..] == Flat(bufs[at..])
  }

  /** The first `k` addresses ahead are those of the current buffer past the offset. */
  lemma AtHead(bufs: seq<Buffer>, at: nat, offset: nat, done: nat, k: nat)
    requires At(bufs, at, offset, done) && at < |bufs|
    requires k <= bufs[at].size - offset
    ensures done + k <= |Flat(bufs)|
    ensures Flat(bufs)[done..][..k] == Range(bufs[at].data + offset, k)
  {
    var ahead := Flat(bufs[at..]);
    assert ahead == Range(bufs[at].data, bufs[at].size) + Flat(bufs[at..][1..]);
    assert |ahead| >= bufs[at].size;
    forall i | 0 <= i < k
      ensures Flat(bufs)[done..][..k][i] == bufs[at].data + offset + i
    {
      assert Flat(bufs)[done - offset..][offset + i] == ahead[offset + i];
    }
  }

  /** Consuming `k` bytes moves within the buffer, or on to the next one. */
  lemma AtStep(bufs: seq<Buffer>, at: nat, offset: nat, done: nat, k: nat)
    requires At(bufs, at, offset, done) && at < |bufs|
    requires k <= bufs[at].size - offset
    ensures k < bufs[at].size - offset ==> At(bufs, at, offset + k, done + k)
    ensures k == bufs[at].size - offset ==> At(bufs, at + 1, 0, done + k)
  {
    assert bufs[at..][1..] == bufs[at + 1..];
    var ahead := Flat(bufs[at..]);
    assert ahead == Range(bufs[at].data, bufs[at].size) + Flat(bufs[at + 1..]);
    if k == bufs[at].size - offset {
      assert Flat(bufs)[done + k..] == Flat(bufs)[done - offset..][bufs[at].size..];
    }
  }

  lemma AtStart(bufs: seq<Buffer>)
    ensures At(bufs, 0, 0, 0)
  {
    assert bufs[0..] == bufs;
  }

  lemma DisjointParts(a: seq<nat>, b: seq<nat>, limit: nat, from: nat, k: nat)
    requires from + k <= limit <= |a| && limit <= |b|
    requires Disjoint(a[..limit], b[..limit])
    ensures Disjoint(a[from..][..k], b[from..][..k])
    ensures Disjoint(a[..from + k], b[..from + k])
  {
    assert a[from..][..k] == a[..limit][from..from + k] && b[from..][..k] == b[..limit][from..from + k];
    assert a[..from + k] == a[..limit][..from + k] && b[..from + k] == b[..limit][..from + k];
  }

  /** The block copied next does not overlap its target, since what is copied in all
      does not. */
  lemma AtDisjoint(target: seq<Buffer>, ti: nat, toff: nat, source: seq<Buffer>, si: nat, soff: nat,
                   limit: nat, done: nat, k: nat)
    requires At(target, ti, toff, done) && ti < |target| && k <= target[ti].size - toff
    requires At(source, si, soff, done) && si < |source| && k <= source[si].size - soff
    requires done + k <= limit <= Room(target, source)
    requires Disjoint(Flat(target)[..limit], Flat(source)[..limit])
    ensures Disjoint(Range(target[ti].data + toff, k), Range(source[si].data + soff, k))
    ensures Disjoint(Flat(target)[..done + k], Flat(source)[..done + k])
  {
    AtHead(target, ti, toff, done, k);
    AtHead(source, si, soff, done, k);
    DisjointParts(Flat(target), Flat(source), limit, done, k);
  }

  /** One turn of a copying loop: a block of `k` bytes moves between the current
      buffers, and both iterators are `k` bytes further on. */
  lemma BlockCopied(before: seq<byte>, now: seq<byte>, after: seq<byte>,
                    target: seq<Buffer>, ti: nat, toff: nat, source: seq<Buffer>, si: nat, soff: nat,
                    done: nat, k: nat)
    requires InBounds(Flat(target), |before|) && InBounds(Flat(source), |before|)
    requires At(target, ti, toff, done) && ti < |target| && k <= target[ti].size - toff
    requires At(source, si, soff, done) && si < |source| && k <= source[si].size - soff
    requires done + k <= Room(target, source)
    requires Disjoint(Flat(target)[..done + k], Flat(source)[..done + k])
    requires now == Copied(before, Flat(target), Flat(source), done)
    requires InBounds(Range(target[ti].data + toff, k), |now|) && InBounds(Range(source[si].data + soff, k), |now|)
    requires after == Scatter(now, Range(target[ti].data + toff, k), Gather(now, Range(source[si].data + soff, k)))
    ensures after == Copied(before, Flat(target), Flat(source), done + k)
    ensures if k == target[ti].size - toff then At(target, ti + 1, 0, done + k) else At(target, ti, toff + k, done + k)
    ensures if k == source[si].size - soff then At(source, si + 1, 0, done + k) else At(source, si, soff + k, done + k)
  {
    AtHead(target, ti, toff, done, k);
    AtHead(source, si, soff, done, k);
    CopiedExtend(before, Flat(target), Flat(source), done, k);
    AtStep(target, ti, toff, done, k);
    AtStep(source, si, soff, done, k);
  }

  lemma ProgressStart(m: seq<byte>, limit: nat, target: seq<Buffer>, source: seq<Buffer>)
    requires limit <= Room(target, source) && Copyable(target, source, |m|, limit)
    ensures Progress(m, m, limit, target, 0, 0, source, 0, 0, 0)
  {
    CopyableInBounds(target, source, |m|, limit);
    AtStart(target);
    AtStart(source);
  }

  /** The state of a loop that copies up to `limit` bytes: both iterators stand `done`
      bytes into their sequences, and memory is what copying those bytes makes it. */
  predicate Progress(before: seq<byte>, now: seq<byte>, limit: nat, target: seq<Buffer>, ti: nat, toff: nat,
                     source: seq<Buffer>, si: nat, soff: nat, done: nat)
  {
    && InBounds(Flat(target), |before|) && InBounds(Flat(source), |before|)
    && done <= limit <= Room(target, source) && Disjoint(Flat(target)[..limit], Flat(source)[..limit])
    && At(target, ti, toff, done) && At(source, si, soff, done)
    && now == Copied(before, Flat(target), Flat(source), done)
  }

  lemma ProgressBounds(before: seq<byte>, now: seq<byte>, limit: nat, target: seq<Buffer>, ti: nat, toff: nat,
                       source: seq<Buffer>, si: nat, soff: nat, done: nat)
    requires Progress(before, now, limit, target, ti, toff, source, si, soff, done)
    ensures |now| == |before|
    ensures ti <= |target| && si <= |source|
    ensures ti < |target| ==> toff <= target[ti].size && done + target[ti].size - toff <= |Flat(target)|
    ensures si < |source| ==> soff <= source[si].size && done + source[si].size - soff <= |Flat(source)|
    ensures InBounds(Flat(target), |before|) && InBounds(Flat(source), |before|)
    ensures done <= |Flat(target)| && done <= |Flat(source)|
    ensures ti == |target| ==> done == |Flat(target)|
    ensures si == |source| ==> done == |Flat(source)|
    ensures now == Copied(before, Flat(target), Flat(source), done)
  {
    if ti < |target| {
      AtHead(target, ti, toff, done, target[ti].size - toff);
    }
    if si < |source| {
      AtHead(source, si, soff, done, source[si].size - soff);
    }
  }

  /** One turn of a copying loop: `buffer_copy_1` between what is ahead of the two
      iterators, cut to at most `tsize` and `ssize` bytes. */
  method CopyBlock(mem: array<byte>, targetBuffer: Buffer, sourceBuffer: Buffer, ghost before: seq<byte>,
                   ghost limit: nat, ghost target: seq<Buffer>, ghost ti: nat, ghost toff: nat,
                   ghost source: seq<Buffer>, ghost si: nat, ghost soff: nat, ghost done: nat)
    returns (k: nat)
    requires ti < |target| && si < |source| && Fits(target, mem.Length) && Fits(source, mem.Length)
    requires Progress(before, mem[..], limit, target, ti, toff, source, si, soff, done)
    requires done + Min(targetBuffer.size, sourceBuffer.size) <= limit
    requires targetBuffer.data == target[ti].data + toff && targetBuffer.size <= target[ti].size - toff
    requires sourceBuffer.data == source[si].data + soff && sourceBuffer.size <= source[si].size - soff
    modifies mem
    ensures k == Min(targetBuffer.size, sourceBuffer.size)
    ensures if k == target[ti].size - toff
            then if k == source[si].size - soff
                 then Progress(before, mem[..], limit, target, ti + 1, 0, source, si + 1, 0, done + k)
                 else Progress(before, mem[..], limit, target, ti + 1, 0, source, si, soff + k, done + k)
            else if k == source[si].size - soff
                 then Progress(before, mem[..], limit, target, ti, toff + k, source, si + 1, 0, done + k)
                 else Progress(before, mem[..], limit, target, ti, toff + k, source, si, soff + k, done + k)
  {
    ghost var now := mem[..];
    AtDisjoint(target, ti, toff, source, si, soff, limit, done, Min(targetBuffer.size, sourceBuffer.size));
    k := CopyBuffer(mem, targetBuffer, sourceBuffer);
    BlockCopied(before, now, mem[..], target, ti, toff, source, si, soff, done, k);
  }

  /** `buffer_copy` from many buffers to many buffers, without a limit. */
  method CopyManyMany(mem: array<byte>, target: seq<Buffer>, source: seq<Buffer>) returns (total: nat)
    requires Copyable(target, source, mem.Length, Room(target, source))
    modifies mem
    ensures total == Room(target, source)
    ensures InBounds(Flat(target), mem.Length) && InBounds(Flat(source), mem.Length)
    ensures mem[..] == Copied(old(mem[..]), Flat(target), Flat(source), total)
  {
    hide Progress, Flat;
    ghost var before := mem[..];
    ghost var limit := Room(target, source);
    ProgressStart(before, limit, target, source);
    total := 0;
    var targetIter, targetOffset := 0, 0;
    var sourceIter, sourceOffset := 0, 0;
    while targetIter != |target| && sourceIter != |source|
      invariant Progress(before, mem[..], limit, target, targetIter, targetOffset,
                         source, sourceIter, sourceOffset, total)
      invariant targetIter <= |target| && sourceIter <= |source|
      decreases |target| - targetIter + (|source| - sourceIter)
    {
      ProgressBounds(before, mem[..], limit, target, targetIter, targetOffset, source, sourceIter, sourceOffset, total);
      var targetBuffer := target[targetIter].Plus(targetOffset);
      var sourceBuffer := source[sourceIter].Plus(sourceOffset);
      var copied := CopyBlock(mem, targetBuffer, sourceBuffer, before, limit,
                              target, targetIter, targetOffset, source, sourceIter, sourceOffset, total);
      total := total + copied;
      if copied == targetBuffer.size {
        targetIter, targetOffset := targetIter + 1, 0;
      } else {
        targetOffset := targetOffset + copied;
      }
      if copied == sourceBuffer.size {
        sourceIter, sourceOffset := sourceIter + 1, 0;
      } else {
        sourceOffset := sourceOffset + copied;
      }
    }
    ProgressBounds(before, mem[..], limit, target, targetIter, targetOffset, source, sourceIter, sourceOffset, total);
  }

  /** `buffer_copy` from many buffers to many buffers, at most `max` bytes. */
  method CopyManyManyLimit(mem: array<byte>, target: seq<Buffer>, source: seq<Buffer>, max: nat) returns (total: nat)
    requires Copyable(target, source, mem.Length, Min(max, Room(target, source)))
    modifies mem
    ensures total == Min(max, Room(target, source))
    ensures InBounds(Flat(target), mem.Length) && InBounds(Flat(source), mem.Length)
    ensures mem[..] == Copied(old(mem[..]), Flat(target), Flat(source), total)
  {
    hide Progress, Flat;
    ghost var before := mem[..];
    ghost var limit := Min(max, Room(target, source));
    ProgressStart(before, limit, target, source);
    total := 0;
    var targetIter, targetOffset := 0, 0;
    var sourceIter, sourceOffset := 0, 0;
    while total != max && targetIter != |target| && sourceIter != |source|
      invariant total <= max
      invariant Progress(before, mem[..], limit, target, targetIter, targetOffset,
                         source, sourceIter, sourceOffset, total)
      invariant targetIter <= |target| && sourceIter <= |source|
      decreases |target| - targetIter + (|source| - sourceIter), max - total
    {
      ProgressBounds(before, mem[..], limit, target, targetIter, targetOffset, source, sourceIter, sourceOffset, total);
      var targetBuffer := target[targetIter].Plus(targetOffset);
      var sourceBuffer := source[sourceIter].Plus(sourceOffset);
      var limited := sourceBuffer.Limit(max - total);
      var copied := CopyBlock(mem, targetBuffer, limited, before, limit,
                              target, targetIter, targetOffset, source, sourceIter, sourceOffset, total);
      total := total + copied;
      if copied == targetBuffer.size {
        targetIter, targetOffset := targetIter + 1, 0;
      } else {
        targetOffset := targetOffset + copied;
      }
      if copied == sourceBuffer.size {
        sourceIter, sourceOffset := sourceIter + 1, 0;
      } else {
        sourceOffset := sourceOffset + copied;
      }
    }
    ProgressBounds(before, mem[..], limit, target, targetIter, targetOffset, source, sourceIter, sourceOffset, total);
  }

  lemma FlatSingleton(b: Buffer)
    ensures Flat([b]) == Range(b.data, b.size)
    ensures forall k: nat {:trigger Range(b.data, k)} :: k <= b.size ==> Flat([b])[..k] == Range(b.data, k)
  {
  }

  /** `buffer_copy` from one buffer to one buffer, without a limit. */
  method CopyOneOne(mem: array<byte>, target: Buffer, source: Buffer) returns (total: nat)
    requires Copyable([target], [source], mem.Length, Room([target], [source]))
    modifies mem
    ensures total == Room([target], [source])
    ensures InBounds(Flat([target]), mem.Length) && InBounds(Flat([source]), mem.Length)
    ensures mem[..] == Copied(old(mem[..]), Flat([target]), Flat([source]), total)
  {
    hide Flat, Scatter, Disjoint;
    CopyableInBounds([target], [source], mem.Length, Room([target], [source]));
    FlatSingleton(target);
    FlatSingleton(source);
    assert [target][0] == target && [source][0] == source;
    total := CopyBuffer(mem, target, source);
  }

  /** `buffer_copy` from one buffer to one buffer, at most `max` bytes. */
  method CopyOneOneLimit(mem: array<byte>, target: Buffer, source: Buffer, max: nat) returns (total: nat)
    requires Copyable([target], [source], mem.Length, Min(max, Room([target], [source])))
    modifies mem
    ensures total == Min(max, Room([target], [source]))
    ensures InBounds(Flat([target]), mem.Length) && InBounds(Flat([source]), mem.Length)
    ensures mem[..] == Copied(old(mem[..]), Flat([target]), Flat([source]), total)
  {
    hide Flat, Scatter, Disjoint;
    CopyableInBounds([target], [source], mem.Length, Min(max, Room([target], [source])));
    FlatSingleton(target);
    FlatSingleton(source);
    assert [target][0] == target && [source][0] == source;
    var limited := source.Limit(max);
    total := CopyBuffer(mem, target, limited);
  }

  /** `buffer_copy` from many buffers to one, at most `max` bytes: the target shrinks
      from the front as it fills. */
  method CopyOneMany(mem: array<byte>, target: Buffer, source: seq<Buffer>, max: nat) returns (total: nat)
    requires Copyable([target], source, mem.Length, Min(max, Room([target], source)))
    modifies mem
    ensures total == Min(max, Room([target], source))
    ensures InBounds(Flat([target]), mem.Length) && InBounds(Flat(source), mem.Length)
    ensures mem[..] == Copied(old(mem[..]), Flat([target]), Flat(source), total)
  {
    hide Progress, Flat;
    ghost var before := mem[..];
    ghost var limit := Min(max, Room([target], source));
    ProgressStart(before, limit, [target], source);
    total := 0;
    var sourceIter := 0;
    var targetBuffer := target.Limit(max);
    ghost var room := targetBuffer.size;
    ghost var ti: nat, toff: nat, si: nat, soff: nat := 0, 0, 0, 0;
    while targetBuffer.size != 0 && sourceIter != |source|
      invariant total <= room && targetBuffer == Buffer(target.data + total, room - total)
      invariant targetBuffer.size != 0 ==> ti == 0 && toff == total && si == sourceIter && soff == 0
      invariant sourceIter <= |source| && (targetBuffer.size == 0 ==> total == room)
      invariant Progress(before, mem[..], limit, [target], ti, toff, source, si, soff, total)
      decreases |source| - sourceIter
    {
      ProgressBounds(before, mem[..], limit, [target], ti, toff, source, si, soff, total);
      FlatSingleton(target);
      var sourceBuffer := source[sourceIter];
      var copied := CopyBlock(mem, targetBuffer, sourceBuffer, before, limit,
                              [target], 0, total, source, sourceIter, 0, total);
      if copied == target.size - total { ti, toff := 1, 0; } else { toff := total + copied; }
      if copied == sourceBuffer.size { si, soff := sourceIter + 1, 0; } else { si, soff := sourceIter, copied; }
      total := total + copied;
      targetBuffer := targetBuffer.Plus(copied);
      sourceIter := sourceIter + 1;
    }
    ProgressBounds(before, mem[..], limit, [target], ti, toff, source, si, soff, total);
    FlatSingleton(target);
  }

  /** `buffer_copy` from one buffer to many, at most `max` bytes: the source shrinks
      from the front as it is read. */
  method CopyManyOne(mem: array<byte>, target: seq<Buffer>, source: Buffer, max: nat) returns (total: nat)
    requires Copyable(target, [source], mem.Length, Min(max, Room(target, [source])))
    modifies mem
    ensures total == Min(max, Room(target, [source]))
    ensures InBounds(Flat(target), mem.Length) && InBounds(Flat([source]), mem.Length)
    ensures mem[..] == Copied(old(mem[..]), Flat(target), Flat([source]), total)
  {
    hide Progress, Flat;
    ghost var before := mem[..];
    ghost var limit := Min(max, Room(target, [source]));
    ProgressStart(before, limit, target, [source]);
    total := 0;
    var targetIter := 0;
    var sourceBuffer := source.Limit(max);
    ghost var room := sourceBuffer.size;
    ghost var ti: nat, toff: nat, si: nat, soff: nat := 0, 0, 0, 0;
    while sourceBuffer.size != 0 && targetIter != |target|
      invariant total <= room && sourceBuffer == Buffer(source.data + total, room - total)
      invariant sourceBuffer.size != 0 ==> si == 0 && soff == total && ti == targetIter && toff == 0
      invariant targetIter <= |target| && (sourceBuffer.size == 0 ==> total == room)
      invariant Progress(before, mem[..], limit, target, ti, toff, [source], si, soff, total)
      decreases |target| - targetIter
    {
      ProgressBounds(before, mem[..], limit, target, ti, toff, [source], si, soff, total);
      FlatSingleton(source);
      var targetBuffer := target[targetIter];
      var copied := CopyBlock(mem, targetBuffer, sourceBuffer, before, limit,
                              target, targetIter, 0, [source], 0, total, total);
      if copied == source.size - total { si, soff := 1, 0; } else { soff := total + copied; }
      if copied == targetBuffer.size { ti, toff := targetIter + 1, 0; } else { ti, toff := targetIter, copied; }
      total := total + copied;
      sourceBuffer := sourceBuffer.Plus(copied);
      targetIter := targetIter + 1;
    }
    ProgressBounds(before, mem[..], limit, target, ti, toff, [source], si, soff, total);
    FlatSingleton(source);
  }
}
