/** Buffers as address ranges over one byte-addressed memory.

    A `mutable_buffer` or `const_buffer` is a pointer and a size. Memory is one
    array of bytes, a pointer is an index into it, and a buffer sequence is a
    `seq` of buffers. Everything about a buffer sequence is stated over the list of
    addresses it covers, in order: its flattening.
  */
module Buffers {

  type byte = x: int | 0 <= x < 256

  /** An address range: `data` is the address of the first byte. */
  datatype Buffer = Buffer(data: nat, size: nat) {

    /** `operator+` and `operator+=`: move the start, never past the end. */
    function Plus(n: nat): (r: Buffer)
      ensures r.data + r.size == data + size
      ensures r.size == if n < size then size - n else 0
    {
      var offset := if n < size then n else size;
      Buffer(data + offset, size - offset)
    }

    /** `buffer(b, max_size_in_bytes)`: keep at most the first `max` bytes. */
    function Limit(max: nat): (r: Buffer)
      ensures r.data == data && r.size <= size && r.size <= max
      ensures r.size == size || r.size == max
    {
      Buffer(data, if size < max then size else max)
    }
  }

  function Min(a: nat, b: nat): nat { if a < b then a else b }

  /** The `n` consecutive addresses from `start` on. */
  function Range(start: nat, n: nat): (r: seq<nat>)
    ensures |r| == n
    ensures forall i :: 0 <= i < n ==> r[i] == start + i
  {
    seq(n, i requires 0 <= i => start + i)
  }

  /** The flattening of a buffer sequence: all its addresses, in order. */
  function Flat(bufs: seq<Buffer>): seq<nat> {
    if bufs == [] then [] else Range(bufs[0].data, bufs[0].size) + Flat(bufs[1..])
  }

  /** Every buffer of the sequence lies inside a memory of the given size. */
  predicate Fits(bufs: seq<Buffer>, memory: nat) {
    forall i :: 0 <= i < |bufs| ==> bufs[i].data + bufs[i].size <= memory
  }

  predicate InBounds(addrs: seq<nat>, memory: nat) {
    forall i :: 0 <= i < |addrs| ==> addrs[i] < memory
  }

  predicate Disjoint(a: seq<nat>, b: seq<nat>) {
    forall i, j :: 0 <= i < |a| && 0 <= j < |b| ==> a[i] != b[j]
  }

  predicate Distinct(a: seq<nat>) {
    forall i, j :: 0 <= i < j < |a| ==> a[i] != a[j]
  }

  /** The bytes found at a list of addresses. */
  function Gather(m: seq<byte>, addrs: seq<nat>): (r: seq<byte>)
    requires InBounds(addrs, |m|)
    ensures |r| == |addrs|
    ensures forall i :: 0 <= i < |addrs| ==> r[i] == m[addrs[i]]
  {
    seq(|addrs|, i requires 0 <= i < |addrs| => m[addrs[i]])
  }

  /** Memory after the given bytes are stored at the given addresses, first to last. */
  function Scatter(m: seq<byte>, addrs: seq<nat>, bytes: seq<byte>): (r: seq<byte>)
    requires |addrs| == |bytes|
    requires InBounds(addrs, |m|)
    ensures |r| == |m|
  {
    if addrs == [] then m
    else
      var k := |addrs| - 1;
      Scatter(m, addrs[..k], bytes[..k])[addrs[k] := bytes[k]]
  }

  lemma {:induction false} FlatInBounds(bufs: seq<Buffer>, memory: nat)
    requires Fits(bufs, memory)
    ensures InBounds(Flat(bufs), memory)
  {
    if bufs != [] {
      FlatInBounds(bufs[1..], memory);
    }
  }

  /** Stores outside an address leave its byte alone. */
  lemma {:induction false} ScatterFrame(m: seq<byte>, addrs: seq<nat>, bytes: seq<byte>, a: nat)
    requires |addrs| == |bytes| && InBounds(addrs, |m|)
    requires a < |m| && forall i :: 0 <= i < |addrs| ==> addrs[i] != a
    ensures Scatter(m, addrs, bytes)[a] == m[a]
  {
    if addrs != [] {
      ScatterFrame(m, addrs[..|addrs| - 1], bytes[..|addrs| - 1], a);
    }
  }

  /** Distinct addresses hold, afterwards, exactly what was stored at them. */
  lemma {:induction false} ScatterGather(m: seq<byte>, addrs: seq<nat>, bytes: seq<byte>)
    requires |addrs| == |bytes| && InBounds(addrs, |m|)
    requires Distinct(addrs)
    ensures Gather(Scatter(m, addrs, bytes), addrs) == bytes
  {
    if addrs != [] {
      var k := |addrs| - 1;
      ScatterGather(m, addrs[..k], bytes[..k]);
      var m' := Scatter(m, addrs[..k], bytes[..k]);
      forall i | 0 <= i < k
        ensures Scatter(m, addrs, bytes)[addrs[i]] == bytes[i]
      {
        assert addrs[..k][i] == addrs[i] && bytes[..k][i] == bytes[i];
        assert Gather(m', addrs[..k])[i] == bytes[i];
      }
    }
  }

  /** Storing two lists one after the other is storing their concatenation. */
  lemma {:induction false} ScatterConcat(m: seq<byte>, a: seq<nat>, x: seq<byte>, b: seq<nat>, y: seq<byte>)
    requires |a| == |x| && |b| == |y|
    requires InBounds(a, |m|) && InBounds(b, |m|)
    ensures InBounds(a + b, |m|)
    ensures Scatter(Scatter(m, a, x), b, y) == Scatter(m, a + b, x + y)
    decreases |b|
  {
    if b == [] {
      assert a + b == a && x + y == x;
    } else {
      var k := |b| - 1;
      var (c, z) := (a + b, x + y);
      ScatterConcat(m, a, x, b[..k], y[..k]);
      assert c[..|c| - 1] == a + b[..k] && c[|c| - 1] == b[k];
      assert z[..|z| - 1] == x + y[..k] && z[|z| - 1] == y[k];
    }
  }

  /** Storing a block at consecutive addresses replaces that slice of memory. */
  lemma {:induction false} ScatterRange(m: seq<byte>, start: nat, bytes: seq<byte>)
    requires start + |bytes| <= |m|
    ensures InBounds(Range(start, |bytes|), |m|)
    ensures Scatter(m, Range(start, |bytes|), bytes) == m[..start] + bytes + m[start + |bytes|..]
    decreases |bytes|
  {
    if bytes != [] {
      var k := |bytes| - 1;
      ScatterRange(m, start, bytes[..k]);
      assert Range(start, |bytes|)[..k] == Range(start, k);
      assert Scatter(m, Range(start, |bytes|), bytes)
          == (m[..start] + bytes[..k] + m[start + k..])[start + k := bytes[k]];
    } else {
      assert m[..start] + m[start..] == m;
    }
  }

  /** `buffer_size`: the loop over the sequence adds up the length of the flattening. */
  method BufferSize(bufs: seq<Buffer>) returns (total: nat)
    ensures total == |Flat(bufs)|
  {
    total := 0;
    var i := 0;
    while i != |bufs|
      invariant 0 <= i <= |bufs|
      invariant total + |Flat(bufs[i..])| == |Flat(bufs)|
      decreases |bufs| - i
    {
      assert bufs[i..][1..] == bufs[i + 1..];
      total := total + bufs[i].size;
      i := i + 1;
    }
  }
}
