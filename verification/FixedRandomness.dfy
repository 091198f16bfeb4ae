/** The fixed-randomness feeder of the known-answer tests: crypto/oqs_adapter.py, lines 266-292. */
module FixedRandomness {
  import opened Bytes
  import opened Primitives

  function Total(requested: seq<nat>): nat {
    if requested == [] then 0 else Total(Init(requested)) + Last(requested)
  }

  function Zeros(n: nat): (r: bytes)
    ensures |r| == n && forall i | 0 <= i < n :: r[i] == 0
  {
    seq(n, _ => 0 as byte)
  }

  /** A slice as Python takes it: bounds past the end are cut off. */
  function Slice(data: bytes, from: nat, to: nat): bytes
    requires from <= to
  {
    data[Min(from, |data|)..Min(to, |data|)]
  }

  /** What the last of a list of draws gets. */
  function ChunkFor(data: bytes, requested: seq<nat>): (chunk: bytes)
    requires requested != []
    ensures |chunk| == Last(requested)
  {
    var chunk := Slice(data, Total(Init(requested)), Total(requested));
    chunk + Zeros(Last(requested) - |chunk|)
  }

  /** Everything that the draws get, in order. */
  function Delivered(data: bytes, requested: seq<nat>): bytes {
    if requested == [] then [] else Delivered(data, Init(requested)) + ChunkFor(data, requested)
  }

  /** Copies a chunk to the front of a buffer. */
  method Move(buf: array<byte>, chunk: bytes)
    requires |chunk| <= buf.Length
    modifies buf
    ensures buf[..|chunk|] == chunk && buf[|chunk|..] == old(buf[|chunk|..])
  {
    var i := 0;
    while i < |chunk|
      invariant 0 <= i <= |chunk|
      invariant buf[..i] == chunk[..i] && buf[|chunk|..] == old(buf[|chunk|..])
    {
      buf[i] := chunk[i];
      i := i + 1;
    }
  }

  class Feeder {
    const data: bytes
    var requested: seq<nat>
    /** What has been copied out, over all draws. */
    ghost var fed: bytes

    ghost predicate Valid()
      reads this
    {
      fed == Delivered(data, requested)
    }

    constructor (data: bytes)
      ensures Valid() && this.data == data && requested == []
    {
      this.data, requested, fed := data, [], [];
    }

    /** liboqs asks for n random bytes in its buffer. */
    method Draw(buf: array<byte>, n: nat)
      requires Valid() && n <= buf.Length
      modifies this, buf
      ensures Valid() && requested == old(requested) + [n]
      ensures fed == old(fed) + buf[..n]
      ensures buf[n..] == old(buf[n..])
    {
      requested := requested + [n];
      assert Init(requested) == old(requested);
      var chunk := Slice(data, Total(requested[..|requested| - 1]), Total(requested));
      if |chunk| != n {
        chunk := chunk + Zeros(n - |chunk|);
      }
      assert chunk == ChunkFor(data, requested);
      Move(buf, chunk);
      fed := fed + chunk;
    }

    /** Leaving the context: true if it raises an error of its own. */
    method Exit(failed: bool) returns (raised: bool)
      requires Valid()
      ensures raised <==> !failed && fed != data
      ensures !failed && !raised ==> fed == data && Total(requested) == |data|
    {
      raised := !failed && Total(requested) != |data|;
      DeliveredIsData(data, requested);
    }
  }

  /** The first n bytes of the data, and zeros past its end. */
  function Padded(data: bytes, n: nat): bytes {
    if n <= |data| then data[..n] else data + Zeros(n - |data|)
  }

  lemma PaddedExtends(data: bytes, m: nat, n: nat)
    requires m <= n
    ensures var chunk := Slice(data, m, n); Padded(data, m) + (chunk + Zeros(n - m - |chunk|)) == Padded(data, n)
  {
    var chunk := Slice(data, m, n);
    if n <= |data| {
      assert chunk == data[m..n] && chunk + Zeros(0) == chunk;
      assert data[..m] + data[m..n] == data[..n];
    } else if m <= |data| {
      assert chunk == data[m..] && n - m - |chunk| == n - |data|;
      assert data[..m] + data[m..] == data;
    } else {
      assert chunk == [] && chunk + Zeros(n - m) == Zeros(n - m);
      assert Zeros(m - |data|) + Zeros(n - m) == Zeros(n - |data|);
    }
  }

  /** Any draws, of any sizes, get the data from its start, without gap or repetition, and zeros only
      past its end. */
  lemma {:induction false} DeliveredShape(data: bytes, requested: seq<nat>)
    ensures Delivered(data, requested) == Padded(data, Total(requested))
  {
    if requested != [] {
      DeliveredShape(data, Init(requested));
      PaddedExtends(data, Total(Init(requested)), Total(requested));
    }
  }

  /** The check on exit is exact: the draws have got precisely the data if and only if their sizes add
      up to its length. */
  lemma DeliveredIsData(data: bytes, requested: seq<nat>)
    ensures Delivered(data, requested) == data <==> Total(requested) == |data|
  {
    DeliveredShape(data, requested);
  }
}
