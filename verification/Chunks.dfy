/** The accumulators' work on byte arrays: measuring the buffered chunks and copying them into one block. */
module Chunks {
  import opened Packing

  ghost function Contents(chunks: seq<array<Byte>>): (r: seq<Bytes>)
    reads chunks
    ensures |r| == |chunks|
    ensures forall i :: 0 <= i < |chunks| ==> r[i] == chunks[i][..]
  {
    seq(|chunks|, i requires 0 <= i < |chunks| reads chunks => chunks[i][..])
  }

  lemma ContentsConcat(a: seq<array<Byte>>, b: seq<array<Byte>>)
    ensures Contents(a + b) == Contents(a) + Contents(b)
  {
  }

  /**
   Go's slice of buffered chunks: the first `len` places of a backing array that is written in place, kept when the
   slice is cut back to nothing, and replaced by a larger one when it is full.
   */
  class Slice {
    var store: array<array<Byte>>
    var len: nat

    ghost predicate Valid()
      reads this
    {
      len <= store.Length
    }

    ghost function Chunks(): seq<array<Byte>>
      reads this, store
      requires Valid()
    {
      store[..len]
    }

    /** The bytes of the chunks, as they are now. */
    ghost function Group(): Packing.Group
      reads this, store, store[..]
      requires Valid()
    {
      Contents(Chunks())
    }

    twostate predicate SameOrNewStore()
      reads this
    {
      store == old(store) || fresh(store)
    }

    constructor (capacity: nat)
      ensures Valid() && Chunks() == [] && fresh(store) && store.Length == capacity
    {
      var unused := new Byte[0];
      store := new array<Byte>[capacity](_ => unused);
      len := 0;
    }

    /** A larger backing array, with the same chunks in front. */
    method Grow()
      requires Valid()
      modifies this`store
      ensures Valid() && len < store.Length && Chunks() == old(Chunks()) && fresh(store)
    {
      var unused := new Byte[0];
      var larger := new array<Byte>[2 * len + 1](_ => unused);
      for i := 0 to len
        modifies larger
        invariant larger[..i] == store[..i]
      {
        larger[i] := store[i];
      }
      store := larger;
    }

    /** Go's `append` of one chunk: in place while there is room. */
    method Add(data: array<Byte>)
      requires Valid()
      modifies this, store
      ensures Valid() && Chunks() == old(Chunks()) + [data] && Group() == old(Group()) + [data[..]]
      ensures if old(len < store.Length) then store == old(store) else fresh(store)
    {
      if len == store.Length {
        Grow();
      }
      hide Contents;
      ghost var before := Chunks();
      store[len] := data;
      len := len + 1;
      ContentsConcat(before, [data]);
    }

    /** `current[:0]` */
    method Truncate()
      requires Valid()
      modifies this`len
      ensures Valid() && Chunks() == [] && Group() == []
    {
      len := 0;
    }
  }

  /** One more block handed over, for one more group. */
  lemma HandOver(c: Config, handed: seq<array<Byte>>, data: array<Byte>, gs: seq<Group>, g: Group)
    requires Contents(handed) == Blocks(c, gs) && data[..] == Join(c, g)
    ensures Contents(handed + [data]) == Blocks(c, gs + [g])
  {
  }

  /** Go's `copy` into the part of `dst` from `at` on: it stops at the end of the shorter side. */
  method Copy(dst: array<Byte>, at: nat, src: Bytes) returns (n: nat)
    requires at <= dst.Length
    modifies dst
    ensures n == if |src| <= dst.Length - at then |src| else dst.Length - at
    ensures dst[..at] == old(dst[..at])
    ensures dst[at..at + n] == src[..n]
    ensures dst[at + n..] == old(dst[at + n..])
  {
    n := 0;
    while n < |src| && at + n < dst.Length
      invariant n <= |src| && at + n <= dst.Length
      invariant forall k :: 0 <= k < dst.Length && !(at <= k < at + n) ==> dst[k] == old(dst[k])
      invariant forall k :: 0 <= k < n ==> dst[at + k] == src[k]
    {
      dst[at + n] := src[n];
      n := n + 1;
    }
  }

  /** `currentBufferLen`: the length of the block the chunks would make, or minus a separator without chunks. */
  method CurrentBufferLen(c: Config, current: Slice) returns (total: int)
    requires current.Valid()
    ensures total == BufferLen(c, current.Group())
    ensures total == if current.len == 0 then -|c.separator| else |Join(c, current.Group())|
  {
    ghost var g := current.Group();
    total := 0;
    for i := 0 to current.len
      invariant total == Span(c, g[..i])
    {
      total := total + current.store[i].Length;
      total := total + |c.separator|;
      assert g[..i + 1] == g[..i] + [g[i]];
      BufferLenSnoc(c, g[..i], g[i]);
    }
    assert g[..current.len] == g;
    total := total - |c.separator|;
    BufferLenIsBlockLen(c, g);
  }

  /** What has been copied before the chunks that are left: each chunk so far with its separator. */
  ghost function Trail(c: Config, g: Group): Bytes {
    if g == [] then [] else Join(c, g) + c.separator
  }

  /** The bytes in place before chunk `i` is copied. */
  ghost function Filled(c: Config, g: Group, i: nat): Bytes
    requires i <= |g|
  {
    if i < |g| then Trail(c, g[..i]) else Join(c, g)
  }

  lemma TrailStep(c: Config, g: Group, i: nat)
    requires i < |g|
    ensures Filled(c, g, i + 1) == Filled(c, g, i) + g[i] + if i + 1 < |g| then c.separator else []
    ensures |Filled(c, g, i + 1)| <= BufferLen(c, g)
  {
    assert g[..i + 1] == g[..i] + [g[i]];
    JoinSnoc(c, g[..i], g[i]);
    BufferLenIsBlockLen(c, g[..i + 1]);
    BufferLenIsBlockLen(c, g);
    if i + 1 < |g| {
      assert g[..i + 2] == g[..i + 1] + [g[i + 1]];
      BufferLenSnoc(c, g[..i + 1], g[i + 1]);
      BufferLenPart(c, g[..i + 2], g[i + 2..]);
      assert g == g[..i + 2] + g[i + 2..];
    } else {
      assert g[..i + 1] == g;
    }
  }

  /** A `copy` at the write position, with room for all of it: the position moves past the bytes written. */
  method Write(dst: array<Byte>, position: nat, src: Bytes) returns (end: nat)
    requires position + |src| <= dst.Length
    modifies dst
    ensures end == position + |src|
    ensures dst[..end] == old(dst[..position]) + src
  {
    var n := Copy(dst, position, src);
    end := position + n;
    assert dst[..end] == dst[..position] + dst[position..end];
    assert src[..n] == src;
  }

  /**
   The copy loop of `flush`: a new array, filled to its last byte with the chunks and the separators between
   them. No `copy` is cut short, and no existing array is written.
   */
  method Merge(c: Config, current: Slice) returns (mergedData: array<Byte>)
    requires current.Valid() && current.len != 0
    ensures fresh(mergedData)
    ensures mergedData[..] == Join(c, current.Group())
  {
    ghost var g := current.Group();
    var chunksCount := current.len;
    var mergedDataLen := CurrentBufferLen(c, current);
    mergedData := new Byte[mergedDataLen];
    var position: nat := 0;
    hide Filled, Join, BufferLen, Contents;
    for i := 0 to chunksCount
      modifies mergedData
      invariant position == |Filled(c, g, i)| <= mergedDataLen
      invariant mergedData[..position] == Filled(c, g, i)
    {
      TrailStep(c, g, i);
      position := Write(mergedData, position, current.store[i][..]);
      var isLastChunk := i >= chunksCount - 1;
      if !isLastChunk {
        position := Write(mergedData, position, c.separator);
      }
    }
    assert mergedData[..mergedDataLen] == mergedData[..];
  }
}
