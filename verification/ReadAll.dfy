/** Reading a decompressor to its end into a growing buffer (`localReadAll`, pkg/adapters/httpin/ingest_routes.go). */
module ReadAll {
  import opened Options
  import opened Packing
  import opened Chunks

  datatype Ending = EOF | Broken(code: int)

  /** How one call of `Read` behaves: how many bytes it is willing to give, and whether the last ones come with the ending. */
  datatype Turn = Turn(most: nat, eager: bool)

  /** Any reader that delivers some bytes and then ends, in any pieces; a reader out of turns gives all it can. */
  class Reader {
    var source: seq<Byte>
    var turns: seq<Turn>
    const ending: Ending

    constructor (source: seq<Byte>, turns: seq<Turn>, ending: Ending)
      ensures this.source == source && this.turns == turns && this.ending == ending
    {
      this.source := source;
      this.turns := turns;
      this.ending := ending;
    }

    /** Reads into the buffer from `at` on. It never writes elsewhere, and ends only after its last byte. */
    method Read(buf: array<Byte>, at: nat) returns (n: nat, err: Option<Ending>)
      requires at <= buf.Length
      modifies this, buf
      ensures n <= |old(source)| && at + n <= buf.Length
      ensures buf[..at] == old(buf[..at]) && buf[at..at + n] == old(source)[..n]
      ensures source == old(source)[n..]
      ensures turns == if old(turns) == [] then [] else old(turns)[1..]
      ensures err.Some? ==> err.value == ending && source == []
      ensures old(turns) == [] && err.None? ==> source != [] && n == buf.Length - at
    {
      var turn := Turn(|source|, true);
      if turns != [] {
        turn := turns[0];
        turns := turns[1..];
      }
      var offered := if turn.most < |source| then turn.most else |source|;
      n := Copy(buf, at, source[..offered]);
      assert source[..offered][..n] == source[..n];
      source := source[n..];
      err := if source == [] && turn.eager then Some(ending) else None;
    }
  }

  /**
   Whatever the pieces the reader delivers, whatever the initial size and however the buffer grows, the result is
   exactly the bytes delivered, and an error only if the reader ended with one. Terminates for every reader.
   */
  method LocalReadAll(r: Reader, initialSliceSize: nat) returns (result: seq<Byte>, err: Option<Ending>)
    modifies r
    ensures result == old(r.source)
    ensures err == if r.ending == EOF then None else Some(r.ending)
  {
    ghost var all, given := r.source, [];
    var b := new Byte[initialSliceSize];
    var len: nat := 0;
    while true
      invariant fresh(b) && len <= b.Length
      invariant b[..len] == given && given + r.source == all
      decreases |r.turns| + |r.source|, if len == b.Length then 1 else 0
    {
      ghost var left := r.source;
      var n, ended := r.Read(b, len);
      Delivered(given, left, n);
      assert b[..len + n] == b[..len] + b[len..len + n];
      given := given + left[..n];
      len := len + n;
      if ended.Some? {
        assert given + [] == given;
        return b[..len], if ended.value == EOF then None else ended;
      }
      if len == b.Length {
        assert b.Length < b.Length + 1;
        var capacity: nat :| b.Length < capacity;
        b := Grow(b, capacity);
      }
    }
  }

  lemma Delivered(done: seq<Byte>, left: seq<Byte>, n: nat)
    requires n <= |left|
    ensures (done + left[..n]) + left[n..] == done + left
  {
  }

  /** A longer buffer with the same first bytes. */
  method Grow(b: array<Byte>, capacity: nat) returns (bigger: array<Byte>)
    requires b.Length <= capacity
    ensures fresh(bigger) && bigger.Length == capacity && bigger[..b.Length] == b[..]
  {
    bigger := new Byte[capacity];
    forall k | 0 <= k < b.Length {
      bigger[k] := b[k];
    }
  }
}
