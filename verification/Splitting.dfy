/**
 Undoing the packing: cutting a block at its separators, leftmost first and without overlap, as the consumers of
 stored objects do (pkg/app/app_several_pipes_test.go).
 */
module Splitting {
  import opened Sequences
  import opened Packing

  ghost predicate MatchAt(s: Bytes, sep: Bytes, i: int) {
    0 <= i && i + |sep| <= |s| && s[i..i + |sep|] == sep
  }

  /** Position of the leftmost separator at or after `i`, or -1. */
  ghost function IndexFrom(s: Bytes, sep: Bytes, i: nat): (r: int)
    ensures r == -1 || (MatchAt(s, sep, r) && i <= r)
    ensures forall j :: MatchAt(s, sep, j) && i <= j ==> i <= r <= j
    decreases |s| - i
  {
    if i + |sep| > |s| then -1
    else if s[i..i + |sep|] == sep then i
    else IndexFrom(s, sep, i + 1)
  }

  ghost function Index(s: Bytes, sep: Bytes): int {
    IndexFrom(s, sep, 0)
  }

  ghost function Split(s: Bytes, sep: Bytes): seq<Bytes>
    requires sep != []
    decreases |s|
  {
    var i := Index(s, sep);
    if i < 0 then [s] else [s[..i]] + Split(s[i + |sep|..], sep)
  }

  /** The first separator after the payload is the one the accumulator put there. */
  ghost predicate Clean(p: Bytes, sep: Bytes) {
    Index(p + sep, sep) == |p|
  }

  /** Every payload followed by a separator is clean, and the last one contains no separator. */
  ghost predicate CleanGroup(g: Group, sep: Bytes) {
    && (forall i :: 0 <= i < |g| - 1 ==> Clean(g[i], sep))
    && (g != [] ==> Index(g[|g| - 1], sep) < 0)
  }

  lemma IndexAfterPayload(p: Bytes, sep: Bytes, rest: Bytes)
    ensures Index(p + sep + rest, sep) == Index(p + sep, sep)
    ensures 0 <= Index(p + sep, sep) <= |p|
  {
    assert MatchAt(p + sep, sep, |p|);
    var whole, own := Index(p + sep + rest, sep), Index(p + sep, sep);
    assert (p + sep + rest)[own..own + |sep|] == (p + sep)[own..own + |sep|];
    assert MatchAt(p + sep + rest, sep, own);
    assert (p + sep)[whole..whole + |sep|] == (p + sep + rest)[whole..whole + |sep|];
    assert MatchAt(p + sep, sep, whole);
  }

  /** A clean payload contains no separator. */
  lemma CleanHasNoSeparator(p: Bytes, sep: Bytes)
    requires Clean(p, sep) && sep != []
    ensures Index(p, sep) < 0
  {
    var i := Index(p, sep);
    if i >= 0 {
      assert (p + sep)[i..i + |sep|] == p[i..i + |sep|];
      assert MatchAt(p + sep, sep, i);
    }
  }

  /** A one-byte separator that the payload does not contain makes it clean. */
  lemma OneByteSeparatorIsClean(p: Bytes, b: Byte)
    requires b !in p
    ensures Clean(p, [b])
  {
    assert MatchAt(p + [b], [b], |p|);
    var i := Index(p + [b], [b]);
    assert (p + [b])[i..i + 1] == [(p + [b])[i]];
  }

  lemma {:induction false} JoinCons(c: Config, g: Group)
    requires |g| > 1
    ensures Join(c, g) == g[0] + c.separator + Join(c, g[1..])
  {
    if |g| == 2 {
      assert g[..1] == [g[0]];
    } else {
      var front, last := g[..|g| - 1], g[|g| - 1];
      JoinCons(c, front);
      assert front[1..] == g[1..][..|g| - 2];
      assert front[0] == g[0];
      calc {
        Join(c, g);
        (g[0] + c.separator + Join(c, front[1..])) + c.separator + last;
        g[0] + c.separator + (Join(c, front[1..]) + c.separator + last);
        g[0] + c.separator + Join(c, g[1..]);
      }
    }
  }

  /** The cut of a block of two or more payloads, at its first separator. */
  lemma SplitOfJoin(c: Config, g: Group)
    requires c.separator != [] && |g| > 1
    ensures 0 <= Index(g[0] + c.separator, c.separator) <= |g[0]|
    ensures |Split(Join(c, g), c.separator)| > 0
    ensures |Split(Join(c, g), c.separator)[0]| == Index(g[0] + c.separator, c.separator)
    ensures Clean(g[0], c.separator) ==>
              Split(Join(c, g), c.separator) == [g[0]] + Split(Join(c, g[1..]), c.separator)
  {
    var rest := Join(c, g[1..]);
    JoinCons(c, g);
    IndexAfterPayload(g[0], c.separator, rest);
    assert Join(c, g)[..|g[0]|] == g[0];
    assert Join(c, g)[|g[0]| + |c.separator|..] == rest;
  }

  lemma CleanGroupTail(g: Group, sep: Bytes)
    requires |g| > 1
    ensures CleanGroup(g, sep) <==> Clean(g[0], sep) && CleanGroup(g[1..], sep)
  {
    assert forall i :: 0 <= i < |g| - 2 ==> g[1..][i] == g[i + 1];
    assert forall i :: 0 < i < |g| - 1 ==> g[i] == g[1..][i - 1];
  }

  /** Where the cut of a block first goes wrong: at some payload, inside both lists. */
  ghost predicate Diverges(a: seq<Bytes>, b: seq<Bytes>) {
    exists i :: 0 <= i < |a| && i < |b| && a[i] != b[i]
  }

  lemma SplitJoinSingle(c: Config, p: Bytes)
    requires c.separator != []
    ensures CleanGroup([p], c.separator) ==> Split(p, c.separator) == [p]
    ensures !CleanGroup([p], c.separator) ==> |Split(p, c.separator)| > 0 && Split(p, c.separator)[0] != p
  {
  }

  lemma DivergesLater(p: Bytes, a: seq<Bytes>, b: seq<Bytes>)
    requires Diverges(a, b)
    ensures Diverges([p] + a, [p] + b)
  {
    var i :| 0 <= i < |a| && i < |b| && a[i] != b[i];
    assert ([p] + a)[i + 1] != ([p] + b)[i + 1];
  }

  lemma {:induction false} SplitJoinExact(c: Config, g: Group)
    requires c.separator != [] && g != []
    ensures CleanGroup(g, c.separator) ==> Split(Join(c, g), c.separator) == g
    ensures !CleanGroup(g, c.separator) ==> Diverges(Split(Join(c, g), c.separator), g)
    decreases |g|
  {
    assert g == [g[0]] + g[1..];
    if |g| == 1 {
      SplitJoinSingle(c, g[0]);
    } else {
      SplitOfJoin(c, g);
      CleanGroupTail(g, c.separator);
      if Clean(g[0], c.separator) {
        SplitJoinExact(c, g[1..]);
        if !CleanGroup(g, c.separator) {
          DivergesLater(g[0], Split(Join(c, g[1..]), c.separator), g[1..]);
        }
      } else {
        assert Split(Join(c, g), c.separator)[0] != g[0];
      }
    }
  }

  /** Cutting a block gives back its payloads exactly when the group is clean. */
  lemma {:induction false} SplitUndoesJoin(c: Config, g: Group)
    requires c.separator != [] && g != []
    ensures Split(Join(c, g), c.separator) == g <==> CleanGroup(g, c.separator)
  {
    SplitJoinExact(c, g);
  }

  /** All the pieces of all the blocks, in order. */
  ghost function SplitAll(bs: seq<Bytes>, sep: Bytes): seq<Bytes>
    requires sep != []
  {
    if bs == [] then [] else Split(bs[0], sep) + SplitAll(bs[1..], sep)
  }

  lemma {:induction false} FlattenCons(gs: seq<Group>)
    requires gs != []
    ensures Flatten(gs) == gs[0] + Flatten(gs[1..])
  {
    assert gs == [gs[0]] + gs[1..];
    FlattenConcat([gs[0]], gs[1..]);
    FlattenSnoc([], gs[0]);
    assert [] + [gs[0]] == [gs[0]] && [] + gs[0] == gs[0];
  }

  /** Put in front of a clean group's cut, or of any pieces, more pieces do not change where lists differ. */
  lemma PrefixedPieces(cut: seq<Bytes>, g: Group, pieces: seq<Bytes>, rest: seq<Bytes>)
    ensures cut == g ==> (cut + pieces == g + rest <==> pieces == rest)
    ensures Diverges(cut, g) ==> cut + pieces != g + rest
  {
    assert (g + pieces)[|g|..] == pieces && (g + rest)[|g|..] == rest;
    if Diverges(cut, g) {
      var i :| 0 <= i < |cut| && i < |g| && cut[i] != g[i];
      assert (cut + pieces)[i] != (g + rest)[i];
    }
  }

  ghost predicate AllClean(gs: seq<Group>, sep: Bytes) {
    forall i :: 0 <= i < |gs| ==> CleanGroup(gs[i], sep)
  }

  lemma AllCleanCons(gs: seq<Group>, sep: Bytes)
    requires gs != []
    ensures AllClean(gs, sep) <==> CleanGroup(gs[0], sep) && AllClean(gs[1..], sep)
  {
    assert forall i :: 0 <= i < |gs| - 1 ==> gs[1..][i] == gs[i + 1];
    assert forall i :: 0 < i < |gs| ==> gs[i] == gs[1..][i - 1];
  }

  /** Cutting all the blocks of some groups gives back their payloads exactly when every group is clean. */
  lemma {:induction false} SplitAllExact(c: Config, gs: seq<Group>)
    requires c.separator != [] && forall i :: 0 <= i < |gs| ==> gs[i] != []
    ensures SplitAll(Blocks(c, gs), c.separator) == Flatten(gs) <==> AllClean(gs, c.separator)
  {
    hide CleanGroup, Diverges;
    if gs != [] {
      var g, rest := gs[0], gs[1..];
      SplitAllExact(c, rest);
      SplitJoinExact(c, g);
      FlattenCons(gs);
      AllCleanCons(gs, c.separator);
      assert Blocks(c, gs)[1..] == Blocks(c, rest);
      PrefixedPieces(Split(Join(c, g), c.separator), g, SplitAll(Blocks(c, rest), c.separator), Flatten(rest));
    }
  }

  /** Over a complete run: exactly when every group is clean, the stored blocks give back the accepted payloads. */
  lemma SplitUndoesRun(c: Config, ps: seq<Bytes>)
    requires c.Valid() && c.separator != []
    ensures SplitAll(Blocks(c, Pack(c, ps)), c.separator) == NonEmpty(ps)
       <==> AllClean(Pack(c, ps), c.separator)
  {
    PackIsSplit(c, ps);
    assert forall i :: 0 <= i < |Pack(c, ps)| ==> Feasible(c, Pack(c, ps)[i]);
    SplitAllExact(c, Pack(c, ps));
  }

  lemma {:induction false} GroupMember(gs: seq<Group>, i: nat, k: nat)
    requires i < |gs| && k < |gs[i]|
    ensures gs[i][k] in Flatten(gs)
  {
    if i < |gs| - 1 {
      GroupMember(gs[..|gs| - 1], i, k);
    }
  }

  /** Payloads that are clean one by one survive any grouping. */
  lemma CleanPayloadsSurvive(c: Config, gs: seq<Group>, ps: seq<Bytes>)
    requires c.separator != [] && IsSplit(c, gs, ps)
    requires forall p :: p in ps ==> Clean(p, c.separator)
    ensures SplitAll(Blocks(c, gs), c.separator) == ps
  {
    forall i | 0 <= i < |gs| ensures CleanGroup(gs[i], c.separator) {
      forall k | 0 <= k < |gs[i]| ensures Clean(gs[i][k], c.separator) && Index(gs[i][k], c.separator) < 0 {
        GroupMember(gs, i, k);
        CleanHasNoSeparator(gs[i][k], c.separator);
      }
    }
    assert forall i :: 0 <= i < |gs| ==> Feasible(c, gs[i]);
    SplitAllExact(c, gs);
  }

  /** In particular, they survive a complete run of the accumulator. */
  lemma CleanPayloadsRoundTrip(c: Config, ps: seq<Bytes>)
    requires c.Valid() && c.separator != []
    requires forall p :: p in NonEmpty(ps) ==> Clean(p, c.separator)
    ensures SplitAll(Blocks(c, Pack(c, ps)), c.separator) == NonEmpty(ps)
  {
    PackIsSplit(c, ps);
    CleanPayloadsSurvive(c, Pack(c, ps), NonEmpty(ps));
  }
}
