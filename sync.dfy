/**
 * Hot-reload state transfer: `sync_from` of every block, the trait's `sync_value` and
 * `sync_children_from` (src/blocks/mod.rs and each block file).
 *
 * A block of the freshly parsed graph (arena `cells`) takes over the runtime state of its
 * peer in the running graph (arena `oldCells`, only read). Children are paired by position,
 * the pairing stops at the shorter list, and only pairs of equal block type are synced.
 * Syncing a Named child writes to the new arena, so every function returns the new arena
 * beside its result.
 */
module Sync {
  import opened Blocks

  /** `sync_value`: the phase of an oscillator, the progress of a sequencer, else the trait's 0. */
  function SyncValue(b: Block): (v: real)
    ensures b.OscillatorBlock? ==> v == b.phase
    ensures b.SequencerBlock? ==> v == b.progress
    ensures !b.OscillatorBlock? && !b.SequencerBlock? ==> v == 0.0
  {
    match b
    case OscillatorBlock(_, phase, _) => phase
    case SequencerBlock(_, _, _, progress) => progress
    case _ => 0.0
  }

  /**
   * The block's own part of `sync_from`: an oscillator copies the phase of an oscillator
   * peer; a sequencer copies the peer's `sync_value` whatever its type (0 from a constant,
   * the phase from an oscillator); the other blocks have no state of their own.
   */
  function OwnSynced(b: Block, peer: Block): (r: Block)
    ensures Skeleton(r) == Skeleton(b) && Children(r) == Children(b)
  {
    match b
    case OscillatorBlock(f, _, wave) =>
      if TypeOf(peer) == Oscillator then OscillatorBlock(f, SyncValue(peer), wave) else b
    case SequencerBlock(notes, bpm, spacing, _) => SequencerBlock(notes, bpm, spacing, SyncValue(peer))
    case _ => b
  }

  /** What the sync of a block may assume of the two arenas. */
  ghost predicate SyncReady(cells: map<Handle, Block>, oldCells: map<Handle, Block>)
  {
    Acyclic(cells) && Resolved(cells) && Resolved(oldCells)
  }

  /**
   * `b.sync_from(peer)` for a block `b` read at `bound` in the new arena: its own state,
   * then `sync_children_from`. Returns the synced block and the new arena. Only runtime
   * state changes, and no cell at or above `bound` is written.
   */
  function Synced(cells: map<Handle, Block>, b: Block, bound: Handle, oldCells: map<Handle, Block>, peer: Block)
    : (r: (Block, map<Handle, Block>))
    requires SyncReady(cells, oldCells) && Within(b, cells, bound) && Refs(peer) <= oldCells.Keys
    ensures Skeleton(r.0) == Skeleton(b) && SameSkeletons(cells, r.1)
    ensures |Children(r.0)| == |Children(b)|
    ensures forall k :: k in cells && k >= bound ==> r.1[k] == cells[k]
    decreases bound, Size(b), 2
  {
    var own := OwnSynced(b, peer);
    var cs := Children(b);
    forall i | 0 <= i < |cs| ensures SourceRefs(cs[i]) <= Refs(b) && SourceSize(cs[i]) < Size(b) {
      ChildRefs(b, i);
      ChildrenSmaller(b, i);
    }
    forall i | 0 <= i < |Children(peer)| ensures SourceRefs(Children(peer)[i]) <= Refs(peer) {
      ChildRefs(peer, i);
    }
    var (cs', cells') := SyncedChildren(cells, cs, Children(peer), bound, Size(b), oldCells);
    WithChildrenSkeleton(own, cs');
    (WithChildren(own, cs'), cells')
  }

  /** The test of the children loop: the child and the old child have the same block type. */
  predicate SameType(cells: map<Handle, Block>, c: Source, oldCells: map<Handle, Block>, oc: Source)
  {
    && (c.Named? ==> c.handle in cells)
    && (oc.Named? ==> oc.handle in oldCells)
    && TypeOf(Inner(cells, c)) == TypeOf(Inner(oldCells, oc))
  }

  /**
   * The loop of `sync_children_from` over the zipped child lists `cs` (new) and `ocs` (old):
   * a pair is synced only when both blocks have the same type, and the loop ends with the
   * shorter list.
   */
  function SyncedChildren(cells: map<Handle, Block>, cs: seq<Source>, ocs: seq<Source>, bound: Handle,
                          limit: nat, oldCells: map<Handle, Block>)
    : (r: (seq<Source>, map<Handle, Block>))
    requires SyncReady(cells, oldCells)
    requires forall i :: 0 <= i < |cs| ==> SourceWithin(cs[i], cells, bound) && SourceSize(cs[i]) < limit
    requires forall i :: 0 <= i < |ocs| ==> SourceRefs(ocs[i]) <= oldCells.Keys
    ensures |r.0| == |cs| && SameSkeletons(cells, r.1)
    ensures forall i :: 0 <= i < |cs| ==> SourceSkeleton(r.0[i]) == SourceSkeleton(cs[i])
    ensures forall k :: k in cells && k >= bound ==> r.1[k] == cells[k]
    decreases bound, limit, 1, |cs|
  {
    if cs == [] || ocs == [] then (cs, cells)
    else
      var (c, cells1) := SyncedHead(cells, cs[0], ocs[0], bound, limit, oldCells);
      SameSkeletonsKeepInvariants(cells, cells1);
      ZipTail(cells, cells1, cs, ocs, bound, limit, oldCells);
      var (rest, cells2) := SyncedChildren(cells1, cs[1..], ocs[1..], bound, limit, oldCells);
      assert forall i :: 1 <= i < |cs| ==> ([c] + rest)[i] == rest[i - 1];
      ([c] + rest, cells2)
  }

  /**
   * One pass of the children loop: the child is synced from the old child's block when
   * their types agree, and left alone otherwise.
   */
  function SyncedHead(cells: map<Handle, Block>, c: Source, oc: Source, bound: Handle, limit: nat,
                      oldCells: map<Handle, Block>)
    : (r: (Source, map<Handle, Block>))
    requires SyncReady(cells, oldCells)
    requires SourceWithin(c, cells, bound) && SourceSize(c) < limit && SourceRefs(oc) <= oldCells.Keys
    ensures SourceSkeleton(r.0) == SourceSkeleton(c) && SameSkeletons(cells, r.1)
    ensures forall k :: k in cells && k >= bound ==> r.1[k] == cells[k]
    ensures c.Named? || !SameType(cells, c, oldCells, oc) ==> r.0 == c
    decreases bound, limit, 0
  {
    InnerWithin(cells, c);
    InnerWithin(oldCells, oc);
    if SameType(cells, c, oldCells, oc) then SyncedSource(cells, c, bound, oldCells, Inner(oldCells, oc))
    else (c, cells)
  }

  /** What the children loop needs of its lists holds again for the rest of the lists, after the first pair. */
  lemma ZipTail(cells: map<Handle, Block>, cells1: map<Handle, Block>, cs: seq<Source>, ocs: seq<Source>, bound: Handle,
                limit: nat, oldCells: map<Handle, Block>)
    requires forall i :: 0 <= i < |cs| ==> SourceWithin(cs[i], cells, bound) && SourceSize(cs[i]) < limit
    requires forall i :: 0 <= i < |ocs| ==> SourceRefs(ocs[i]) <= oldCells.Keys
    requires cs != [] && ocs != [] && cells1.Keys == cells.Keys
    ensures forall i :: 0 <= i < |cs| - 1 ==> SourceWithin(cs[1..][i], cells1, bound) && SourceSize(cs[1..][i]) < limit
    ensures forall i :: 0 <= i < |ocs| - 1 ==> SourceRefs(ocs[1..][i]) <= oldCells.Keys
  {
    forall i | 0 <= i < |cs| - 1
      ensures SourceWithin(cs[1..][i], cells1, bound) && SourceSize(cs[1..][i]) < limit
    {
      assert cs[1..][i] == cs[i + 1];
      assert SourceWithin(cs[i + 1], cells, bound);
    }
    forall i | 0 <= i < |ocs| - 1 ensures SourceRefs(ocs[1..][i]) <= oldCells.Keys {
      assert ocs[1..][i] == ocs[i + 1];
    }
  }

  /**
   * Syncing one child through its source: an owned block is synced in place; a Named
   * child's arena cell is synced and written back, and the source itself is unchanged.
   */
  function SyncedSource(cells: map<Handle, Block>, s: Source, bound: Handle, oldCells: map<Handle, Block>, peer: Block)
    : (r: (Source, map<Handle, Block>))
    requires SyncReady(cells, oldCells) && SourceWithin(s, cells, bound) && Refs(peer) <= oldCells.Keys
    ensures SourceSkeleton(r.0) == SourceSkeleton(s) && SameSkeletons(cells, r.1)
    ensures forall k :: k in cells && k >= bound ==> r.1[k] == cells[k]
    ensures s.Named? ==> r.0 == s
    decreases bound, SourceSize(s), 0
  {
    match s
    case Anonymous(b) =>
      var (b', cells') := Synced(cells, b, bound, oldCells, peer);
      (Anonymous(b'), cells')
    case Named(h) =>
      var (b', cells') := Synced(cells, cells[h], h, oldCells, peer);
      (s, cells'[h := b'])
  }

  /** The top-level `sync_from` of registry cell `h` from `peer`, with no type check at this level. */
  function SyncedCell(cells: map<Handle, Block>, h: Handle, oldCells: map<Handle, Block>, peer: Block)
    : (r: map<Handle, Block>)
    requires SyncReady(cells, oldCells) && h in cells && Refs(peer) <= oldCells.Keys
    ensures SameSkeletons(cells, r) && SyncReady(r, oldCells)
    ensures forall k :: k in cells && k > h ==> r[k] == cells[k]
  {
    var r := SyncedSource(cells, Named(h), h + 1, oldCells, peer).1;
    SameSkeletonsKeepInvariants(cells, r);
    r
  }

  /**
   * An oscillator takes the phase of an oscillator peer and keeps its own otherwise; its
   * waveform is kept either way.
   */
  lemma SyncedOscillator(cells: map<Handle, Block>, b: Block, bound: Handle, oldCells: map<Handle, Block>, peer: Block)
    requires SyncReady(cells, oldCells) && Within(b, cells, bound) && Refs(peer) <= oldCells.Keys
    requires b.OscillatorBlock?
    ensures var r := Synced(cells, b, bound, oldCells, peer).0;
      && r.OscillatorBlock? && r.wave == b.wave
      && r.phase == if peer.OscillatorBlock? then peer.phase else b.phase
  {
  }

  /**
   * A sequencer takes the peer's `sync_value` without looking at its type, and has no
   * children to sync: the result is the block with only its progress replaced, and the
   * arena is untouched.
   */
  lemma SyncedSequencer(cells: map<Handle, Block>, b: Block, bound: Handle, oldCells: map<Handle, Block>, peer: Block)
    requires SyncReady(cells, oldCells) && Within(b, cells, bound) && Refs(peer) <= oldCells.Keys
    requires b.SequencerBlock?
    ensures Synced(cells, b, bound, oldCells, peer) == (b.(progress := SyncValue(peer)), cells)
    ensures peer.ConstantBlock? ==> Synced(cells, b, bound, oldCells, peer).0.progress == 0.0
  {
  }

  /** A constant has nothing to sync. */
  lemma SyncedConstant(cells: map<Handle, Block>, b: Block, bound: Handle, oldCells: map<Handle, Block>, peer: Block)
    requires SyncReady(cells, oldCells) && Within(b, cells, bound) && Refs(peer) <= oldCells.Keys
    requires b.ConstantBlock?
    ensures Synced(cells, b, bound, oldCells, peer) == (b, cells)
  {
  }

  /**
   * The children loop leaves a child as it was when it has no partner (the zip stopped at
   * the shorter list), when the partner's type differs, or when it is a Named reference
   * (only its target cell is synced).
   */
  lemma {:induction false} SyncedChildrenKeeps(cells: map<Handle, Block>, cs: seq<Source>, ocs: seq<Source>, bound: Handle,
                                               limit: nat, oldCells: map<Handle, Block>, i: nat)
    requires SyncReady(cells, oldCells)
    requires forall j :: 0 <= j < |cs| ==> SourceWithin(cs[j], cells, bound) && SourceSize(cs[j]) < limit
    requires forall j :: 0 <= j < |ocs| ==> SourceRefs(ocs[j]) <= oldCells.Keys
    requires i < |cs|
    requires cs[i].Named? || i >= |ocs| || !SameType(cells, cs[i], oldCells, ocs[i])
    ensures SyncedChildren(cells, cs, ocs, bound, limit, oldCells).0[i] == cs[i]
    decreases |cs|
  {
    if cs != [] && ocs != [] {
      var (c, cells1) := SyncedHead(cells, cs[0], ocs[0], bound, limit, oldCells);
      SameSkeletonsKeepInvariants(cells, cells1);
      ZipTail(cells, cells1, cs, ocs, bound, limit, oldCells);
      var (rest, cells2) := SyncedChildren(cells1, cs[1..], ocs[1..], bound, limit, oldCells);
      assert SyncedChildren(cells, cs, ocs, bound, limit, oldCells).0 == [c] + rest;
      if i > 0 {
        assert cs[1..][i - 1] == cs[i];
        if i < |ocs| && !cs[i].Named? {
          assert ocs[1..][i - 1] == ocs[i];
          SameTypeStable(cells, cells1, cs[i], oldCells, ocs[i]);
        }
        SyncedChildrenKeeps(cells1, cs[1..], ocs[1..], bound, limit, oldCells, i - 1);
      }
    }
  }

  /** Syncing keeps every cell's type, so whether two blocks have the same type is stable. */
  lemma SameTypeStable(cells: map<Handle, Block>, cells1: map<Handle, Block>, c: Source,
                       oldCells: map<Handle, Block>, oc: Source)
    requires SameSkeletons(cells, cells1)
    requires Resolved(cells) && SourceRefs(c) <= cells.Keys
    ensures SameType(cells1, c, oldCells, oc) == SameType(cells, c, oldCells, oc)
  {
    if c.Named? {
      SameSkeletonSameRefs(cells[c.handle], cells1[c.handle]);
    }
  }

  /** No block refers to cell `h`. */
  ghost predicate Unreferenced(cells: map<Handle, Block>, h: Handle)
  {
    forall k :: k in cells ==> h !in Refs(cells[k])
  }

  lemma SameSkeletonsUnreferenced(c: map<Handle, Block>, d: map<Handle, Block>, h: Handle)
    requires SameSkeletons(c, d) && Unreferenced(c, h)
    ensures Unreferenced(d, h)
  {
    forall k | k in d ensures h !in Refs(d[k]) {
      SameSkeletonSameRefs(c[k], d[k]);
    }
  }

  /** No cell in `refs` reaches cell `h` through Named references. */
  ghost predicate Unreached(cells: map<Handle, Block>, refs: set<Handle>, h: Handle)
  {
    forall r :: r in refs ==> h !in Reach(cells, r)
  }

  /** A cell that no block refers to is reached from no other cell. */
  lemma {:induction false} UnreferencedUnreached(cells: map<Handle, Block>, h: Handle, k: Handle)
    requires Unreferenced(cells, h) && h != k
    ensures h !in Reach(cells, k)
    decreases k
  {
    if k in cells {
      forall r | r in Refs(cells[k]) && r < k ensures h !in Reach(cells, r) {
        UnreferencedUnreached(cells, h, r);
      }
    }
  }

  /**
   * Syncing writes only to cells reachable through Named references: a cell that none of
   * `b`'s references reaches keeps its state.
   */
  lemma {:induction false} SyncedFrame(cells: map<Handle, Block>, b: Block, bound: Handle, oldCells: map<Handle, Block>,
                                       peer: Block, h: Handle)
    requires SyncReady(cells, oldCells) && Within(b, cells, bound) && Refs(peer) <= oldCells.Keys
    requires Unreached(cells, Refs(b), h) && h in cells
    ensures Synced(cells, b, bound, oldCells, peer).1[h] == cells[h]
    decreases bound, Size(b), 2
  {
    var cs := Children(b);
    forall i | 0 <= i < |cs| ensures SourceRefs(cs[i]) <= Refs(b) && SourceSize(cs[i]) < Size(b) {
      ChildRefs(b, i);
      ChildrenSmaller(b, i);
    }
    forall i | 0 <= i < |Children(peer)| ensures SourceRefs(Children(peer)[i]) <= Refs(peer) {
      ChildRefs(peer, i);
    }
    SyncedChildrenFrame(cells, cs, Children(peer), bound, Size(b), oldCells, h);
  }

  lemma {:induction false} SyncedChildrenFrame(cells: map<Handle, Block>, cs: seq<Source>, ocs: seq<Source>, bound: Handle,
                                               limit: nat, oldCells: map<Handle, Block>, h: Handle)
    requires SyncReady(cells, oldCells)
    requires forall i :: 0 <= i < |cs| ==> SourceWithin(cs[i], cells, bound) && SourceSize(cs[i]) < limit
    requires forall i :: 0 <= i < |ocs| ==> SourceRefs(ocs[i]) <= oldCells.Keys
    requires h in cells && forall i :: 0 <= i < |cs| ==> Unreached(cells, SourceRefs(cs[i]), h)
    ensures SyncedChildren(cells, cs, ocs, bound, limit, oldCells).1[h] == cells[h]
    decreases bound, limit, 1, |cs|
  {
    if cs != [] && ocs != [] {
      var (c, cells1) := SyncedHead(cells, cs[0], ocs[0], bound, limit, oldCells);
      SyncedHeadFrame(cells, cs[0], ocs[0], bound, limit, oldCells, h);
      SameSkeletonsKeepInvariants(cells, cells1);
      ZipTail(cells, cells1, cs, ocs, bound, limit, oldCells);
      forall i | 0 <= i < |cs| - 1 ensures Unreached(cells1, SourceRefs(cs[1..][i]), h) {
        assert cs[1..][i] == cs[i + 1];
        SameSkeletonsUnreached(cells, cells1, SourceRefs(cs[i + 1]), h);
      }
      SyncedChildrenFrame(cells1, cs[1..], ocs[1..], bound, limit, oldCells, h);
    }
  }

  /** Changing only runtime state keeps cell `h` unreached from `refs`. */
  lemma SameSkeletonsUnreached(c: map<Handle, Block>, d: map<Handle, Block>, refs: set<Handle>, h: Handle)
    requires SameSkeletons(c, d) && Unreached(c, refs, h)
    ensures Unreached(d, refs, h)
  {
    forall r | r in refs ensures h !in Reach(d, r) {
      SameSkeletonsReach(c, d, r);
    }
  }

  lemma {:induction false} SyncedHeadFrame(cells: map<Handle, Block>, c: Source, oc: Source, bound: Handle,
                                           limit: nat, oldCells: map<Handle, Block>, h: Handle)
    requires SyncReady(cells, oldCells)
    requires SourceWithin(c, cells, bound) && SourceSize(c) < limit && SourceRefs(oc) <= oldCells.Keys
    requires Unreached(cells, SourceRefs(c), h) && h in cells
    ensures SyncedHead(cells, c, oc, bound, limit, oldCells).1[h] == cells[h]
    decreases bound, limit, 0
  {
    InnerWithin(cells, c);
    InnerWithin(oldCells, oc);
    if SameType(cells, c, oldCells, oc) {
      SyncedSourceFrame(cells, c, bound, oldCells, Inner(oldCells, oc), h);
    }
  }

  lemma {:induction false} SyncedSourceFrame(cells: map<Handle, Block>, s: Source, bound: Handle, oldCells: map<Handle, Block>,
                                             peer: Block, h: Handle)
    requires SyncReady(cells, oldCells) && SourceWithin(s, cells, bound) && Refs(peer) <= oldCells.Keys
    requires Unreached(cells, SourceRefs(s), h) && h in cells
    ensures SyncedSource(cells, s, bound, oldCells, peer).1[h] == cells[h]
    decreases bound, SourceSize(s), 0
  {
    match s
    case Anonymous(b) =>
      SyncedFrame(cells, b, bound, oldCells, peer, h);
    case Named(k) =>
      assert k in SourceRefs(s);
      ReachStep(cells, k);
      SyncedFrame(cells, cells[k], k, oldCells, peer, h);
  }

  /** The top-level sync of cell `k` leaves alone every other cell that no block refers to. */
  lemma SyncedCellFrame(cells: map<Handle, Block>, k: Handle, oldCells: map<Handle, Block>, peer: Block, h: Handle)
    requires SyncReady(cells, oldCells) && k in cells && Refs(peer) <= oldCells.Keys
    requires Unreferenced(cells, h) && h in cells && h != k
    ensures SyncedCell(cells, k, oldCells, peer)[h] == cells[h]
  {
    UnreferencedUnreached(cells, h, k);
    SyncedSourceFrame(cells, Named(k), k + 1, oldCells, peer, h);
  }

  /** The top-level sync of cell `h` stores in `h` the block's own `sync_from` result. */
  lemma SyncedCellAt(cells: map<Handle, Block>, h: Handle, oldCells: map<Handle, Block>, peer: Block)
    requires SyncReady(cells, oldCells) && h in cells && Refs(peer) <= oldCells.Keys
    ensures Within(cells[h], cells, h)
    ensures SyncedCell(cells, h, oldCells, peer)[h] == Synced(cells, cells[h], h, oldCells, peer).0
  {
  }

  /**
   * `r` is block `b` after taking over the runtime state of `peer`: an oscillator takes the
   * phase of an oscillator peer and keeps its own otherwise, a sequencer takes the peer's
   * `sync_value` whatever its type, and a constant is unchanged.
   */
  predicate TookState(r: Block, b: Block, peer: Block)
  {
    && (b.OscillatorBlock? ==>
          r.OscillatorBlock? && r.wave == b.wave
          && r.phase == if peer.OscillatorBlock? then peer.phase else b.phase)
    && (b.SequencerBlock? ==> r == b.(progress := SyncValue(peer)))
    && (b.ConstantBlock? ==> r == b)
  }

  /**
   * What the top-level sync of cell `h` makes of its own state: an oscillator takes the
   * phase of an oscillator peer and keeps its own otherwise, a sequencer takes the peer's
   * `sync_value` whatever its type, and a constant is unchanged.
   */
  lemma SyncedCellState(cells: map<Handle, Block>, h: Handle, oldCells: map<Handle, Block>, peer: Block)
    requires SyncReady(cells, oldCells) && h in cells && Refs(peer) <= oldCells.Keys
    ensures TookState(SyncedCell(cells, h, oldCells, peer)[h], cells[h], peer)
  {
    SyncedCellAt(cells, h, oldCells, peer);
    SyncedTookState(cells, cells[h], h, oldCells, peer);
  }

  /**
   * The top-level sync of cell `h` also reaches its owned children: an owned child whose old
   * child at the same position has the same type is replaced by its own full sync from that
   * old child, which recurses into the child's children in turn.
   */
  lemma SyncedCellChildTakes(cells: map<Handle, Block>, h: Handle, oldCells: map<Handle, Block>, peer: Block, i: nat)
    requires SyncReady(cells, oldCells) && h in cells && Refs(peer) <= oldCells.Keys
    requires i < |Children(cells[h])| && i < |Children(peer)| && Children(cells[h])[i].Anonymous?
    requires SameType(cells, Children(cells[h])[i], oldCells, Children(peer)[i])
    ensures SourceRefs(Children(peer)[i]) <= oldCells.Keys
    ensures Refs(Inner(oldCells, Children(peer)[i])) <= oldCells.Keys && Within(Children(cells[h])[i].block, cells, h)
    ensures |Children(SyncedCell(cells, h, oldCells, peer)[h])| == |Children(cells[h])|
    ensures Children(SyncedCell(cells, h, oldCells, peer)[h])[i]
         == Anonymous(Synced(cells, Children(cells[h])[i].block, h, oldCells, Inner(oldCells, Children(peer)[i])).0)
    ensures TookState(Children(SyncedCell(cells, h, oldCells, peer)[h])[i].block, Children(cells[h])[i].block,
                      Inner(oldCells, Children(peer)[i]))
  {
    SyncedCellAt(cells, h, oldCells, peer);
    SyncedChildTakes(cells, cells[h], h, oldCells, peer, i);
  }

  /**
   * The same for a Named child of cell `h`: the child's cell becomes its own full sync from
   * the old child, provided no other child of `h` reaches that cell.
   */
  lemma SyncedCellChildTakesNamed(cells: map<Handle, Block>, h: Handle, oldCells: map<Handle, Block>, peer: Block,
                                  i: nat)
    requires SyncReady(cells, oldCells) && h in cells && Refs(peer) <= oldCells.Keys
    requires i < |Children(cells[h])| && i < |Children(peer)| && Children(cells[h])[i].Named?
    requires SameType(cells, Children(cells[h])[i], oldCells, Children(peer)[i])
    requires forall j :: 0 <= j < |Children(cells[h])| && j != i ==>
      Unreached(cells, SourceRefs(Children(cells[h])[j]), Children(cells[h])[i].handle)
    ensures SourceRefs(Children(peer)[i]) <= oldCells.Keys
    ensures var k := Children(cells[h])[i].handle;
      k in cells && Within(cells[k], cells, k) && Refs(Inner(oldCells, Children(peer)[i])) <= oldCells.Keys
    ensures var k := Children(cells[h])[i].handle;
      SyncedCell(cells, h, oldCells, peer)[k] == Synced(cells, cells[k], k, oldCells, Inner(oldCells, Children(peer)[i])).0
    ensures TookState(SyncedCell(cells, h, oldCells, peer)[Children(cells[h])[i].handle],
                      cells[Children(cells[h])[i].handle], Inner(oldCells, Children(peer)[i]))
  {
    var k := Children(cells[h])[i].handle;
    ChildRefs(cells[h], i);
    SyncedCellAt(cells, h, oldCells, peer);
    assert SyncedCell(cells, h, oldCells, peer)[k] == Synced(cells, cells[h], h, oldCells, peer).1[k];
    SyncedChildTakesNamed(cells, cells[h], h, oldCells, peer, i);
  }

  /** `sync_from` makes a block take its peer's state as its kind prescribes. */
  lemma SyncedTookState(cells: map<Handle, Block>, b: Block, bound: Handle, oldCells: map<Handle, Block>, peer: Block)
    requires SyncReady(cells, oldCells) && Within(b, cells, bound) && Refs(peer) <= oldCells.Keys
    ensures TookState(Synced(cells, b, bound, oldCells, peer).0, b, peer)
  {
    if b.OscillatorBlock? {
      SyncedOscillator(cells, b, bound, oldCells, peer);
    } else if b.SequencerBlock? {
      SyncedSequencer(cells, b, bound, oldCells, peer);
    } else if b.ConstantBlock? {
      SyncedConstant(cells, b, bound, oldCells, peer);
    }
  }

  /**
   * The block a sync returns depends on the arena only through its shape: Named children
   * come back as they are, and the type test reads only block types. So it is the same in
   * every arena that differs from `c` only in runtime state, as the arenas left by the
   * earlier passes of the children loop do.
   */
  lemma {:induction false} SyncedShapeOnly(c: map<Handle, Block>, d: map<Handle, Block>, b: Block, bound: Handle,
                                           oldCells: map<Handle, Block>, peer: Block)
    requires SyncReady(c, oldCells) && SyncReady(d, oldCells) && SameSkeletons(c, d)
    requires Within(b, c, bound) && Refs(peer) <= oldCells.Keys
    ensures Within(b, d, bound)
    ensures Synced(c, b, bound, oldCells, peer).0 == Synced(d, b, bound, oldCells, peer).0
    decreases bound, Size(b), 2
  {
    var cs := Children(b);
    forall i | 0 <= i < |cs| ensures SourceRefs(cs[i]) <= Refs(b) && SourceSize(cs[i]) < Size(b) {
      ChildRefs(b, i);
      ChildrenSmaller(b, i);
    }
    forall i | 0 <= i < |Children(peer)| ensures SourceRefs(Children(peer)[i]) <= Refs(peer) {
      ChildRefs(peer, i);
    }
    SyncedChildrenShapeOnly(c, d, cs, Children(peer), bound, Size(b), oldCells);
  }

  lemma {:induction false} SyncedChildrenShapeOnly(c: map<Handle, Block>, d: map<Handle, Block>, cs: seq<Source>,
                                                   ocs: seq<Source>, bound: Handle, limit: nat,
                                                   oldCells: map<Handle, Block>)
    requires SyncReady(c, oldCells) && SyncReady(d, oldCells) && SameSkeletons(c, d)
    requires forall i :: 0 <= i < |cs| ==> SourceWithin(cs[i], c, bound) && SourceSize(cs[i]) < limit
    requires forall i :: 0 <= i < |ocs| ==> SourceRefs(ocs[i]) <= oldCells.Keys
    ensures forall i :: 0 <= i < |cs| ==> SourceWithin(cs[i], d, bound)
    ensures SyncedChildren(c, cs, ocs, bound, limit, oldCells).0 == SyncedChildren(d, cs, ocs, bound, limit, oldCells).0
    decreases bound, limit, 1, |cs|
  {
    if cs != [] && ocs != [] {
      var (x, c1) := SyncedHead(c, cs[0], ocs[0], bound, limit, oldCells);
      var (y, d1) := SyncedHead(d, cs[0], ocs[0], bound, limit, oldCells);
      SyncedHeadShapeOnly(c, d, cs[0], ocs[0], bound, limit, oldCells);
      SameSkeletonsKeepInvariants(c, c1);
      SameSkeletonsKeepInvariants(d, d1);
      ZipTail(c, c1, cs, ocs, bound, limit, oldCells);
      ZipTail(d, d1, cs, ocs, bound, limit, oldCells);
      assert SameSkeletons(c1, d1);
      SyncedChildrenShapeOnly(c1, d1, cs[1..], ocs[1..], bound, limit, oldCells);
    }
  }

  lemma {:induction false} SyncedHeadShapeOnly(c: map<Handle, Block>, d: map<Handle, Block>, s: Source, os: Source,
                                               bound: Handle, limit: nat, oldCells: map<Handle, Block>)
    requires SyncReady(c, oldCells) && SyncReady(d, oldCells) && SameSkeletons(c, d)
    requires SourceWithin(s, c, bound) && SourceSize(s) < limit && SourceRefs(os) <= oldCells.Keys
    ensures SourceWithin(s, d, bound)
    ensures SyncedHead(c, s, os, bound, limit, oldCells).0 == SyncedHead(d, s, os, bound, limit, oldCells).0
    decreases bound, limit, 0
  {
    SameTypeStable(c, d, s, oldCells, os);
    InnerWithin(oldCells, os);
    if s.Anonymous? && SameType(c, s, oldCells, os) {
      SyncedShapeOnly(c, d, s.block, bound, oldCells, Inner(oldCells, os));
    }
  }

  /**
   * `sync_children_from` syncs each owned child from the old child at the same position
   * when both blocks have the same type: the child becomes its own full sync from that old
   * child, recursing into its children, and so takes the old child's state.
   */
  lemma SyncedChildTakes(cells: map<Handle, Block>, b: Block, bound: Handle, oldCells: map<Handle, Block>,
                         peer: Block, i: nat)
    requires SyncReady(cells, oldCells) && Within(b, cells, bound) && Refs(peer) <= oldCells.Keys
    requires i < |Children(b)| && i < |Children(peer)| && Children(b)[i].Anonymous?
    requires SameType(cells, Children(b)[i], oldCells, Children(peer)[i])
    ensures SourceRefs(Children(peer)[i]) <= oldCells.Keys
    ensures Refs(Inner(oldCells, Children(peer)[i])) <= oldCells.Keys && Within(Children(b)[i].block, cells, bound)
    ensures Children(Synced(cells, b, bound, oldCells, peer).0)[i]
         == Anonymous(Synced(cells, Children(b)[i].block, bound, oldCells, Inner(oldCells, Children(peer)[i])).0)
    ensures TookState(Children(Synced(cells, b, bound, oldCells, peer).0)[i].block, Children(b)[i].block,
                      Inner(oldCells, Children(peer)[i]))
  {
    var cs := Children(b);
    forall j | 0 <= j < |cs| ensures SourceRefs(cs[j]) <= Refs(b) && SourceSize(cs[j]) < Size(b) {
      ChildRefs(b, j);
      ChildrenSmaller(b, j);
    }
    forall j | 0 <= j < |Children(peer)| ensures SourceRefs(Children(peer)[j]) <= Refs(peer) {
      ChildRefs(peer, j);
    }
    SyncedChildrenTakes(cells, cs, Children(peer), bound, Size(b), oldCells, i);
  }

  /**
   * The same for a Named child: its arena cell becomes its own full sync from the old child,
   * provided no other child reaches that cell (a second sync of it would overwrite the first).
   */
  lemma SyncedChildTakesNamed(cells: map<Handle, Block>, b: Block, bound: Handle, oldCells: map<Handle, Block>,
                              peer: Block, i: nat)
    requires SyncReady(cells, oldCells) && Within(b, cells, bound) && Refs(peer) <= oldCells.Keys
    requires i < |Children(b)| && i < |Children(peer)| && Children(b)[i].Named?
    requires SameType(cells, Children(b)[i], oldCells, Children(peer)[i])
    requires forall j :: 0 <= j < |Children(b)| && j != i ==>
      Unreached(cells, SourceRefs(Children(b)[j]), Children(b)[i].handle)
    ensures SourceRefs(Children(peer)[i]) <= oldCells.Keys
    ensures var k := Children(b)[i].handle;
      k in cells && Within(cells[k], cells, k) && Refs(Inner(oldCells, Children(peer)[i])) <= oldCells.Keys
    ensures var k := Children(b)[i].handle;
      Synced(cells, b, bound, oldCells, peer).1[k] == Synced(cells, cells[k], k, oldCells, Inner(oldCells, Children(peer)[i])).0
    ensures TookState(Synced(cells, b, bound, oldCells, peer).1[Children(b)[i].handle], cells[Children(b)[i].handle],
                      Inner(oldCells, Children(peer)[i]))
  {
    var cs := Children(b);
    forall j | 0 <= j < |cs| ensures SourceRefs(cs[j]) <= Refs(b) && SourceSize(cs[j]) < Size(b) {
      ChildRefs(b, j);
      ChildrenSmaller(b, j);
    }
    forall j | 0 <= j < |Children(peer)| ensures SourceRefs(Children(peer)[j]) <= Refs(peer) {
      ChildRefs(peer, j);
    }
    SyncedChildrenTakesNamed(cells, cs, Children(peer), bound, Size(b), oldCells, i);
  }

  /**
   * The children loop replaces an owned child `i` by its own full sync from old child `i`
   * when their types agree. The earlier passes may have synced Named cells, but the synced
   * block does not depend on them.
   */
  lemma {:induction false} SyncedChildrenTakes(cells: map<Handle, Block>, cs: seq<Source>, ocs: seq<Source>, bound: Handle,
                                               limit: nat, oldCells: map<Handle, Block>, i: nat)
    requires SyncReady(cells, oldCells)
    requires forall j :: 0 <= j < |cs| ==> SourceWithin(cs[j], cells, bound) && SourceSize(cs[j]) < limit
    requires forall j :: 0 <= j < |ocs| ==> SourceRefs(ocs[j]) <= oldCells.Keys
    requires i < |cs| && i < |ocs| && cs[i].Anonymous? && SameType(cells, cs[i], oldCells, ocs[i])
    ensures Refs(Inner(oldCells, ocs[i])) <= oldCells.Keys && Within(cs[i].block, cells, bound)
    ensures SyncedChildren(cells, cs, ocs, bound, limit, oldCells).0[i]
         == Anonymous(Synced(cells, cs[i].block, bound, oldCells, Inner(oldCells, ocs[i])).0)
    ensures TookState(SyncedChildren(cells, cs, ocs, bound, limit, oldCells).0[i].block, cs[i].block,
                      Inner(oldCells, ocs[i]))
    decreases |cs|
  {
    var peer := Inner(oldCells, ocs[i]);
    InnerWithin(oldCells, ocs[i]);
    var (c, cells1) := SyncedHead(cells, cs[0], ocs[0], bound, limit, oldCells);
    SameSkeletonsKeepInvariants(cells, cells1);
    ZipTail(cells, cells1, cs, ocs, bound, limit, oldCells);
    var (rest, cells2) := SyncedChildren(cells1, cs[1..], ocs[1..], bound, limit, oldCells);
    assert SyncedChildren(cells, cs, ocs, bound, limit, oldCells).0 == [c] + rest;
    if i == 0 {
      SyncedHeadAnonymous(cells, cs[0], ocs[0], bound, limit, oldCells);
    } else {
      assert cs[1..][i - 1] == cs[i] && ocs[1..][i - 1] == ocs[i];
      SameTypeStable(cells, cells1, cs[i], oldCells, ocs[i]);
      SyncedChildrenTakes(cells1, cs[1..], ocs[1..], bound, limit, oldCells, i - 1);
      SyncedShapeOnly(cells, cells1, cs[i].block, bound, oldCells, peer);
    }
    SyncedTookState(cells, cs[i].block, bound, oldCells, peer);
  }

  /** Syncing an owned child from an old child of its type replaces it by its own full sync. */
  lemma SyncedHeadAnonymous(cells: map<Handle, Block>, c: Source, oc: Source, bound: Handle, limit: nat,
                            oldCells: map<Handle, Block>)
    requires SyncReady(cells, oldCells)
    requires SourceWithin(c, cells, bound) && SourceSize(c) < limit && SourceRefs(oc) <= oldCells.Keys
    requires c.Anonymous? && SameType(cells, c, oldCells, oc)
    ensures Refs(Inner(oldCells, oc)) <= oldCells.Keys
    ensures SyncedHead(cells, c, oc, bound, limit, oldCells).0
         == Anonymous(Synced(cells, c.block, bound, oldCells, Inner(oldCells, oc)).0)
  {
    InnerWithin(oldCells, oc);
  }

  /** Syncing a Named child from an old child of its type writes its cell's full sync back. */
  lemma SyncedHeadNamed(cells: map<Handle, Block>, c: Source, oc: Source, bound: Handle, limit: nat,
                        oldCells: map<Handle, Block>)
    requires SyncReady(cells, oldCells)
    requires SourceWithin(c, cells, bound) && SourceSize(c) < limit && SourceRefs(oc) <= oldCells.Keys
    requires c.Named? && SameType(cells, c, oldCells, oc)
    ensures c.handle in cells && Within(cells[c.handle], cells, c.handle) && Refs(Inner(oldCells, oc)) <= oldCells.Keys
    ensures SyncedHead(cells, c, oc, bound, limit, oldCells).1[c.handle]
         == Synced(cells, cells[c.handle], c.handle, oldCells, Inner(oldCells, oc)).0
  {
    InnerWithin(oldCells, oc);
    assert c.handle in SourceRefs(c);
  }

  /**
   * The children loop replaces the cell of a Named child `i` by its own full sync from old
   * child `i` when their types agree and no other child reaches that cell.
   */
  lemma {:induction false} SyncedChildrenTakesNamed(cells: map<Handle, Block>, cs: seq<Source>, ocs: seq<Source>,
                                                    bound: Handle, limit: nat, oldCells: map<Handle, Block>, i: nat)
    requires SyncReady(cells, oldCells)
    requires forall j :: 0 <= j < |cs| ==> SourceWithin(cs[j], cells, bound) && SourceSize(cs[j]) < limit
    requires forall j :: 0 <= j < |ocs| ==> SourceRefs(ocs[j]) <= oldCells.Keys
    requires i < |cs| && i < |ocs| && cs[i].Named? && SameType(cells, cs[i], oldCells, ocs[i])
    requires forall j :: 0 <= j < |cs| && j != i ==> Unreached(cells, SourceRefs(cs[j]), cs[i].handle)
    ensures cs[i].handle in cells && Within(cells[cs[i].handle], cells, cs[i].handle)
    ensures Refs(Inner(oldCells, ocs[i])) <= oldCells.Keys
    ensures SyncedChildren(cells, cs, ocs, bound, limit, oldCells).1[cs[i].handle]
         == Synced(cells, cells[cs[i].handle], cs[i].handle, oldCells, Inner(oldCells, ocs[i])).0
    ensures TookState(SyncedChildren(cells, cs, ocs, bound, limit, oldCells).1[cs[i].handle], cells[cs[i].handle],
                      Inner(oldCells, ocs[i]))
    decreases |cs|, 1
  {
    var h := cs[i].handle;
    InnerWithin(oldCells, ocs[i]);
    assert h in SourceRefs(cs[i]);
    if i == 0 {
      SyncedChildrenTakesNamedFirst(cells, cs, ocs, bound, limit, oldCells);
    } else {
      SyncedChildrenTakesNamedLater(cells, cs, ocs, bound, limit, oldCells, i);
    }
    SyncedTookState(cells, cells[h], h, oldCells, Inner(oldCells, ocs[i]));
  }

  /** A Named first child: its pass writes the cell, and no later pass reaches it. */
  lemma SyncedChildrenTakesNamedFirst(cells: map<Handle, Block>, cs: seq<Source>, ocs: seq<Source>,
                                      bound: Handle, limit: nat, oldCells: map<Handle, Block>)
    requires SyncReady(cells, oldCells)
    requires forall j :: 0 <= j < |cs| ==> SourceWithin(cs[j], cells, bound) && SourceSize(cs[j]) < limit
    requires forall j :: 0 <= j < |ocs| ==> SourceRefs(ocs[j]) <= oldCells.Keys
    requires 0 < |cs| && 0 < |ocs| && cs[0].Named? && SameType(cells, cs[0], oldCells, ocs[0])
    requires forall j :: 0 < j < |cs| ==> Unreached(cells, SourceRefs(cs[j]), cs[0].handle)
    requires cs[0].handle in cells && Within(cells[cs[0].handle], cells, cs[0].handle)
    requires Refs(Inner(oldCells, ocs[0])) <= oldCells.Keys
    ensures SyncedChildren(cells, cs, ocs, bound, limit, oldCells).1[cs[0].handle]
         == Synced(cells, cells[cs[0].handle], cs[0].handle, oldCells, Inner(oldCells, ocs[0])).0
  {
    var h := cs[0].handle;
    var (c, cells1) := SyncedHead(cells, cs[0], ocs[0], bound, limit, oldCells);
    SameSkeletonsKeepInvariants(cells, cells1);
    ZipTail(cells, cells1, cs, ocs, bound, limit, oldCells);
    assert SyncedChildren(cells, cs, ocs, bound, limit, oldCells).1
        == SyncedChildren(cells1, cs[1..], ocs[1..], bound, limit, oldCells).1;
    SyncedHeadNamed(cells, cs[0], ocs[0], bound, limit, oldCells);
    UnreachedTail(cells, cells1, cs, h, 0);
    SyncedChildrenFrame(cells1, cs[1..], ocs[1..], bound, limit, oldCells, h);
  }

  /**
   * A Named later child: the first pass leaves its cell alone, and the synced block the rest
   * of the loop writes there does not depend on what the first pass wrote elsewhere.
   */
  lemma {:induction false} SyncedChildrenTakesNamedLater(cells: map<Handle, Block>, cs: seq<Source>, ocs: seq<Source>,
                                                         bound: Handle, limit: nat, oldCells: map<Handle, Block>, i: nat)
    requires SyncReady(cells, oldCells)
    requires forall j :: 0 <= j < |cs| ==> SourceWithin(cs[j], cells, bound) && SourceSize(cs[j]) < limit
    requires forall j :: 0 <= j < |ocs| ==> SourceRefs(ocs[j]) <= oldCells.Keys
    requires 0 < i < |cs| && i < |ocs| && cs[i].Named? && SameType(cells, cs[i], oldCells, ocs[i])
    requires forall j :: 0 <= j < |cs| && j != i ==> Unreached(cells, SourceRefs(cs[j]), cs[i].handle)
    requires cs[i].handle in cells && Within(cells[cs[i].handle], cells, cs[i].handle)
    requires Refs(Inner(oldCells, ocs[i])) <= oldCells.Keys
    ensures SyncedChildren(cells, cs, ocs, bound, limit, oldCells).1[cs[i].handle]
         == Synced(cells, cells[cs[i].handle], cs[i].handle, oldCells, Inner(oldCells, ocs[i])).0
    decreases |cs|, 0
  {
    var h := cs[i].handle;
    var (c, cells1) := SyncedHead(cells, cs[0], ocs[0], bound, limit, oldCells);
    SameSkeletonsKeepInvariants(cells, cells1);
    ZipTail(cells, cells1, cs, ocs, bound, limit, oldCells);
    assert SyncedChildren(cells, cs, ocs, bound, limit, oldCells).1
        == SyncedChildren(cells1, cs[1..], ocs[1..], bound, limit, oldCells).1;
    SyncedHeadFrame(cells, cs[0], ocs[0], bound, limit, oldCells, h);
    assert cs[1..][i - 1] == cs[i] && ocs[1..][i - 1] == ocs[i];
    SameTypeStable(cells, cells1, cs[i], oldCells, ocs[i]);
    UnreachedTail(cells, cells1, cs, h, i);
    SyncedChildrenTakesNamed(cells1, cs[1..], ocs[1..], bound, limit, oldCells, i - 1);
    SyncedShapeOnly(cells, cells1, cells[h], h, oldCells, Inner(oldCells, ocs[i]));
  }

  /** The children after the first, other than child `skip`, still do not reach cell `h` once the first pass is done. */
  lemma UnreachedTail(cells: map<Handle, Block>, cells1: map<Handle, Block>, cs: seq<Source>, h: Handle, skip: nat)
    requires SameSkeletons(cells, cells1) && cs != []
    requires forall j :: 0 <= j < |cs| && j != skip ==> Unreached(cells, SourceRefs(cs[j]), h)
    ensures forall j :: 0 <= j < |cs| - 1 && j + 1 != skip ==> Unreached(cells1, SourceRefs(cs[1..][j]), h)
  {
    forall j | 0 <= j < |cs| - 1 && j + 1 != skip ensures Unreached(cells1, SourceRefs(cs[1..][j]), h) {
      assert cs[1..][j] == cs[j + 1];
      SameSkeletonsUnreached(cells, cells1, SourceRefs(cs[j + 1]), h);
    }
  }
}
