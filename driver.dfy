/**
 * `HarmoniconDriver` (src/driver.rs): the registry played as a stereo source. Each frame
 * it polls the reload channel, steps every registry entry and reads the output block's
 * left sample; the right sample is kept and handed out by the next call.
 */
module Driver {
  import opened Wrappers
  import opened Blocks
  import Constants
  import Signal
  import Sync
  import Registry

  /** The driver is a stereo source at the engine's sample rate, with no end. */
  const CHANNELS: nat := 2
  const SAMPLE_RATE: nat := 44100
  const TOTAL_DURATION: Option<real> := None

  /** A driver's graph: its registry with the arena, and the output cell. */
  datatype Graph = Graph(table: Registry.Table, output: Handle)

  /** The arena holds exactly the registered cells and the output, which the driver owns too. */
  ghost predicate WellFormed(g: Graph)
  {
    Registry.WellFormed(g.table, {g.output})
  }

  /**
   * A graph that can play: stepping every registry entry and reading the output's left
   * and right channels never panics.
   */
  ghost predicate Ready(g: Graph)
  {
    && WellFormed(g) && Registry.Runnable(g.table.cells, g.table.blocks)
    && CellReadable(g.table.cells, g.output, Left) && CellReadable(g.table.cells, g.output, Right)
  }

  /**
   * Every driver waiting in the reload channel is ready to play, and resolves every
   * reference, since `update` walks the children of its blocks.
   */
  ghost predicate Queued(rx: Option<seq<Graph>>)
  {
    rx.Some? ==> forall i :: 0 <= i < |rx.value| ==> Ready(rx.value[i]) && Resolved(rx.value[i].table.cells)
  }

  /** A driver is waiting in the reload channel. */
  predicate Waiting(rx: Option<seq<Graph>>)
  {
    rx.Some? && rx.value != []
  }

  /**
   * The new arena `cells` can take state from the running arena `oldCells`: both resolve
   * every reference, the new one is acyclic, and every name maps to a live cell.
   */
  ghost predicate Transferable(cells: map<Handle, Block>, blocks: map<string, Handle>,
                               oldCells: map<Handle, Block>, oldBlocks: map<string, Handle>)
  {
    Sync.SyncReady(cells, oldCells) && blocks.Values <= cells.Keys && oldBlocks.Values <= oldCells.Keys
  }

  /**
   * The state transfer of `update`: for each name of the new registry, in `order`, that the
   * running registry also has, the new cell is synced from the running cell of that name,
   * whatever their types. The running arena `oldCells` is only read.
   */
  function Reloaded(cells: map<Handle, Block>, blocks: map<string, Handle>, order: seq<string>,
                    oldCells: map<Handle, Block>, oldBlocks: map<string, Handle>): (r: map<Handle, Block>)
    requires Transferable(cells, blocks, oldCells, oldBlocks)
    requires forall n :: n in order ==> n in blocks
    ensures SameSkeletons(cells, r) && Transferable(r, blocks, oldCells, oldBlocks)
    decreases |order|
  {
    if order == [] then cells
    else
      var prev := Reloaded(cells, blocks, order[..|order| - 1], oldCells, oldBlocks);
      ReloadedName(prev, blocks, order[|order| - 1], oldCells, oldBlocks)
  }

  /** One name of the transfer: its new cell is synced from the running cell of that name, if any. */
  function ReloadedName(cells: map<Handle, Block>, blocks: map<string, Handle>, n: string,
                        oldCells: map<Handle, Block>, oldBlocks: map<string, Handle>): (r: map<Handle, Block>)
    requires Transferable(cells, blocks, oldCells, oldBlocks)
    requires n in blocks
    ensures SameSkeletons(cells, r) && Transferable(r, blocks, oldCells, oldBlocks)
  {
    assert blocks[n] in blocks.Values;
    if n in oldBlocks then
      assert oldBlocks[n] in oldBlocks.Values;
      Sync.SyncedCell(cells, blocks[n], oldCells, oldCells[oldBlocks[n]])
    else cells
  }

  /** The transfer over `order + [n]` is the transfer over `order`, then the sync of `n`'s cell. */
  lemma ReloadedSnoc(cells: map<Handle, Block>, blocks: map<string, Handle>, order: seq<string>,
                     oldCells: map<Handle, Block>, oldBlocks: map<string, Handle>, n: string)
    requires Transferable(cells, blocks, oldCells, oldBlocks)
    requires forall m :: m in order ==> m in blocks
    requires n in blocks
    ensures Reloaded(cells, blocks, order + [n], oldCells, oldBlocks)
         == ReloadedName(Reloaded(cells, blocks, order, oldCells, oldBlocks), blocks, n, oldCells, oldBlocks)
  {
    var longer := order + [n];
    assert longer[..|longer| - 1] == order && longer[|longer| - 1] == n;
  }

  /**
   * A cell that no block refers to keeps its state through the names `order[i..j]` when
   * none of those that the running registry also has maps to it.
   */
  lemma {:induction false} ReloadedFrame(cells: map<Handle, Block>, blocks: map<string, Handle>, order: seq<string>,
                                         oldCells: map<Handle, Block>, oldBlocks: map<string, Handle>,
                                         h: Handle, i: nat, j: nat)
    requires Transferable(cells, blocks, oldCells, oldBlocks)
    requires forall n :: n in order ==> n in blocks
    requires i <= j <= |order| && h in cells && Sync.Unreferenced(cells, h)
    requires forall k :: i <= k < j && order[k] in oldBlocks ==> blocks[order[k]] != h
    ensures Reloaded(cells, blocks, order[..j], oldCells, oldBlocks)[h]
         == Reloaded(cells, blocks, order[..i], oldCells, oldBlocks)[h]
    decreases j
  {
    if j > i {
      ReloadedFrame(cells, blocks, order, oldCells, oldBlocks, h, i, j - 1);
      var n := order[j - 1];
      Registry.PrefixStep(order, j - 1);
      ReloadedSnoc(cells, blocks, order[..j - 1], oldCells, oldBlocks, n);
      var prev := Reloaded(cells, blocks, order[..j - 1], oldCells, oldBlocks);
      Sync.SameSkeletonsUnreferenced(cells, prev, h);
      if n in oldBlocks {
        assert blocks[n] in blocks.Values && oldBlocks[n] in oldBlocks.Values;
        Sync.SyncedCellFrame(prev, blocks[n], oldCells, oldCells[oldBlocks[n]], h);
      }
    }
  }

  /**
   * Hot reload carries runtime state over by name: a block registered under a name that
   * the running registry also has takes the running block's state, as far as no other
   * name or reference reaches its cell. An oscillator takes the phase of an oscillator
   * (and keeps its own otherwise); a sequencer takes the `sync_value` of whatever block
   * ran under that name; a constant stays as parsed.
   */
  lemma ReloadCarriesState(cells: map<Handle, Block>, blocks: map<string, Handle>, order: seq<string>,
                           oldCells: map<Handle, Block>, oldBlocks: map<string, Handle>, n: string)
    requires Transferable(cells, blocks, oldCells, oldBlocks)
    requires Registry.Enumerates(order, blocks)
    requires n in blocks && n in oldBlocks
    requires Sync.Unreferenced(cells, blocks[n])
    requires forall m :: m in blocks && m != n ==> blocks[m] != blocks[n]
    ensures oldBlocks[n] in oldCells && blocks[n] in cells
    ensures Sync.TookState(Reloaded(cells, blocks, order, oldCells, oldBlocks)[blocks[n]],
                           cells[blocks[n]], oldCells[oldBlocks[n]])
  {
    assert blocks[n] in blocks.Values && oldBlocks[n] in oldBlocks.Values;
    ReloadedCell(cells, blocks, order, oldCells, oldBlocks, n);
  }

  /**
   * The cell of `n`, which no other name and no reference reaches, is synced exactly when
   * the pass reaches `n`: before that it keeps its parsed state, after it the running one.
   */
  lemma {:induction false} ReloadedCell(cells: map<Handle, Block>, blocks: map<string, Handle>, order: seq<string>,
                                        oldCells: map<Handle, Block>, oldBlocks: map<string, Handle>, n: string)
    requires Transferable(cells, blocks, oldCells, oldBlocks)
    requires forall m :: m in order ==> m in blocks
    requires forall i, j :: 0 <= i < j < |order| ==> order[i] != order[j]
    requires n in blocks && n in oldBlocks && blocks[n] in cells && oldBlocks[n] in oldCells
    requires Sync.Unreferenced(cells, blocks[n])
    requires forall m :: m in blocks && m != n ==> blocks[m] != blocks[n]
    ensures n !in order ==> Reloaded(cells, blocks, order, oldCells, oldBlocks)[blocks[n]] == cells[blocks[n]]
    ensures n in order ==> Sync.TookState(Reloaded(cells, blocks, order, oldCells, oldBlocks)[blocks[n]],
                                          cells[blocks[n]], oldCells[oldBlocks[n]])
    decreases |order|
  {
    if order != [] {
      var init := order[..|order| - 1];
      var m := order[|order| - 1];
      assert order == init + [m];
      assert forall k :: k in init ==> k in order;
      ReloadedCell(cells, blocks, init, oldCells, oldBlocks, n);
      var prev := Reloaded(cells, blocks, init, oldCells, oldBlocks);
      ReloadedSnoc(cells, blocks, init, oldCells, oldBlocks, m);
      if m == n {
        assert n !in init;
        ReloadedNameState(prev, blocks, n, oldCells, oldBlocks);
      } else {
        assert n in order <==> n in init;
        Sync.SameSkeletonsUnreferenced(cells, prev, blocks[n]);
        ReloadedNameFrame(prev, blocks, m, oldCells, oldBlocks, blocks[n]);
      }
    }
  }

  /** The sync of one name leaves alone an unreferenced cell that the name does not map to. */
  lemma ReloadedNameFrame(cells: map<Handle, Block>, blocks: map<string, Handle>, m: string,
                          oldCells: map<Handle, Block>, oldBlocks: map<string, Handle>, h: Handle)
    requires Transferable(cells, blocks, oldCells, oldBlocks)
    requires m in blocks && h in cells && blocks[m] != h && Sync.Unreferenced(cells, h)
    ensures ReloadedName(cells, blocks, m, oldCells, oldBlocks)[h] == cells[h]
  {
    assert blocks[m] in blocks.Values;
    if m in oldBlocks {
      assert oldBlocks[m] in oldBlocks.Values;
      Sync.SyncedCellFrame(cells, blocks[m], oldCells, oldCells[oldBlocks[m]], h);
    }
  }

  /** The sync of one name hands the running block's state to that name's new cell. */
  lemma ReloadedNameState(cells: map<Handle, Block>, blocks: map<string, Handle>, n: string,
                          oldCells: map<Handle, Block>, oldBlocks: map<string, Handle>)
    requires Transferable(cells, blocks, oldCells, oldBlocks)
    requires n in blocks && n in oldBlocks
    ensures blocks[n] in cells && oldBlocks[n] in oldCells
    ensures Sync.TookState(ReloadedName(cells, blocks, n, oldCells, oldBlocks)[blocks[n]],
                           cells[blocks[n]], oldCells[oldBlocks[n]])
  {
    assert blocks[n] in blocks.Values && oldBlocks[n] in oldBlocks.Values;
    Sync.SyncedCellState(cells, blocks[n], oldCells, oldCells[oldBlocks[n]]);
  }

  /**
   * A block whose names are all new keeps the state it was parsed with, as far as no
   * reference reaches its cell: the transfer matches blocks by name only.
   */
  lemma ReloadKeepsUnmatched(cells: map<Handle, Block>, blocks: map<string, Handle>, order: seq<string>,
                             oldCells: map<Handle, Block>, oldBlocks: map<string, Handle>, h: Handle)
    requires Transferable(cells, blocks, oldCells, oldBlocks)
    requires Registry.Enumerates(order, blocks)
    requires h in cells && Sync.Unreferenced(cells, h)
    requires forall m :: m in blocks && blocks[m] == h ==> m !in oldBlocks
    ensures Reloaded(cells, blocks, order, oldCells, oldBlocks)[h] == cells[h]
  {
    assert order[..0] == [] && order[..|order|] == order;
    ReloadedFrame(cells, blocks, order, oldCells, oldBlocks, h, 0, |order|);
  }

  /**
   * One `update` with the running graph `cur` and the reload channel `rx`, giving graph
   * `now` and channel `rx'`: with no channel or nothing queued nothing changes; otherwise
   * the first queued driver is taken, its blocks take over the running state (names in
   * `order`), and its registry and output replace the running ones.
   */
  ghost predicate UpdateStep(cur: Graph, rx: Option<seq<Graph>>, now: Graph, rx': Option<seq<Graph>>, order: seq<string>)
  {
    if rx.None? || rx.value == [] then now == cur && rx' == rx
    else
      var g := rx.value[0];
      && rx' == Some(rx.value[1..])
      && Registry.Enumerates(order, g.table.blocks)
      && Transferable(g.table.cells, g.table.blocks, cur.table.cells, cur.table.blocks)
      && now == Graph(g.table.(cells := Reloaded(g.table.cells, g.table.blocks, order, cur.table.cells, cur.table.blocks)),
                      g.output)
  }

  /**
   * The state-transfer loop of `update`: every name of the new registry `blocks` is visited
   * once, and its cell is synced from the running cell of the same name when there is one.
   */
  method Reload(cells: map<Handle, Block>, blocks: map<string, Handle>,
                oldCells: map<Handle, Block>, oldBlocks: map<string, Handle>)
    returns (r: map<Handle, Block>, ghost order: seq<string>)
    requires Transferable(cells, blocks, oldCells, oldBlocks)
    ensures Registry.Enumerates(order, blocks)
    ensures r == Reloaded(cells, blocks, order, oldCells, oldBlocks)
  {
    r, order := cells, [];
    var remaining := blocks.Keys;
    while remaining != {}
      invariant Registry.Listed(order, remaining, blocks)
      invariant r == Reloaded(cells, blocks, order, oldCells, oldBlocks)
      decreases remaining
    {
      var n :| n in remaining;
      ReloadedSnoc(cells, blocks, order, oldCells, oldBlocks, n);
      Registry.ListedStep(order, remaining, blocks, n);
      assert blocks[n] in blocks.Values;
      if n in oldBlocks {
        assert oldBlocks[n] in oldBlocks.Values;
        r := Sync.SyncedCell(r, blocks[n], oldCells, oldCells[oldBlocks[n]]);
      }
      order := order + [n];
      remaining := remaining - {n};
    }
  }

  /**
   * `update` on values: the running graph `cur` and the channel `rx` give the graph and
   * channel after one poll, and what was ready to play stays ready.
   */
  method Updated(cur: Graph, rx: Option<seq<Graph>>) returns (now: Graph, rx': Option<seq<Graph>>, ghost order: seq<string>)
    requires WellFormed(cur) && Queued(rx) && (Waiting(rx) ==> Resolved(cur.table.cells))
    ensures UpdateStep(cur, rx, now, rx', order)
    ensures WellFormed(now) && Queued(rx')
    ensures Waiting(rx) ==> Ready(now) && Resolved(now.table.cells)
  {
    order := [];
    if rx.None? || rx.value == [] {
      return cur, rx, order;
    }
    var g := rx.value[0];
    QueuedTail(rx.value);
    assert Transferable(g.table.cells, g.table.blocks, cur.table.cells, cur.table.blocks);
    var cells;
    cells, order := Reload(g.table.cells, g.table.blocks, cur.table.cells, cur.table.blocks);
    ReloadedReady(g, cells);
    now := Graph(g.table.(cells := cells), g.output);
    rx' := Some(rx.value[1..]);
  }

  /** Taking the first driver off the channel leaves a channel whose drivers are all ready. */
  lemma QueuedTail(rx: seq<Graph>)
    requires Queued(Some(rx)) && rx != []
    ensures Ready(rx[0]) && Resolved(rx[0].table.cells) && Queued(Some(rx[1..]))
  {
    forall i | 0 <= i < |rx| - 1 ensures Ready(rx[1..][i]) && Resolved(rx[1..][i].table.cells) {
      assert rx[1..][i] == rx[i + 1];
    }
  }

  /** A ready graph whose arena only gained runtime state is still ready. */
  lemma ReloadedReady(g: Graph, cells: map<Handle, Block>)
    requires Ready(g) && SameSkeletons(g.table.cells, cells)
    ensures Ready(Graph(g.table.(cells := cells), g.output))
    ensures Resolved(g.table.cells) ==> Resolved(cells)
  {
    Registry.SameSkeletonsWellFormed(g.table, cells, {g.output});
    SameSkeletonsSteppable(g.table.cells, cells);
  }

  class HarmoniconDriver {
    var blocks: map<string, Handle>
    var cells: map<Handle, Block>
    var next: Handle
    var output: Handle
    var pending: Option<real>
    var updateRx: Option<seq<Graph>>

    ghost function Current(): Graph
      reads this
    {
      Graph(Registry.Table(blocks, cells, next), output)
    }

    ghost predicate Valid()
      reads this
    {
      WellFormed(Current()) && Queued(updateRx)
    }

    /**
     * The next `next` cannot panic: a pending sample is handed out as is; otherwise the
     * graph that will be stepped is ready, and when a driver is waiting the running arena
     * resolves every reference so that the new blocks can take its state.
     */
    ghost predicate CanPlay()
      reads this
    {
      pending.Some? || if Waiting(updateRx) then Resolved(cells) else Ready(Current())
    }

    /** `new()`: an empty registry, no pending sample, no channel, and a constant 0 as output. */
    constructor()
      ensures Valid() && blocks == map[] && pending == None && updateRx == None
      ensures cells == map[output := Constants.Default()] && CanPlay()
    {
      blocks := map[];
      cells := map[0 := Constants.Default()];
      next := 1;
      output := 0;
      pending := None;
      updateRx := None;
    }

    /** `set_update_rx`: from now on `update` polls this channel. */
    method SetUpdateRx(rx: seq<Graph>)
      requires Valid() && Queued(Some(rx))
      modifies this
      ensures updateRx == Some(rx) && Current() == old(Current()) && pending == old(pending) && Valid()
    {
      updateRx := Some(rx);
    }

    /** `set_output`: the output becomes cell `h`; the old output is dropped unless a name keeps it. */
    method SetOutput(h: Handle)
      requires Valid() && h in cells
      modifies this
      ensures output == h && blocks == old(blocks) && next == old(next)
      ensures cells == Registry.Retained(old(cells), blocks.Values + {h})
      ensures pending == old(pending) && updateRx == old(updateRx) && Valid()
    {
      output := h;
      cells := Registry.Retained(cells, blocks.Values + {h});
    }

    /**
     * `register_block`: the block gets a fresh cell under `name`, replacing any previous
     * entry, and that cell is returned. The block may refer only to cells that exist.
     */
    method RegisterBlock(name: string, b: Block) returns (h: Handle)
      requires Valid() && forall r :: r in Refs(b) ==> r < next
      modifies this
      ensures Current().table == Registry.Registered(old(Current().table), {output}, name, b)
      ensures h == old(next) && blocks[name] == h && cells[h] == b
      ensures output == old(output) && pending == old(pending) && updateRx == old(updateRx) && Valid()
    {
      Registry.RegisteredSpec(Current().table, {output}, name, b);
      h := next;
      blocks := blocks[name := h];
      cells := Registry.Retained(cells, blocks.Values + {output})[h := b];
      next := next + 1;
    }

    /**
     * `alias_block`: when `name` is registered, `alias` maps to the same cell and that cell
     * is returned; otherwise nothing changes and the result is `None`.
     */
    method AliasBlock(name: string, alias: string) returns (r: Option<Handle>)
      requires Valid()
      modifies this
      ensures Current().table == Registry.Aliased(old(Current().table), {output}, name, alias)
      ensures r.Some? <==> name in old(blocks)
      ensures r.Some? ==> r == Registry.Lookup(Current().table, alias) == Some(old(blocks)[name])
      ensures output == old(output) && pending == old(pending) && updateRx == old(updateRx) && Valid()
    {
      Registry.AliasedSpec(Current().table, {output}, name, alias);
      if name in blocks {
        var h := blocks[name];
        blocks := blocks[alias := h];
        cells := Registry.Retained(cells, blocks.Values + {output});
        r := Some(h);
      } else {
        r := None;
      }
    }

    /** `get_block`: the live cell registered under `name`, or nothing. */
    function GetBlock(name: string): (r: Option<Handle>)
      requires Valid()
      reads this
      ensures r == Registry.Lookup(Current().table, name)
      ensures r.Some? ==> r.value in cells
    {
      if name in blocks then Some(blocks[name]) else None
    }

    /**
     * `update`: take the next queued driver, if any, let its blocks take over the running
     * state by name, and switch to its registry and output. The pending sample is kept.
     */
    method Update() returns (ghost order: seq<string>)
      requires Valid() && (Waiting(updateRx) ==> Resolved(cells))
      modifies this
      ensures UpdateStep(old(Current()), old(updateRx), Current(), updateRx, order)
      ensures pending == old(pending) && Valid()
      ensures Waiting(old(updateRx)) ==> Ready(Current()) && Resolved(cells)
    {
      var now, rx;
      now, rx, order := Updated(Graph(Registry.Table(blocks, cells, next), output), updateRx);
      blocks, cells, next, output := now.table.blocks, now.table.cells, now.table.next, now.output;
      updateRx := rx;
    }

    /** The stepping loop of `next`: every registry entry is stepped once, in the map's order. */
    method StepAll(sine: real -> real) returns (ghost order: seq<string>)
      requires Valid() && Ready(Current())
      modifies this
      ensures Registry.Enumerates(order, blocks)
      ensures blocks == old(blocks) && next == old(next) && output == old(output)
      ensures pending == old(pending) && updateRx == old(updateRx)
      ensures cells == Registry.Frame(sine, old(cells), blocks, order)
      ensures Valid() && Ready(Current()) && (old(Resolved(cells)) ==> Resolved(cells))
    {
      var stepped;
      stepped, order := Registry.StepEntries(sine, cells, blocks);
      ReloadedReady(Current(), stepped);
      cells := stepped;
    }

    /**
     * `next`: a pending right sample is handed out and cleared, with no stepping.
     * Otherwise the driver updates, steps every registry entry once, returns the output's
     * left sample and keeps its right sample. It never ends.
     */
    method Next(sine: real -> real) returns (sample: Option<real>, ghost mid: Graph,
                                              ghost reloadOrder: seq<string>, ghost stepOrder: seq<string>)
      requires Valid() && CanPlay()
      modifies this
      ensures Valid() && sample.Some?
      ensures old(pending).Some? ==>
        sample == old(pending) && pending == None && Current() == old(Current()) && updateRx == old(updateRx)
      ensures old(pending).None? ==>
        && UpdateStep(old(Current()), old(updateRx), mid, updateRx, reloadOrder)
        && WellFormed(mid) && Ready(mid) && Ready(Current())
        && (Waiting(old(updateRx)) ==> Resolved(mid.table.cells))
        && (Resolved(mid.table.cells) ==> Resolved(cells))
        && Registry.Enumerates(stepOrder, mid.table.blocks)
        && Current() == Graph(mid.table.(cells := Registry.Frame(sine, mid.table.cells, mid.table.blocks, stepOrder)),
                              mid.output)
        && sample == Some(Signal.CellOut(sine, cells, output, Left))
        && pending == Some(Signal.CellOut(sine, cells, output, Right))
    {
      mid := Current();
      reloadOrder := [];
      stepOrder := [];
      if pending.Some? {
        sample := pending;
        pending := None;
        return;
      }
      reloadOrder := Update();
      mid := Current();
      stepOrder := StepAll(sine);
      var left := Signal.CellOut(sine, cells, output, Left);
      var right := Signal.CellOut(sine, cells, output, Right);
      pending := Some(right);
      sample := Some(left);
    }
  }

  /**
   * A client pulling twice from an empty pending slot gets the output's left and then its
   * right sample of one and the same frame.
   */
  method TwoPulls(d: HarmoniconDriver, sine: real -> real) returns (left: Option<real>, right: Option<real>)
    requires d.Valid() && d.CanPlay() && d.pending.None?
    modifies d
    ensures d.Valid() && Ready(d.Current()) && d.pending.None?
    ensures left == Some(Signal.CellOut(sine, d.cells, d.output, Left))
    ensures right == Some(Signal.CellOut(sine, d.cells, d.output, Right))
  {
    ghost var mid: Graph, reloadOrder: seq<string>, stepOrder: seq<string>;
    left, mid, reloadOrder, stepOrder := d.Next(sine);
    right, mid, reloadOrder, stepOrder := d.Next(sine);
  }
}
