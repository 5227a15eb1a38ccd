/**
 * The name registry behind the driver and the mixer (src/driver.rs, src/mixer.rs): a
 * `HashMap<String, Arc<Mutex<dyn SignalBlock>>>`. Top-level blocks live in an arena of
 * cells; a name maps to the handle of its cell, and several names may share one cell
 * (an alias). A cell lives while a name, or another owner such as the driver's output,
 * keeps it: Named sources hold only a weak handle, so they do not keep a cell alive.
 */
module Registry {
  import opened Wrappers
  import opened Blocks
  import Signal

  /** A registry with its arena; `next` is the handle the next registered block gets. */
  datatype Table = Table(blocks: map<string, Handle>, cells: map<Handle, Block>, next: Handle)

  /**
   * The arena is acyclic, every handle was allocated, and it holds exactly the cells that
   * a name or one of the other owners `pinned` keeps alive.
   */
  ghost predicate WellFormed(t: Table, pinned: set<Handle>)
  {
    && Acyclic(t.cells)
    && (forall h :: h in t.cells ==> h < t.next)
    && t.cells.Keys == t.blocks.Values + pinned
  }

  /** Changing only runtime state keeps a registry well formed. */
  lemma SameSkeletonsWellFormed(t: Table, cells: map<Handle, Block>, pinned: set<Handle>)
    requires WellFormed(t, pinned) && SameSkeletons(t.cells, cells)
    ensures WellFormed(t.(cells := cells), pinned) && (Resolved(t.cells) ==> Resolved(cells))
  {
    SameSkeletonsKeepInvariants(t.cells, cells);
  }

  /**
   * Stepping every entry cannot panic: the arena is acyclic, and each name's cell is present
   * and the sources its step reads can be read.
   */
  ghost predicate Runnable(cells: map<Handle, Block>, blocks: map<string, Handle>)
  {
    Acyclic(cells) && forall n :: n in blocks ==> blocks[n] in cells && Steppable(cells, cells[blocks[n]], blocks[n])
  }

  /** The cells of `cells` that some owner in `keep` still holds; the others are dropped. */
  function Retained(cells: map<Handle, Block>, keep: set<Handle>): (r: map<Handle, Block>)
    ensures r.Keys == cells.Keys * keep
    ensures forall h :: h in r ==> r[h] == cells[h]
  {
    map h | h in cells && h in keep :: cells[h]
  }

  /** `get_block`: the cell registered under `name`, if any. */
  function Lookup(t: Table, name: string): Option<Handle>
  {
    if name in t.blocks then Some(t.blocks[name]) else None
  }

  /**
   * `register_block`: `b` gets a fresh cell and `name` maps to it, replacing any previous
   * entry; a cell that nothing keeps any more is dropped.
   */
  function Registered(t: Table, pinned: set<Handle>, name: string, b: Block): Table
  {
    var blocks := t.blocks[name := t.next];
    Table(blocks, Retained(t.cells, blocks.Values + pinned)[t.next := b], t.next + 1)
  }

  /**
   * Registering keeps the registry well formed when `b` refers only to cells allocated
   * before it; the name now yields `b`, every other name still yields its old cell with
   * its old block, and a replaced cell that no other owner held is dropped.
   */
  lemma RegisteredSpec(t: Table, pinned: set<Handle>, name: string, b: Block)
    requires WellFormed(t, pinned) && forall r :: r in Refs(b) ==> r < t.next
    ensures var t' := Registered(t, pinned, name, b);
      && WellFormed(t', pinned)
      && Lookup(t', name) == Some(t.next) && t'.cells[t.next] == b
      && (forall n :: n != name ==> Lookup(t', n) == Lookup(t, n))
      && (forall n :: n in t.blocks && n != name ==> t.blocks[n] in t'.cells)
      && (forall n :: n in t.blocks && n != name ==> t'.cells[t.blocks[n]] == t.cells[t.blocks[n]])
      && (name in t.blocks && t.blocks[name] !in pinned
          && (forall n :: n in t.blocks && n != name ==> t.blocks[n] != t.blocks[name])
          ==> t.blocks[name] !in t'.cells)
  {
    var t' := Registered(t, pinned, name, b);
    forall n | n in t.blocks && n != name ensures t.blocks[n] in t'.cells {
      assert t'.blocks[n] == t.blocks[n];
      assert t.blocks[n] in t'.blocks.Values;
    }
    assert t'.blocks[name] == t.next;
    assert t.next in t'.blocks.Values;
    if name in t.blocks && t.blocks[name] !in pinned
       && (forall n :: n in t.blocks && n != name ==> t.blocks[n] != t.blocks[name])
    {
      var gone := t.blocks[name];
      assert gone in t.cells;
      forall n | n in t'.blocks ensures t'.blocks[n] != gone {
        if n != name {
          assert t'.blocks[n] == t.blocks[n];
        }
      }
    }
    forall h | h in t.blocks.Values + pinned && h in t'.blocks.Values + pinned
      ensures h in t'.cells
    {
    }
    forall h | h in t'.blocks.Values ensures h in t'.cells {
      var n :| n in t'.blocks && t'.blocks[n] == h;
      if n != name {
        assert t.blocks[n] == h;
      }
    }
    forall h | h in t'.cells && h != t.next ensures h in t'.blocks.Values + pinned {
    }
  }

  /**
   * `alias_block`: when `name` is registered, `alias` maps to the very same cell (a cell
   * the alias held before may be dropped); otherwise nothing changes.
   */
  function Aliased(t: Table, pinned: set<Handle>, name: string, alias: string): Table
  {
    if name in t.blocks then
      var blocks := t.blocks[alias := t.blocks[name]];
      Table(blocks, Retained(t.cells, blocks.Values + pinned), t.next)
    else t
  }

  /**
   * After aliasing, the alias looks up the same cell as the name and every other name is
   * unchanged; an unknown name leaves the table as it was.
   */
  lemma AliasedSpec(t: Table, pinned: set<Handle>, name: string, alias: string)
    requires WellFormed(t, pinned)
    ensures var t' := Aliased(t, pinned, name, alias);
      && WellFormed(t', pinned)
      && (name in t.blocks ==> Lookup(t', alias) == Lookup(t', name) == Some(t.blocks[name]))
      && (name !in t.blocks ==> t' == t)
      && (forall n :: n != alias ==> Lookup(t', n) == Lookup(t, n))
      && (forall n :: n in t'.blocks ==> t'.cells[t'.blocks[n]] == t.cells[t'.blocks[n]])
  {
    if name in t.blocks {
      var t' := Aliased(t, pinned, name, alias);
      forall h | h in t'.blocks.Values ensures h in t'.cells {
        var n :| n in t'.blocks && t'.blocks[n] == h;
        if n != alias {
          assert t.blocks[n] == h;
        } else {
          assert t.blocks[name] == h;
        }
      }
    }
  }

  /** The slices a pass over `order` steps through: one more name at a time, from none to all. */
  lemma PrefixStep(order: seq<string>, i: nat)
    requires i < |order|
    ensures order[..i + 1] == order[..i] + [order[i]]
    ensures order[..0] == [] && order[..|order|] == order
  {
  }

  /** `order` lists every registered name exactly once: one pass of `values_mut()`. */
  ghost predicate Enumerates(order: seq<string>, blocks: map<string, Handle>)
  {
    && (forall i, j :: 0 <= i < j < |order| ==> order[i] != order[j])
    && (forall n :: n in blocks <==> n in order)
  }

  /**
   * Part way through a pass over the registry: the names in `order` are done, each once,
   * and the names in `remaining` are still to come.
   */
  ghost predicate Listed(order: seq<string>, remaining: set<string>, blocks: map<string, Handle>)
  {
    && (forall i, j :: 0 <= i < j < |order| ==> order[i] != order[j])
    && (forall n :: n in blocks <==> n in remaining || n in order)
    && (forall n :: n in order ==> n !in remaining)
  }

  /** Taking one more name of `remaining` keeps the pass consistent. */
  lemma ListedStep(order: seq<string>, remaining: set<string>, blocks: map<string, Handle>, n: string)
    requires Listed(order, remaining, blocks) && n in remaining
    ensures Listed(order + [n], remaining - {n}, blocks)
  {
    assert forall m :: m in order + [n] <==> m in order || m == n;
  }

  /**
   * One frame of the registry loop: the cell of every name in `order` is stepped, in that
   * order. Stepping changes runtime state only, and a cell that no listed name maps to
   * (the driver's output when it is not registered, say) is not stepped at all.
   */
  function Frame(sine: real -> real, cells: map<Handle, Block>, blocks: map<string, Handle>, order: seq<string>)
    : (r: map<Handle, Block>)
    requires Runnable(cells, blocks)
    requires forall n :: n in order ==> n in blocks
    ensures SameSkeletons(cells, r) && Runnable(r, blocks)
    ensures forall k, ch :: CellReadable(cells, k, ch) ==> CellReadable(r, k, ch)
    ensures forall k :: k in cells && (forall n :: n in order ==> blocks[n] != k) ==> r[k] == cells[k]
    decreases |order|
  {
    if order == [] then cells
    else
      var n := order[|order| - 1];
      var prev := Frame(sine, cells, blocks, order[..|order| - 1]);
      Signal.StepCell(sine, prev, blocks[n])
  }

  /**
   * Every entry is stepped once per frame, so a cell registered under two names is
   * stepped twice, whichever order the map yields the names in.
   */
  lemma AliasedCellSteppedTwice(sine: real -> real, cells: map<Handle, Block>, h: Handle, a: string, b: string,
                                order: seq<string>)
    requires Acyclic(cells) && h in cells && Steppable(cells, cells[h], h) && a != b
    requires Enumerates(order, map[a := h, b := h])
    ensures Frame(sine, cells, map[a := h, b := h], order)
         == Signal.StepCell(sine, Signal.StepCell(sine, cells, h), h)
  {
    var blocks := map[a := h, b := h];
    EnumeratesPair(order, blocks, h, a, b);
    assert blocks.Values == {h};
    FrameOfTwo(sine, cells, blocks, order, h);
  }

  /** A frame over two names that both map to cell `h` steps that cell twice. */
  lemma FrameOfTwo(sine: real -> real, cells: map<Handle, Block>, blocks: map<string, Handle>, order: seq<string>,
                   h: Handle)
    requires Runnable(cells, blocks) && h in cells
    requires |order| == 2 && order[0] in blocks && order[1] in blocks
    requires blocks[order[0]] == h && blocks[order[1]] == h
    ensures Frame(sine, cells, blocks, order) == Signal.StepCell(sine, Signal.StepCell(sine, cells, h), h)
  {
    assert order == [] + [order[0]] + [order[1]];
    FrameSnoc(sine, cells, blocks, [], order[0]);
    FrameSnoc(sine, cells, blocks, [order[0]], order[1]);
  }

  /** The frame over `order + [n]` is the frame over `order`, then the step of `n`'s cell. */
  lemma FrameSnoc(sine: real -> real, cells: map<Handle, Block>, blocks: map<string, Handle>, order: seq<string>,
                  n: string)
    requires Runnable(cells, blocks)
    requires forall m :: m in order ==> m in blocks
    requires n in blocks
    ensures blocks[n] in Frame(sine, cells, blocks, order)
    ensures Frame(sine, cells, blocks, order + [n])
         == Signal.StepCell(sine, Frame(sine, cells, blocks, order), blocks[n])
  {
    var longer := order + [n];
    assert longer != [] && longer[|longer| - 1] == n && longer[..|longer| - 1] == order;
    var prev := Frame(sine, cells, blocks, order);
    assert Frame(sine, cells, blocks, longer) == Signal.StepCell(sine, prev, blocks[n]);
  }

  /**
   * The stepping loop shared by the mixer's and the driver's `next`: every registry entry is
   * stepped once, in the map's iteration order `order`.
   */
  method StepEntries(sine: real -> real, cells: map<Handle, Block>, blocks: map<string, Handle>)
    returns (r: map<Handle, Block>, ghost order: seq<string>)
    requires Runnable(cells, blocks)
    ensures Enumerates(order, blocks)
    ensures r == Frame(sine, cells, blocks, order)
  {
    r, order := cells, [];
    var remaining := blocks.Keys;
    while remaining != {}
      invariant Listed(order, remaining, blocks)
      invariant r == Frame(sine, cells, blocks, order)
      decreases remaining
    {
      var n :| n in remaining;
      var h := blocks[n];
      FrameSnoc(sine, cells, blocks, order, n);
      ListedStep(order, remaining, blocks, n);
      var stepped := Signal.Step(sine, r, r[h], h);
      r := r[h := stepped];
      order := order + [n];
      remaining := remaining - {n};
    }
  }

  /** A registry of two distinct names is enumerated by a list of length two. */
  lemma EnumeratesPair(order: seq<string>, blocks: map<string, Handle>, h: Handle, a: string, b: string)
    requires a != b && blocks == map[a := h, b := h] && Enumerates(order, blocks)
    ensures |order| == 2 && blocks[order[0]] == h && blocks[order[1]] == h
  {
    DistinctElements(order);
    assert (set n | n in order) == {a, b};
    assert |{a, b}| == 2;
    assert order[0] in order && order[1] in order;
  }

  /** A list without repetitions has as many distinct elements as entries. */
  lemma {:induction false} DistinctElements(s: seq<string>)
    requires forall i, j :: 0 <= i < j < |s| ==> s[i] != s[j]
    ensures |set n | n in s| == |s|
  {
    if s != [] {
      var init := s[..|s| - 1];
      DistinctElements(init);
      assert s == init + [s[|s| - 1]];
      assert (set n | n in s) == (set n | n in init) + {s[|s| - 1]};
      assert s[|s| - 1] !in init;
    }
  }
}
