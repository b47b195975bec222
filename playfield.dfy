/** `Blocks`: the row-major playfield of particles and its lookup by grid cell. */
module Playfield {
  import opened Ints
  import opened Options
  import opened Particles
  import Screen

  /** Storage slot of grid cell (x, y) in a row-major field `w` cells wide. */
  function Slot(w: int, x: int, y: int): int
  {
    x + y * w
  }

  /** A particle "sits in" slot k of a w-by-h field when its stored position is the cell of k. */
  predicate InCell(p: Particle, w: int, h: int, k: int)
  {
    0 <= p.x < w && 0 <= p.y < h && Slot(w, p.x, p.y) == k
  }

  /**
   * `GetParticle`'s index, computed in `uint32_t` arithmetic: the row offset `y * w` and
   * the sum both wrap modulo 2^32.
   */
  function CellIndex(w: u16, x: u32, y: u32): u32
  {
    Wrap32(x + Wrap32(y * w))
  }

  /** `Blocks::GetParticle`: the slot of cell (x, y), or None (a NULL pointer) past the last slot. */
  function Lookup(w: u16, size: nat, x: u32, y: u32): (r: Option<nat>)
    ensures r.Some? ==> r.value < size
    ensures r.None? <==> CellIndex(w, x, y) >= size
    ensures r.Some? ==> r.value == CellIndex(w, x, y)
  {
    var index := CellIndex(w, x, y);
    if index >= size then None else Some(index)
  }

  lemma SlotInGrid(w: nat, h: nat, x: nat, y: nat)
    requires x < w && y < h
    ensures Slot(w, x, y) < w * h
  {
    calc {
      Slot(w, x, y);
    <  w + y * w;
    == (y + 1) * w;
    <= { assert y + 1 <= h; MulMono(y + 1, h, w); } h * w;
    }
  }

  lemma MulMono(a: nat, b: nat, c: nat)
    requires a <= b
    ensures a * c <= b * c
  {
  }

  /** In a field of w*h+1 slots, every grid cell is found, at its row-major slot, with no wrap-around. */
  lemma {:induction false} LookupInGrid(w: u16, h: u16, x: u32, y: u32)
    requires x < w && y < h
    ensures Lookup(w, w * h + 1, x, y) == Some(Slot(w, x, y))
  {
    SlotInGrid(w, h, x, y);
    MulMono(y, h, w);
    MulMono(h, Pow16, w);
    MulMono(w, Pow16, Pow16);
    assert y * w < Pow32;
  }

  /**
   * Two cells of a row-major layout that share a slot are the same cell, provided the
   * column is within the row width.
   */
  lemma {:induction false} SlotInjective(w: int, x1: int, y1: int, x2: int, y2: int)
    requires 0 <= x1 < w && 0 <= x2 < w
    requires Slot(w, x1, y1) == Slot(w, x2, y2)
    ensures x1 == x2 && y1 == y2
  {
    if y1 < y2 {
      assert (y1 + 1) * w == y1 * w + w;
      MulMonoInt(y1 + 1, y2, w);
    } else if y2 < y1 {
      assert (y2 + 1) * w == y2 * w + w;
      MulMonoInt(y2 + 1, y1, w);
    }
  }

  lemma MulMonoInt(a: int, b: int, c: nat)
    requires a <= b
    ensures a * c <= b * c
  {
    assert b * c - a * c == (b - a) * c;
  }

  /** The particle `Blocks(height)` puts in slot k: a block at its grid cell, or the default one past the grid. */
  function InitialParticle(w: nat, h: nat, k: nat): Particle
    requires w > 0
  {
    if k < w * h then NewParticle(k % w, k / w) else NewParticle(200, 200)
  }

  /** Every Block sits in the cell of its own slot (the seed slot past the grid holds none). */
  ghost predicate Settled(cells: seq<Particle>, w: int, h: int)
  {
    forall k :: 0 <= k < |cells| && cells[k].state == Block ==> InCell(cells[k], w, h, k)
  }

  /**
   * When the index does not wrap and the column is within the row, the Block that
   * `GetParticle(x, y)` finds in a settled field is the one whose stored position is (x, y).
   */
  lemma {:induction false} FoundBlockSitsInCell(cells: seq<Particle>, w: u16, h: u16, x: u32, y: u32)
    requires Settled(cells, w, h)
    requires x < w && x + y * w < Pow32
    requires Lookup(w, |cells|, x, y).Some?
    requires cells[Lookup(w, |cells|, x, y).value].state == Block
    ensures var p := cells[Lookup(w, |cells|, x, y).value]; p.x == x && p.y == y
  {
    var k := Lookup(w, |cells|, x, y).value;
    assert y * w >= 0;
    assert k == Slot(w, x, y);
    SlotInjective(w, cells[k].x, cells[k].y, x, y);
  }

  class Blocks {
    /** `m_width`: the screen width stored in a `uint16_t`. */
    const width: u16 := Wrap16(Screen.Width)
    const height: u16
    /** `m_blocks`: the vector of `width * height + 1` particles, never resized. */
    const cells: array<Particle>

    /**
     * `Blocks(uint16_t height)`: every slot holds a block; slot `i + j*width` of the grid
     * holds the particle at (i, j), and the trailing slot the default particle at (200, 200).
     */
    constructor (height: u16)
      ensures this.height == height && fresh(cells)
      ensures cells.Length == width * height + 1
      ensures forall k :: 0 <= k < cells.Length ==> cells[k] == InitialParticle(width, height, k)
      ensures Pristine()
    {
      this.height := height;
      var n := width * height + 1;
      var a := new Particle[n](_ => NewParticle(200, 200));
      var i := 0;
      while i < width
        invariant 0 <= i <= width && a.Length == n
        invariant forall k :: 0 <= k < n ==>
          a[k] == if k < width * height && k % width < i then NewParticle(k % width, k / width) else NewParticle(200, 200)
      {
        var j := 0;
        while j < height
          invariant 0 <= j <= height
          invariant forall k :: 0 <= k < n ==>
            a[k] == if k < width * height && (k % width < i || (k % width == i && k / width < j))
                    then NewParticle(k % width, k / width) else NewParticle(200, 200)
        {
          a[Slot(width, i, j)] := NewParticle(i, j);
          j := j + 1;
        }
        i := i + 1;
      }
      cells := a;
    }

    /**
     * The layout `Blocks(height)` leaves: every slot a block, each grid slot's particle
     * sitting in that slot's cell, the trailing slot holding the default particle.
     */
    ghost predicate Pristine()
      reads cells
    {
      cells.Length == width * height + 1
      && (forall k :: 0 <= k < cells.Length ==> cells[k].state == Block)
      && (forall k :: 0 <= k < cells.Length - 1 ==> InCell(cells[k], width, height, k))
      && cells[cells.Length - 1] == NewParticle(200, 200)
    }

    /**
     * In a freshly built field, every grid cell (i, j) is found, and the particle there is
     * a Block whose stored position is (i, j).
     */
    lemma {:induction false} PristineCellHoldsItsBlock(i: u32, j: u32)
      requires Pristine() && i < width && j < height
      ensures var r := GetParticle(i, j);
        r.Some? && cells[r.value].state == Block && cells[r.value].x == i && cells[r.value].y == j
    {
      LookupInGrid(width, height, i, j);
      SlotInGrid(width, height, i, j);
      var k := Slot(width, i, j);
      assert InCell(cells[k], width, height, k);
      SlotInjective(width, cells[k].x, cells[k].y, i, j);
    }

    /** `GetParticle(x, y)`: the slot of cell (x, y), or None when the index is past the last slot. */
    function GetParticle(x: u32, y: u32): (r: Option<nat>)
      ensures r.Some? ==> r.value < cells.Length
      ensures r.None? <==> CellIndex(width, x, y) >= cells.Length
      ensures r.Some? ==> r.value == CellIndex(width, x, y)
    {
      Lookup(width, cells.Length, x, y)
    }
  }
}
