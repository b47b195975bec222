/**
 * `BlockBreaker::Counter` and the three `Worker` transitions that move a particle along
 * its life and adjust the counters with it, stated on a snapshot of the field.
 */
module Bookkeeping {
  import opened Ints
  import opened Particles

  /** `Counter`: the `uint32_t` tallies `m_block`, `m_fall` and `m_ball`. */
  datatype Counter = Counter(block: u32, fall: u32, ball: u32)

  /** The particles of the playfield together with the counter that tracks them. */
  datatype Field = Field(cells: seq<Particle>, counter: Counter)

  /** The counter invariant: each counter equals the number of particles in its state. */
  predicate Tallied(f: Field)
  {
    |f.cells| < Pow32
    && f.counter.block == Count(f.cells, Block)
    && f.counter.fall == Count(f.cells, Fall)
    && f.counter.ball == Count(f.cells, Ball)
  }

  /** `Counter::GetRemovedBallCount`: `size - block - fall - ball`, in `uint32_t`. */
  function RemovedCount(f: Field): u32
  {
    Wrap32(|f.cells| - f.counter.block - f.counter.fall - f.counter.ball)
  }

  /** Under the counter invariant the removed count is the number of Deleted particles: it never wraps. */
  lemma RemovedCountIsDeleted(f: Field)
    requires Tallied(f)
    ensures RemovedCount(f) == Count(f.cells, Deleted)
  {
    CountPartition(f.cells);
  }

  /** `Worker::BreakParticle`: the block count drops only for a Block, the fall count always rises. */
  function AfterBreak(f: Field, k: nat): (r: Field)
    requires k < |f.cells|
    ensures |r.cells| == |f.cells|
  {
    var c := f.counter;
    Field(f.cells[k := f.cells[k].(state := Fall)],
          c.(block := if f.cells[k].state == Block then Wrap32(c.block - 1) else c.block,
             fall := Wrap32(c.fall + 1)))
  }

  /** `Worker::MakeBall`: the fall count drops only for a Fall, the ball count always rises. */
  function AfterMakeBall(f: Field, k: nat): (r: Field)
    requires k < |f.cells|
    ensures |r.cells| == |f.cells|
  {
    var c := f.counter;
    Field(f.cells[k := f.cells[k].(state := Ball)],
          c.(fall := if f.cells[k].state == Fall then Wrap32(c.fall - 1) else c.fall,
             ball := Wrap32(c.ball + 1)))
  }

  /**
   * `Worker::RemoveParticle`: the particle becomes Deleted whatever its state; a Fall or
   * Ball is taken off its counter and the call reports true, otherwise nothing is counted.
   */
  function AfterRemove(f: Field, k: nat): (r: (bool, Field))
    requires k < |f.cells|
    ensures |r.1.cells| == |f.cells|
  {
    var c := f.counter;
    var st := f.cells[k].state;
    var c' := if st == Fall then c.(fall := Wrap32(c.fall - 1))
              else if st == Ball then c.(ball := Wrap32(c.ball - 1))
              else c;
    (st == Fall || st == Ball, Field(f.cells[k := f.cells[k].(state := Deleted)], c'))
  }

  /**
   * Breaking a Block keeps the counter invariant: it becomes Fall, the block count
   * drops by one, the fall count rises by one, the ball count is unchanged.
   */
  lemma BreakKeepsTally(f: Field, k: nat)
    requires Tallied(f) && k < |f.cells| && f.cells[k].state == Block
    ensures var r := AfterBreak(f, k);
      Tallied(r) && r.cells[k].state == Fall
      && r.counter == Counter(f.counter.block - 1, f.counter.fall + 1, f.counter.ball)
  {
    var p := f.cells[k].(state := Fall);
    CountUpdate(f.cells, k, p, Block);
    CountUpdate(f.cells, k, p, Fall);
    CountUpdate(f.cells, k, p, Ball);
    CountAtLeastOne(f.cells, k);
    CountPartition(f.cells);
  }

  /**
   * The fall count rises even when the particle was not a Block: breaking a particle
   * that is already falling leaves the counter out of step with the particles.
   */
  lemma BreakOfFallBreaksTally(f: Field, k: nat)
    requires Tallied(f) && k < |f.cells| && f.cells[k].state == Fall
    ensures !Tallied(AfterBreak(f, k))
  {
    CountUpdate(f.cells, k, f.cells[k], Fall);
    assert f.cells[k := f.cells[k]] == f.cells;
    assert f.cells[k].(state := Fall) == f.cells[k];
    CountPartition(f.cells);
  }

  /**
   * Making a Fall into a Ball keeps the counter invariant: the fall count drops by one,
   * the ball count rises by one, the block count is unchanged.
   */
  lemma MakeBallKeepsTally(f: Field, k: nat)
    requires Tallied(f) && k < |f.cells| && f.cells[k].state == Fall
    ensures var r := AfterMakeBall(f, k);
      Tallied(r) && r.cells[k].state == Ball
      && r.counter == Counter(f.counter.block, f.counter.fall - 1, f.counter.ball + 1)
  {
    var p := f.cells[k].(state := Ball);
    CountUpdate(f.cells, k, p, Block);
    CountUpdate(f.cells, k, p, Fall);
    CountUpdate(f.cells, k, p, Ball);
    CountAtLeastOne(f.cells, k);
    CountPartition(f.cells);
  }

  /**
   * Removing keeps the counter invariant from any state but Block: the particle ends
   * Deleted, the call reports true exactly for a Fall or a Ball, and exactly the
   * matching counter drops by one.
   */
  lemma RemoveKeepsTally(f: Field, k: nat)
    requires Tallied(f) && k < |f.cells| && f.cells[k].state != Block
    ensures var (removed, r) := AfterRemove(f, k);
      var st := f.cells[k].state;
      Tallied(r) && r.cells[k].state == Deleted
      && (removed <==> st == Fall || st == Ball)
      && r.counter.block == f.counter.block
      && r.counter.fall == f.counter.fall - (if st == Fall then 1 else 0)
      && r.counter.ball == f.counter.ball - (if st == Ball then 1 else 0)
  {
    var p := f.cells[k].(state := Deleted);
    CountUpdate(f.cells, k, p, Block);
    CountUpdate(f.cells, k, p, Fall);
    CountUpdate(f.cells, k, p, Ball);
    CountAtLeastOne(f.cells, k);
  }

  /**
   * Removing a Block deletes it without lowering any count: it reports false, and the
   * block count is then one above the number of blocks left.
   */
  lemma RemoveOfBlockBreaksTally(f: Field, k: nat)
    requires Tallied(f) && k < |f.cells| && f.cells[k].state == Block
    ensures var (removed, r) := AfterRemove(f, k);
      !removed && r.cells[k].state == Deleted && r.counter == f.counter
      && r.counter.block == Count(r.cells, Block) + 1
  {
    CountUpdate(f.cells, k, f.cells[k].(state := Deleted), Block);
  }

  /** Removing the same particle a second time reports false and changes no counter. */
  lemma RemoveTwiceIsNoOp(f: Field, k: nat)
    requires k < |f.cells|
    ensures var (_, once) := AfterRemove(f, k);
      var (again, twice) := AfterRemove(once, k);
      !again && twice == once
  {
  }
}
