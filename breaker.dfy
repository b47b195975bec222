/**
 * `BlockBreaker`: the game object that owns the counter, sweeps the playfield once a
 * tick with its `Worker`, moves the bar and latches "cleared".
 */
module Breaker {
  import opened Ints
  import opened Options
  import opened Particles
  import opened Bookkeeping
  import opened Playfield
  import opened Paddle
  import opened Simulation
  import Screen

  class BlockBreaker {
    const blocks: Blocks
    const bar: Bar
    /** The `Counter` fields `m_block`, `m_fall`, `m_ball`. */
    var block: u32
    var fall: u32
    var ball: u32
    /** `m_cleared`: set once no block is left, never reset. */
    var cleared: bool

    /** The particles and the counter, as the value the transitions are specified on. */
    ghost function Snap(): Field
      reads this, blocks.cells
    {
      Field(blocks.cells[..], Counter(block, fall, ball))
    }

    /**
     * The game invariant: the field has its `w*h+1` slots, each counter equals the number
     * of particles in its state, every Block sits in its own cell, and "cleared" implies
     * that no block is left.
     */
    ghost predicate Valid()
      reads this, blocks.cells
    {
      blocks.cells.Length == blocks.width * blocks.height + 1
      && Tallied(Snap())
      && Settled(blocks.cells[..], blocks.width, blocks.height)
      && (cleared ==> block == 0)
    }

    /**
     * `BlockBreaker(bar, blocks)`: the counter starts with every slot a block; the last
     * slot is broken and made a ball, moved to the middle of the screen and launched up
     * and to the right with two random draws.
     */
    constructor (bar: Bar, blocks: Blocks, drawVx: Draw, drawVy: Draw)
      requires blocks.Pristine()
      modifies blocks.cells
      ensures this.bar == bar && this.blocks == blocks
      ensures Valid() && !cleared
      ensures block == blocks.cells.Length - 1 && fall == 0 && ball == 1
      ensures blocks.cells[blocks.cells.Length - 1]
              == Particle(Screen.Width / 2, Screen.Height / 2, RandSafe(drawVx), -RandSafe(drawVy), Ball)
      ensures forall k :: 0 <= k < blocks.cells.Length - 1 ==> blocks.cells[k] == old(blocks.cells[k])
    {
      this.blocks := blocks;
      this.bar := bar;
      block := Wrap32(blocks.cells.Length);
      fall := 0;
      ball := 0;
      cleared := false;
      new;
      ghost var start := Snap();
      assert |start.cells| < Pow32 by {
        MulMono(blocks.width, Pow16, blocks.height);
        MulMono(blocks.height, Pow16, Pow16);
      }
      CountAbsent(start.cells, Fall);
      CountAbsent(start.cells, Ball);
      CountAbsent(start.cells, Deleted);
      CountPartition(start.cells);
      assert Tallied(start);
      var last := blocks.cells.Length - 1;
      BreakParticle(last);
      BreakKeepsTally(start, last);
      ghost var broken := Snap();
      MakeBall(last);
      MakeBallKeepsTally(broken, last);
      var p := blocks.cells[last];
      blocks.cells[last] := p.(x := Screen.Width / 2, y := Screen.Height / 2,
                               vx := RandSafe(drawVx), vy := -RandSafe(drawVy));
      VelocityKeepsTally(AfterMakeBall(broken, last), last, blocks.cells[last]);
    }

    /** `Counter::GetBlockCount`: the number of blocks left. */
    function GetBlockCount(): (r: u32)
      reads this, blocks.cells
      ensures Valid() ==> r == Count(blocks.cells[..], Block)
    {
      block
    }

    /** `Counter::GetFallCount`: the number of falling particles. */
    function GetFallCount(): (r: u32)
      reads this, blocks.cells
      ensures Valid() ==> r == Count(blocks.cells[..], Fall)
    {
      fall
    }

    /** `Counter::GetBallCount`: the number of balls in play. */
    function GetBallCount(): (r: u32)
      reads this, blocks.cells
      ensures Valid() ==> r == Count(blocks.cells[..], Ball)
    {
      ball
    }

    /**
     * `Counter::GetRemovedBallCount`: slots minus the three counters, in `uint32_t`; in a
     * valid game it is the number of Deleted particles and does not wrap.
     */
    function GetRemovedBallCount(): (r: u32)
      reads this, blocks.cells
      ensures Valid() ==> r == Count(blocks.cells[..], Deleted)
    {
      assert Tallied(Snap()) ==> RemovedCount(Snap()) == Count(Snap().cells, Deleted) by {
        if Tallied(Snap()) {
          RemovedCountIsDeleted(Snap());
        }
      }
      Wrap32(blocks.cells.Length - block - fall - ball)
    }

    /** `IsCleared`: once latched, a valid game has no Block left. */
    function IsCleared(): (r: bool)
      reads this, blocks.cells
      ensures Valid() && r ==> block == 0 && Count(blocks.cells[..], Block) == 0
    {
      cleared
    }

    /** `Worker::RemoveParticle` on slot k. */
    method RemoveParticle(k: nat) returns (removed: bool)
      requires k < blocks.cells.Length
      modifies this`fall, this`ball, blocks.cells
      ensures (removed, Snap()) == AfterRemove(old(Snap()), k)
    {
      removed := true;
      var p := blocks.cells[k];
      if p.state == Fall {
        fall := Wrap32(fall - 1);
      } else if p.state == Ball {
        ball := Wrap32(ball - 1);
      } else {
        removed := false;
      }
      blocks.cells[k] := p.(state := Deleted);
    }

    /** `Worker::BreakParticle` on slot k. */
    method BreakParticle(k: nat)
      requires k < blocks.cells.Length
      modifies this`block, this`fall, blocks.cells
      ensures Snap() == AfterBreak(old(Snap()), k)
    {
      var p := blocks.cells[k];
      if p.state == Block {
        block := Wrap32(block - 1);
      }
      blocks.cells[k] := p.(state := Fall);
      fall := Wrap32(fall + 1);
    }

    /** `Worker::MakeBall` on slot k. */
    method MakeBall(k: nat)
      requires k < blocks.cells.Length
      modifies this`fall, this`ball, blocks.cells
      ensures Snap() == AfterMakeBall(old(Snap()), k)
    {
      var p := blocks.cells[k];
      if p.state == Fall {
        fall := Wrap32(fall - 1);
      }
      blocks.cells[k] := p.(state := Ball);
      ball := Wrap32(ball + 1);
    }

    /** `Worker::UpdateFallBlock` on slot k. */
    method UpdateFallBlock(k: nat, s: FallSample)
      requires k < blocks.cells.Length
      modifies this`fall, this`ball, blocks.cells
      ensures Snap() == Simulation.UpdateFallBlock(old(Snap()), bar.Box(), k, s)
    {
      var p := blocks.cells[k];
      blocks.cells[k] := p.(vy := p.vy + 0.1);
      if bar.IsHited(s.cx, s.cy) {
        MakeBall(k);
        var q := blocks.cells[k];
        blocks.cells[k] := q.(vx := RandSafe(s.drawVx), vy := RandSafe(s.drawVy) + 1.0);
      } else if s.belowBottom {
        var _ := RemoveParticle(k);
      }
    }

    /** The block collision of a ball's sub-step, on slot k. */
    method StrikeBlock(k: nat, cx: u32, cy: u32, cosine: real)
      requires k < blocks.cells.Length
      modifies this`block, this`fall, blocks.cells
      ensures Snap() == Simulation.StrikeBlock(old(Snap()), blocks.width, k, cx, cy, cosine)
    {
      var hit := blocks.GetParticle(cx, cy);
      if hit.Some? && blocks.cells[hit.value].state == Block {
        var h := hit.value;
        BreakParticle(h);
        var q := blocks.cells[h];
        blocks.cells[h] := q.(vx := cosine * (if q.vx < 0.0 then -3.0 else 3.0), vy := 1.0);
        var b := blocks.cells[k];
        blocks.cells[k] := b.(vy := -b.vy);
      }
    }

    /** The edge, bottom and bar rules of a ball's sub-step, on slot k. */
    method Bounce(k: nat, s: BallSample)
      requires k < blocks.cells.Length && s.Moved?
      modifies this`fall, this`ball, blocks.cells
      ensures Snap() == Simulation.Bounce(old(Snap()), bar.Box(), k, s)
    {
      var p := blocks.cells[k];
      if (s.leftOut && p.vx < 0.0) || (s.rightOut && p.vx > 0.0) {
        blocks.cells[k] := p.(vx := -p.vx);
      }
      p := blocks.cells[k];
      if s.aboveTop && p.vy < 0.0 {
        blocks.cells[k] := p.(vy := -p.vy);
      }
      if s.belowBottom {
        var _ := RemoveParticle(k);
      }
      if bar.IsHited(s.cx, s.cy) {
        p := blocks.cells[k];
        blocks.cells[k] := p.(vy := -Abs(p.vy));
      }
    }

    /** `Worker::UpdateBall` on slot k: its sub-step loop runs at most once. */
    method UpdateBall(k: nat, s: BallSample)
      requires k < blocks.cells.Length
      modifies this`block, this`fall, this`ball, blocks.cells
      ensures Snap() == Simulation.UpdateBall(old(Snap()), bar.Box(), blocks.width, k, s)
    {
      if s.Moved? {
        StrikeBlock(k, s.cx, s.cy, s.cosine);
        Bounce(k, s);
      }
    }

    /**
     * `Worker::operator()` on slot k: a Deleted particle is skipped, a Block is only
     * drawn, a Fall or a Ball is updated. The game invariant is kept.
     */
    method Visit(k: nat, e: Env)
      requires Valid() && k < blocks.cells.Length
      modifies this`block, this`fall, this`ball, blocks.cells
      ensures Valid()
      ensures Snap() == Simulation.Visit(old(Snap()), bar.Box(), blocks.width, k, e)
      ensures Advances(old(blocks.cells[..]), blocks.cells[..])
    {
      ghost var before := Snap();
      match blocks.cells[k].state {
        case Deleted =>
        case Block =>
        case Fall => UpdateFallBlock(k, e.fall);
        case Ball => UpdateBall(k, e.ball);
      }
      VisitKeepsTally(before, bar.Box(), blocks.width, k, e);
      AdvancesKeepsSettled(before.cells, blocks.cells[..], blocks.width, blocks.height);
    }

    /**
     * `BlockBreaker::Update`: visit every slot in storage order, then update the bar
     * from this tick's input, then latch "cleared" when no block is left.
     */
    method Update(envs: seq<Env>, input: Input)
      requires Valid() && |envs| == blocks.cells.Length
      modifies this, blocks.cells, bar
      ensures Valid()
      ensures Snap() == SweepFrom(old(Snap()), old(bar.Box()), blocks.width, envs, 0)
      ensures Advances(old(blocks.cells[..]), blocks.cells[..])
      ensures bar.x == UpdateX(old(bar.x), bar.width, bar.speed, bar.rate, input)
      ensures bar.speedup == input.SpeedUp()
      ensures cleared == (old(cleared) || block == 0)
    {
      var box := bar.Box();
      var k := 0;
      while k < blocks.cells.Length
        modifies this`block, this`fall, this`ball, blocks.cells
        invariant k <= blocks.cells.Length && Valid()
        invariant SweepFrom(Snap(), box, blocks.width, envs, k) == SweepFrom(old(Snap()), box, blocks.width, envs, 0)
        invariant Advances(old(blocks.cells[..]), blocks.cells[..])
      {
        ghost var before := blocks.cells[..];
        Visit(k, envs[k]);
        AdvancesTransitive(old(blocks.cells[..]), before, blocks.cells[..]);
        k := k + 1;
      }
      bar.Update(input);
      if block == 0 {
        cleared := true;
      }
    }
  }
}
