/**
 * `BlockBreaker::Worker`'s per-particle dispatch and the sweep of one tick, on a
 * snapshot of the field. The float motion is not modelled: what it decides for a
 * particle in a tick (the cell it lands in, whether it left the screen, the random
 * draws and the cosine of the deflection angle) is given as a sample.
 */
module Simulation {
  import opened Ints
  import opened Options
  import opened Particles
  import opened Bookkeeping
  import opened Playfield
  import opened Paddle

  /** A draw of the random source `GetRand(98)`: 0 to 98. */
  type Draw = d: int | 0 <= d <= 98

  /** `GetRandSafe`: a draw mapped to 0.1 .. 9.9. */
  function RandSafe(d: Draw): (r: real)
    ensures 0.1 <= r <= 9.9
  {
    (d + 1) as real / 10.0
  }

  function Abs(v: real): real { if v < 0.0 then -v else v }

  /**
   * What a tick decides for a falling particle: the cell (cx, cy) its new position
   * converts to, whether it is below the screen, and the two draws of a relaunch.
   */
  datatype FallSample = FallSample(cx: u32, cy: u32, belowBottom: bool, drawVx: Draw, drawVy: Draw)

  /**
   * What a tick decides for a ball. Its sub-step count `0.5^(vx*vx + vy*vy)` is at most
   * one, so the sub-step loop runs once (Moved) or, when the count is 0, not at all (Still).
   * A Moved sample gives the cell (cx, cy) of the advanced position, whether it is left
   * of, right of, above or below the screen, and the cosine of the deflection angle.
   */
  datatype BallSample =
    | Still
    | Moved(cx: u32, cy: u32, leftOut: bool, rightOut: bool, aboveTop: bool, belowBottom: bool, cosine: real)

  /** The samples of one particle for one tick; the one for its state at that point is used. */
  datatype Env = Env(fall: FallSample, ball: BallSample)

  /** Replace the particle in slot k, keeping the counter. */
  function Put(f: Field, k: nat, p: Particle): (r: Field)
    requires k < |f.cells|
    ensures |r.cells| == |f.cells|
  {
    Field(f.cells[k := p], f.counter)
  }

  /**
   * `Worker::UpdateFallBlock`: gravity adds 0.1 to vy; a particle caught by the bar
   * becomes a ball relaunched with random velocity, otherwise one below the screen is
   * removed.
   */
  function UpdateFallBlock(f: Field, bar: Rect, k: nat, s: FallSample): (r: Field)
    requires k < |f.cells|
    ensures |r.cells| == |f.cells|
  {
    var p := f.cells[k];
    var g := Put(f, k, p.(vy := p.vy + 0.1));
    if bar.Contains(s.cx, s.cy) then
      var h := AfterMakeBall(g, k);
      Put(h, k, h.cells[k].(vx := RandSafe(s.drawVx), vy := RandSafe(s.drawVy) + 1.0))
    else if s.belowBottom then AfterRemove(g, k).1
    else g
  }

  /**
   * The block collision of a ball's sub-step: the particle `GetParticle(cx, cy)` finds,
   * if it is a Block, is broken and sent off with vx = cosine * (±3 by the sign of its
   * vx) and vy = 1, and the ball's vy is reversed.
   */
  function StrikeBlock(f: Field, w: u16, k: nat, cx: u32, cy: u32, cosine: real): (r: Field)
    requires k < |f.cells|
    ensures |r.cells| == |f.cells|
  {
    match Lookup(w, |f.cells|, cx, cy)
    case None => f
    case Some(h) =>
      if f.cells[h].state != Block then f
      else
        var g := AfterBreak(f, h);
        var q := g.cells[h];
        var g1 := Put(g, h, q.(vx := cosine * (if q.vx < 0.0 then -3.0 else 3.0), vy := 1.0));
        var b := g1.cells[k];
        Put(g1, k, b.(vy := -b.vy))
  }

  /**
   * The rest of a ball's sub-step: bounce off the side and top edges when moving
   * outwards, be removed below the screen, and leave the bar moving up.
   */
  function Bounce(f: Field, bar: Rect, k: nat, s: BallSample): (r: Field)
    requires k < |f.cells| && s.Moved?
    ensures |r.cells| == |f.cells|
  {
    var p := f.cells[k];
    var vx := if (s.leftOut && p.vx < 0.0) || (s.rightOut && p.vx > 0.0) then -p.vx else p.vx;
    var vy := if s.aboveTop && p.vy < 0.0 then -p.vy else p.vy;
    var f1 := Put(f, k, p.(vx := vx, vy := vy));
    var f2 := if s.belowBottom then AfterRemove(f1, k).1 else f1;
    if bar.Contains(s.cx, s.cy) then Put(f2, k, f2.cells[k].(vy := -Abs(f2.cells[k].vy))) else f2
  }

  /** `Worker::UpdateBall`: the sub-step loop, which runs at most once. */
  function UpdateBall(f: Field, bar: Rect, w: u16, k: nat, s: BallSample): (r: Field)
    requires k < |f.cells|
    ensures |r.cells| == |f.cells|
  {
    match s
    case Still => f
    case Moved(cx, cy, _, _, _, _, cosine) => Bounce(StrikeBlock(f, w, k, cx, cy, cosine), bar, k, s)
  }

  /** `Worker::operator()`: dispatch on the particle's state as the sweep reaches it. */
  function Visit(f: Field, bar: Rect, w: u16, k: nat, e: Env): (r: Field)
    requires k < |f.cells|
    ensures |r.cells| == |f.cells|
    ensures f.cells[k].state == Block || f.cells[k].state == Deleted ==> r == f
  {
    match f.cells[k].state
    case Deleted => f
    case Block => f
    case Fall => UpdateFallBlock(f, bar, k, e.fall)
    case Ball => UpdateBall(f, bar, w, k, e.ball)
  }

  /** `std::for_each` over the slots from k on, in storage order. */
  function SweepFrom(f: Field, bar: Rect, w: u16, envs: seq<Env>, k: nat): (r: Field)
    requires |envs| == |f.cells| && k <= |f.cells|
    ensures |r.cells| == |f.cells|
    decreases |f.cells| - k
  {
    if k == |f.cells| then f
    else SweepFrom(Visit(f, bar, w, k, envs[k]), bar, w, envs, k + 1)
  }

  /**
   * How particles may change over time: a state only moves forward along
   * Block, Fall, Ball, Deleted; a particle that is a Block afterwards is untouched; a
   * particle that was Deleted is untouched.
   */
  ghost predicate Advances(before: seq<Particle>, after: seq<Particle>)
  {
    |after| == |before|
    && forall i :: 0 <= i < |before| ==>
         Rank(before[i].state) <= Rank(after[i].state)
         && (after[i].state == Block ==> after[i] == before[i])
         && (before[i].state == Deleted ==> after[i] == before[i])
  }

  /** A change to one slot that is allowed relative to `origin`. */
  ghost predicate AllowedChange(origin: Particle, q: Particle)
  {
    Rank(origin.state) <= Rank(q.state)
    && (q.state == Block ==> q == origin)
    && (origin.state == Deleted ==> q == origin)
  }

  lemma AdvancesOverwrite(a: seq<Particle>, b: seq<Particle>, k: nat, q: Particle)
    requires Advances(a, b) && k < |a|
    requires AllowedChange(a[k], q)
    ensures Advances(a, b[k := q])
  {
  }

  lemma {:induction false} AdvancesTransitive(a: seq<Particle>, b: seq<Particle>, c: seq<Particle>)
    requires Advances(a, b) && Advances(b, c)
    ensures Advances(a, c)
  {
    forall i | 0 <= i < |a|
      ensures Rank(a[i].state) <= Rank(c[i].state)
      ensures c[i].state == Block ==> c[i] == a[i]
      ensures a[i].state == Deleted ==> c[i] == a[i]
    {
      if c[i].state == Block {
        assert b[i].state == Block;
      }
    }
  }

  /** A change to velocities only, in slots that are neither Block nor Deleted, keeps every tally. */
  lemma VelocityKeepsTally(f: Field, k: nat, p: Particle)
    requires Tallied(f) && k < |f.cells| && p.state == f.cells[k].state
    ensures Tallied(Put(f, k, p))
  {
    CountUpdate(f.cells, k, p, Block);
    CountUpdate(f.cells, k, p, Fall);
    CountUpdate(f.cells, k, p, Ball);
  }


  /**
   * The falling-particle update keeps the counter invariant, never raises the block
   * count, and only moves the particle forward.
   */
  lemma UpdateFallKeepsTally(f: Field, bar: Rect, k: nat, s: FallSample)
    requires Tallied(f) && k < |f.cells| && f.cells[k].state == Fall
    ensures var r := UpdateFallBlock(f, bar, k, s);
      Tallied(r) && r.counter.block == f.counter.block && Advances(f.cells, r.cells)
  {
    var p := f.cells[k];
    var g := Put(f, k, p.(vy := p.vy + 0.1));
    VelocityKeepsTally(f, k, p.(vy := p.vy + 0.1));
    AdvancesOverwrite(f.cells, f.cells, k, p.(vy := p.vy + 0.1));
    if bar.Contains(s.cx, s.cy) {
      MakeBallKeepsTally(g, k);
      var h := AfterMakeBall(g, k);
      AdvancesOverwrite(f.cells, g.cells, k, h.cells[k]);
      VelocityKeepsTally(h, k, h.cells[k].(vx := RandSafe(s.drawVx), vy := RandSafe(s.drawVy) + 1.0));
      AdvancesOverwrite(f.cells, h.cells, k, h.cells[k].(vx := RandSafe(s.drawVx), vy := RandSafe(s.drawVy) + 1.0));
    } else if s.belowBottom {
      RemoveKeepsTally(g, k);
      AdvancesOverwrite(f.cells, g.cells, k, AfterRemove(g, k).1.cells[k]);
    }
  }

  /**
   * A ball's block collision keeps the counter invariant; it lowers the block count by
   * one when a Block is found, changes nothing otherwise, and leaves the ball a Ball.
   */
  lemma StrikeBlockKeepsTally(f: Field, w: u16, k: nat, cx: u32, cy: u32, cosine: real)
    requires Tallied(f) && k < |f.cells| && f.cells[k].state == Ball
    ensures var r := StrikeBlock(f, w, k, cx, cy, cosine);
      Tallied(r) && r.counter.block <= f.counter.block && r.cells[k].state == Ball
      && Advances(f.cells, r.cells)
    ensures var r := StrikeBlock(f, w, k, cx, cy, cosine);
      var hit := Lookup(w, |f.cells|, cx, cy);
      if hit.Some? && f.cells[hit.value].state == Block then r.counter.block == f.counter.block - 1
      else r == f
  {
    match Lookup(w, |f.cells|, cx, cy)
    case None =>
    case Some(h) =>
      if f.cells[h].state == Block {
        BreakKeepsTally(f, h);
        var g := AfterBreak(f, h);
        AdvancesOverwrite(f.cells, f.cells, h, g.cells[h]);
        var q := g.cells[h];
        var q' := q.(vx := cosine * (if q.vx < 0.0 then -3.0 else 3.0), vy := 1.0);
        VelocityKeepsTally(g, h, q');
        AdvancesOverwrite(f.cells, g.cells, h, q');
        var g1 := Put(g, h, q');
        var b := g1.cells[k];
        VelocityKeepsTally(g1, k, b.(vy := -b.vy));
        AdvancesOverwrite(f.cells, g1.cells, k, b.(vy := -b.vy));
      }
  }

  /** The edge, bottom and bar rules keep the counter invariant and move the ball forward only. */
  lemma BounceKeepsTally(f: Field, bar: Rect, k: nat, s: BallSample)
    requires Tallied(f) && k < |f.cells| && f.cells[k].state == Ball && s.Moved?
    ensures var r := Bounce(f, bar, k, s);
      Tallied(r) && r.counter.block == f.counter.block && Advances(f.cells, r.cells)
  {
    var p := f.cells[k];
    var vx := if (s.leftOut && p.vx < 0.0) || (s.rightOut && p.vx > 0.0) then -p.vx else p.vx;
    var vy := if s.aboveTop && p.vy < 0.0 then -p.vy else p.vy;
    var f1 := Put(f, k, p.(vx := vx, vy := vy));
    VelocityKeepsTally(f, k, p.(vx := vx, vy := vy));
    AdvancesOverwrite(f.cells, f.cells, k, p.(vx := vx, vy := vy));
    var f2 := if s.belowBottom then AfterRemove(f1, k).1 else f1;
    if s.belowBottom {
      RemoveKeepsTally(f1, k);
      AdvancesOverwrite(f.cells, f1.cells, k, f2.cells[k]);
    }
    if bar.Contains(s.cx, s.cy) {
      var q := f2.cells[k].(vy := -Abs(f2.cells[k].vy));
      VelocityKeepsTally(f2, k, q);
      AdvancesOverwrite(f.cells, f2.cells, k, q);
    }
  }

  /**
   * The ball update keeps the counter invariant, never raises the block count, and only
   * moves particles forward.
   */
  lemma UpdateBallKeepsTally(f: Field, bar: Rect, w: u16, k: nat, s: BallSample)
    requires Tallied(f) && k < |f.cells| && f.cells[k].state == Ball
    ensures var r := UpdateBall(f, bar, w, k, s);
      Tallied(r) && r.counter.block <= f.counter.block && Advances(f.cells, r.cells)
  {
    if s.Moved? {
      var f1 := StrikeBlock(f, w, k, s.cx, s.cy, s.cosine);
      StrikeBlockKeepsTally(f, w, k, s.cx, s.cy, s.cosine);
      BounceKeepsTally(f1, bar, k, s);
      AdvancesTransitive(f.cells, f1.cells, Bounce(f1, bar, k, s).cells);
    }
  }

  /**
   * The dispatch keeps the counter invariant, never raises the block count, and only
   * moves particles forward (so it leaves every Deleted particle as it was).
   */
  lemma VisitKeepsTally(f: Field, bar: Rect, w: u16, k: nat, e: Env)
    requires Tallied(f) && k < |f.cells|
    ensures var r := Visit(f, bar, w, k, e);
      Tallied(r) && r.counter.block <= f.counter.block && Advances(f.cells, r.cells)
  {
    match f.cells[k].state
    case Deleted =>
    case Block =>
    case Fall => UpdateFallKeepsTally(f, bar, k, e.fall);
    case Ball => UpdateBallKeepsTally(f, bar, w, k, e.ball);
  }

  /**
   * A whole sweep keeps the counter invariant, never raises the block count, and only
   * moves particles forward: no Deleted particle changes, and no particle becomes a Block.
   */
  lemma {:induction false} SweepKeepsTally(f: Field, bar: Rect, w: u16, envs: seq<Env>, k: nat)
    requires Tallied(f) && |envs| == |f.cells| && k <= |f.cells|
    ensures var r := SweepFrom(f, bar, w, envs, k);
      Tallied(r) && r.counter.block <= f.counter.block && Advances(f.cells, r.cells)
    decreases |f.cells| - k
  {
    if k < |f.cells| {
      var g := Visit(f, bar, w, k, envs[k]);
      VisitKeepsTally(f, bar, w, k, envs[k]);
      SweepKeepsTally(g, bar, w, envs, k + 1);
      AdvancesTransitive(f.cells, g.cells, SweepFrom(g, bar, w, envs, k + 1).cells);
    }
  }

  /** Particles that only move forward keep every Block in its cell. */
  lemma AdvancesKeepsSettled(a: seq<Particle>, b: seq<Particle>, w: int, h: int)
    requires Settled(a, w, h) && Advances(a, b)
    ensures Settled(b, w, h)
  {
    forall k | 0 <= k < |b| && b[k].state == Block
      ensures InCell(b[k], w, h, k)
    {
      assert b[k] == a[k];
    }
  }

  /**
   * The sign rules of a ball: each sub-step only reverses the signs of vx and vy, so
   * their magnitudes are kept, and a ball in the bar's rectangle leaves moving up
   * (vy <= 0, screen y growing downwards).
   */
  lemma BallSignRules(f: Field, bar: Rect, w: u16, k: nat, s: BallSample)
    requires k < |f.cells| && f.cells[k].state == Ball && s.Moved?
    ensures var p := UpdateBall(f, bar, w, k, s).cells[k];
      Abs(p.vx) == Abs(f.cells[k].vx) && Abs(p.vy) == Abs(f.cells[k].vy)
      && (bar.Contains(s.cx, s.cy) ==> p.vy <= 0.0)
  {
    var f1 := StrikeBlock(f, w, k, s.cx, s.cy, s.cosine);
    assert f1.cells[k].vx == f.cells[k].vx;
    assert Abs(f1.cells[k].vy) == Abs(f.cells[k].vy);
  }

  /**
   * A falling particle caught by the bar becomes a ball sent off with positive vx and
   * vy above 1; the fall count drops by one and the ball count rises by one.
   */
  lemma FallCaught(f: Field, bar: Rect, k: nat, s: FallSample)
    requires Tallied(f) && k < |f.cells| && f.cells[k].state == Fall
    requires bar.Contains(s.cx, s.cy)
    ensures var r := UpdateFallBlock(f, bar, k, s);
      r.cells[k].state == Ball && r.cells[k].vx > 0.0 && r.cells[k].vy > 1.0
      && r.counter.block == f.counter.block && r.counter.fall == f.counter.fall - 1
      && r.counter.ball == f.counter.ball + 1
  {
    var p := f.cells[k];
    var g := Put(f, k, p.(vy := p.vy + 0.1));
    VelocityKeepsTally(f, k, p.(vy := p.vy + 0.1));
    MakeBallKeepsTally(g, k);
  }

  /**
   * A falling particle that misses the bar and is below the screen is removed: it ends
   * Deleted and the fall count drops by exactly one.
   */
  lemma FallLost(f: Field, bar: Rect, k: nat, s: FallSample)
    requires Tallied(f) && k < |f.cells| && f.cells[k].state == Fall
    requires !bar.Contains(s.cx, s.cy) && s.belowBottom
    ensures var r := UpdateFallBlock(f, bar, k, s);
      r.cells[k].state == Deleted
      && r.counter.block == f.counter.block && r.counter.fall == f.counter.fall - 1
      && r.counter.ball == f.counter.ball
  {
    var p := f.cells[k];
    var g := Put(f, k, p.(vy := p.vy + 0.1));
    VelocityKeepsTally(f, k, p.(vy := p.vy + 0.1));
    RemoveKeepsTally(g, k);
  }

  /**
   * A ball whose cell holds a Block breaks it: the block becomes Fall with vy = 1, the
   * block count drops by one and the fall count rises by one.
   */
  lemma BallBreaksBlock(f: Field, bar: Rect, w: u16, k: nat, s: BallSample, h: nat)
    requires Tallied(f) && k < |f.cells| && f.cells[k].state == Ball && s.Moved?
    requires Lookup(w, |f.cells|, s.cx, s.cy) == Some(h) && f.cells[h].state == Block
    ensures var r := UpdateBall(f, bar, w, k, s);
      r.cells[h].state == Fall && r.cells[h].vy == 1.0
      && r.counter.block == f.counter.block - 1 && r.counter.fall == f.counter.fall + 1
  {
    BreakKeepsTally(f, h);
    var f1 := StrikeBlock(f, w, k, s.cx, s.cy, s.cosine);
    assert f1.counter == AfterBreak(f, h).counter;
    assert f1.cells[h].state == Fall && f1.cells[h].vy == 1.0;
  }
}
