/** A pixel particle of the playfield and the per-state tallies over a run of particles. */
module Particles {

  /** `Particle::State`: a particle is a block of the field, falling debris, a ball, or gone. */
  datatype State = Block | Fall | Ball | Deleted

  /**
   * `Particle`: the stored position (x, y) and velocity (vx, vy), and the state.
   * The position is the one written at construction; the motion that later moves
   * falling particles and balls is not part of this model, so only a Block's
   * position is meaningful after the first tick.
   */
  datatype Particle = Particle(x: int, y: int, vx: real, vy: real, state: State)

  /** `Particle(uint16_t x = 200, uint16_t y = 200)`: a block at (x, y), at rest. */
  function NewParticle(x: int, y: int): (p: Particle)
    ensures p.state == Block && p.x == x && p.y == y
  {
    Particle(x, y, 0.0, 0.0, Block)
  }

  /** The position of the states along a particle's life: Block, Fall, Ball, Deleted. */
  function Rank(st: State): nat
  {
    match st
    case Block => 0
    case Fall => 1
    case Ball => 2
    case Deleted => 3
  }

  /** Number of particles of `s` in state `st`. */
  function Count(s: seq<Particle>, st: State): (n: nat)
    ensures n <= |s|
  {
    if s == [] then 0
    else (if s[0].state == st then 1 else 0) + Count(s[1..], st)
  }

  function Indicator(p: Particle, st: State): nat
  {
    if p.state == st then 1 else 0
  }

  /** Replacing one particle changes each tally by what leaves and what arrives. */
  lemma {:induction false} CountUpdate(s: seq<Particle>, k: nat, p: Particle, st: State)
    requires k < |s|
    ensures Count(s[k := p], st) == Count(s, st) - Indicator(s[k], st) + Indicator(p, st)
  {
    if k == 0 {
      assert s[k := p][1..] == s[1..];
    } else {
      assert s[k := p][1..] == s[1..][k - 1 := p];
      CountUpdate(s[1..], k - 1, p, st);
    }
  }

  /** A particle in state `st` is counted, so that tally is at least one. */
  lemma CountAtLeastOne(s: seq<Particle>, k: nat)
    requires k < |s|
    ensures Count(s, s[k].state) >= 1
  {
    CountUpdate(s, k, s[k].(state := if s[k].state == Block then Fall else Block), s[k].state);
  }

  /** Every particle is in exactly one of the four states: the four tallies add up to the whole. */
  lemma {:induction false} CountPartition(s: seq<Particle>)
    ensures Count(s, Block) + Count(s, Fall) + Count(s, Ball) + Count(s, Deleted) == |s|
  {
    if s != [] {
      CountPartition(s[1..]);
    }
  }

  /** Tallies depend on the states alone: changing positions or velocities changes no count. */
  lemma {:induction false} CountSameStates(a: seq<Particle>, b: seq<Particle>, st: State)
    requires |a| == |b|
    requires forall i :: 0 <= i < |a| ==> a[i].state == b[i].state
    ensures Count(a, st) == Count(b, st)
  {
    if a != [] {
      CountSameStates(a[1..], b[1..], st);
    }
  }

  /** A state no particle is in has a tally of zero. */
  lemma {:induction false} CountAbsent(s: seq<Particle>, st: State)
    requires forall i :: 0 <= i < |s| ==> s[i].state != st
    ensures Count(s, st) == 0
  {
    if s != [] {
      assert s[0].state != st;
      CountAbsent(s[1..], st);
    }
  }
}
