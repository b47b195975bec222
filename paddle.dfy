/** `Bar`: the player's paddle, its wrap-around hit test and its clamped moves. */
module Paddle {
  import opened Ints
  import Screen

  /**
   * `v - lo < extent` in `uint32_t` arithmetic: a value below `lo` wraps to a huge
   * number, so the one comparison tests both ends of the interval [lo, lo + extent).
   */
  function UnsignedWithin(v: u32, lo: u16, extent: u16): (r: bool)
    ensures r <==> lo <= v < lo + extent
  {
    Wrap32(v - lo) < extent
  }

  /** The paddle's rectangle as the hit test sees it. */
  datatype Rect = Rect(x: u16, y: u16, width: u16, height: u16)
  {
    /** `Bar::IsHited`: the unsigned test of the point (px, py) against the rectangle. */
    function Contains(px: u32, py: u32): (r: bool)
      ensures r <==> x <= px < x + width && y <= py < y + height
    {
      UnsignedWithin(px, x, width) && UnsignedWithin(py, y, height)
    }
  }

  /** One tick of input, sampled once: the d-pad directions and the two shoulder triggers. */
  datatype Input = Input(left: bool, right: bool, lTrigger: bool, rTrigger: bool)
  {
    /** Either trigger held speeds the paddle up. */
    predicate SpeedUp() { lTrigger || rTrigger }
  }

  /** `m_speed * rate` with `rate` the speed-up multiplier or 1, as a `uint32_t` product. */
  function Step(speed: u32, rate: u8, speedup: bool): u32
  {
    Wrap32(speed * (if speedup then rate else 1))
  }

  /** The rightmost position the paddle may take. */
  function RightLimit(width: u16): int
  {
    Screen.Width - width
  }

  /**
   * `Bar::MoveRight` as written: the guard `m_x < W - m_width - step` is evaluated in
   * `uint32_t`, and the new position is stored in the `uint16_t` `m_x`.
   */
  function MoveRightX(x: u16, width: u16, step: u32): u16
  {
    if x < Wrap32(Wrap32(Screen.Width - width) - step) then Wrap16(x + step)
    else Wrap16(Screen.Width - width)
  }

  /**
   * When the step fits on the screen beside the paddle, moving right is "advance by the
   * step, clamped at the right edge", from any starting position.
   */
  lemma MoveRightClamps(x: u16, width: u16, step: u32)
    requires width + step <= Screen.Width
    ensures MoveRightX(x, width, step) == Min(x + step, RightLimit(width))
  {
  }

  /** `Bar::MoveLeft`: retreat by the step, clamped at the left edge (no wrap below 0). */
  function MoveLeftX(x: u16, step: u32): (r: u16)
    ensures r == Max(x - step, 0)
  {
    if x >= step then Wrap16(x - step) else 0
  }

  /** The paddle position `Bar::Update` leaves: right wins over left, neither leaves it still. */
  function UpdateX(x: u16, width: u16, speed: u32, rate: u8, input: Input): u16
  {
    var step := Step(speed, rate, input.SpeedUp());
    if input.right then MoveRightX(x, width, step)
    else if input.left then MoveLeftX(x, step)
    else x
  }

  /**
   * A paddle on the screen stays on the screen through `Bar::Update`, provided the
   * step of this tick fits beside it.
   */
  lemma {:induction false} UpdateKeepsBarOnScreen(x: u16, width: u16, speed: u32, rate: u8, input: Input)
    requires x <= RightLimit(width)
    requires width + Step(speed, rate, input.SpeedUp()) <= Screen.Width
    ensures 0 <= UpdateX(x, width, speed, rate, input) <= RightLimit(width)
  {
    if input.right {
      MoveRightClamps(x, width, Step(speed, rate, input.SpeedUp()));
    }
  }

  class Bar {
    /** `m_x`: the only coordinate that changes. */
    var x: u16
    const y: u16
    const width: u16
    const height: u16
    const speed: u32
    const rate: u8
    var speedup: bool

    /**
     * `Bar(width, height, color, speed, rate)`: centred horizontally, `height` above the
     * bottom. `m_speedup` is left uninitialised, so `speedup` is left unconstrained; `Update`
     * sets it before any move reads it.
     */
    constructor (width: u16, height: u16, speed: u32, rate: u8)
      ensures x == Screen.Width / 2 && y == Wrap16(Screen.Height - height)
      ensures this.width == width && this.height == height
      ensures this.speed == speed && this.rate == rate
      ensures width <= Screen.Width / 2 ==> OnScreen()
    {
      x := Wrap16(Screen.Width / 2);
      y := Wrap16(Screen.Height - height);
      this.width := width;
      this.height := height;
      this.speed := speed;
      this.rate := rate;
    }

    /** The paddle lies within [0, W) horizontally. */
    ghost predicate OnScreen()
      reads this
    {
      x <= RightLimit(width)
    }

    function Box(): Rect
      reads this
    {
      Rect(x, y, width, height)
    }

    /** `Bar::IsHited`: whether the point (px, py) lies in the paddle's rectangle. */
    function IsHited(px: u32, py: u32): (r: bool)
      reads this
      ensures r <==> x <= px < x + width && y <= py < y + height
    {
      Box().Contains(px, py)
    }

    method SetSpeedUpFlag(arg: bool) returns (r: bool)
      modifies this`speedup
      ensures speedup == arg && r == arg
    {
      speedup := arg;
      r := arg;
    }

    method MoveRight()
      modifies this`x
      ensures x == MoveRightX(old(x), width, Step(speed, rate, speedup))
      ensures width + Step(speed, rate, speedup) <= Screen.Width ==> OnScreen()
    {
      var step := Step(speed, rate, speedup);
      if x < Wrap32(Wrap32(Screen.Width - width) - step) {
        x := Wrap16(x + step);
      } else {
        x := Wrap16(Screen.Width - width);
      }
      if width + step <= Screen.Width {
        MoveRightClamps(old(x), width, step);
      }
    }

    method MoveLeft()
      modifies this`x
      ensures x == MoveLeftX(old(x), Step(speed, rate, speedup))
      ensures old(OnScreen()) ==> OnScreen()
    {
      var step := Step(speed, rate, speedup);
      if x >= step {
        x := Wrap16(x - step);
      } else {
        x := 0;
      }
    }

    /**
     * `Bar::Update`: the speed-up flag is recomputed from the triggers on every call, then
     * the paddle moves right if right is held, otherwise left if left is held.
     */
    method Update(input: Input)
      modifies this`x, this`speedup
      ensures speedup == input.SpeedUp()
      ensures x == UpdateX(old(x), width, speed, rate, input)
      ensures old(OnScreen()) && width + Step(speed, rate, speedup) <= Screen.Width ==> OnScreen()
    {
      if input.SpeedUp() {
        var _ := SetSpeedUpFlag(true);
      } else {
        var _ := SetSpeedUpFlag(false);
      }
      if input.right {
        MoveRight();
      } else if input.left {
        MoveLeft();
      }
    }
  }
}
