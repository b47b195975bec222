/** `Fps`: frames counted over one-second windows of a millisecond clock. */
module FrameClock {

  class Fps {
    /** `m_count`: frames so far in the current window. */
    var count: int
    /** `m_time`: the clock reading that opened the current window. */
    var time: int
    /** `m_value`: the frame count of the last completed window. */
    var value: int

    /** No count is ever negative. */
    ghost predicate Valid()
      reads this
    {
      count >= 0 && value >= 0
    }

    /** `Fps()`, given the clock reading `now`. */
    constructor (now: int)
      ensures count == 0 && time == now && value == 0 && Valid()
    {
      count := 0;
      time := now;
      value := 0;
    }

    /**
     * `Fps::Update`: count the frame; once 1000 ms have passed since the window opened
     * (by the reading `now`), publish the count and open a new window at the reading
     * `later` (the source reads the clock a second time). Returns the running count.
     */
    method Update(now: int, later: int) returns (r: int)
      requires Valid()
      modifies this
      ensures Valid()
      ensures old(time) + 1000 <= now ==> value == old(count) + 1 && count == 0 && time == later
      ensures now < old(time) + 1000 ==> value == old(value) && count == old(count) + 1 && time == old(time)
      ensures r == count
    {
      count := count + 1;
      if time + 1000 <= now {
        value := count;
        count := 0;
        time := later;
      }
      r := count;
    }

    /** `Fps::GetFps`: the frame count of the last completed window, 0 before the first. */
    function GetFps(): (r: int)
      reads this
      ensures Valid() ==> r >= 0
    {
      value
    }
  }
}
