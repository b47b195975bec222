/** `CheckKey`: a button that flips a flag once per press, however long it is held. */
module Keys {

  /** The two flags `CheckKey` writes through its references: the toggled flag and its lock. */
  datatype Toggle = Toggle(flag: bool, locked: bool)

  /** One call of `CheckKey` as a function of the two flags and whether the key is down. */
  function Press(t: Toggle, pressed: bool): (r: Toggle)
    ensures r.locked == pressed
  {
    if pressed then (if t.locked then t else Toggle(!t.flag, true))
    else t.(locked := false)
  }

  /**
   * `CheckKey(flag, locked_flag, Key)`: a press with no lock flips the flag and locks; a
   * press while locked changes nothing; a release unlocks and keeps the flag. The flag is
   * returned.
   */
  method CheckKey(flag: bool, locked: bool, pressed: bool) returns (newFlag: bool, newLocked: bool, r: bool)
    ensures pressed && !locked ==> newFlag == !flag && newLocked
    ensures pressed && locked ==> newFlag == flag && newLocked
    ensures !pressed ==> newFlag == flag && !newLocked
    ensures r == newFlag
    ensures Toggle(newFlag, newLocked) == Press(Toggle(flag, locked), pressed)
  {
    newFlag, newLocked := flag, locked;
    if pressed {
      if !newLocked {
        newFlag := !newFlag;
        newLocked := true;
      }
    } else {
      newLocked := false;
    }
    r := newFlag;
  }

  /** `CheckKey` called once per frame with the key states `presses`. */
  function Run(t: Toggle, presses: seq<bool>): Toggle
    decreases |presses|
  {
    if presses == [] then t else Run(Press(t, presses[0]), presses[1..])
  }

  /** The number of presses that find the key up on the call before (or `locked` false at the start). */
  function Rises(locked: bool, presses: seq<bool>): nat
    decreases |presses|
  {
    if presses == [] then 0
    else (if presses[0] && !locked then 1 else 0) + Rises(presses[0], presses[1..])
  }

  function Odd(n: nat): bool { n % 2 == 1 }

  /**
   * Over any run of frames, the flag has flipped once for every frame on which the key
   * went down, and the lock afterwards equals the last key state.
   */
  lemma {:induction false} RunFlipsOncePerPress(t: Toggle, presses: seq<bool>)
    ensures Run(t, presses).flag == (t.flag != Odd(Rises(t.locked, presses)))
    ensures presses != [] ==> Run(t, presses).locked == presses[|presses| - 1]
    decreases |presses|
  {
    if presses != [] {
      var t' := Press(t, presses[0]);
      RunFlipsOncePerPress(t', presses[1..]);
      if |presses| > 1 {
        assert presses[1..][|presses[1..]| - 1] == presses[|presses| - 1];
      }
    }
  }

  /** Holding the key down from an unlocked start flips the flag exactly once. */
  lemma {:induction false} HoldFlipsOnce(t: Toggle, n: nat)
    requires n >= 1 && !t.locked
    ensures Run(t, seq(n, _ => true)) == Toggle(!t.flag, true)
  {
    var t' := Press(t, true);
    assert seq(n, _ => true)[1..] == seq(n - 1, _ => true);
    HeldStaysLocked(t', n - 1);
  }

  lemma {:induction false} HeldStaysLocked(t: Toggle, n: nat)
    requires t.locked
    ensures Run(t, seq(n, _ => true)) == t
  {
    if n > 0 {
      assert seq(n, _ => true)[1..] == seq(n - 1, _ => true);
      HeldStaysLocked(t, n - 1);
    }
  }
}
