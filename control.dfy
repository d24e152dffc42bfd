/** The game states and the edge-triggered pause key shared by the last
    three versions. */
module Control {
  import opened Entities

  /** Game::State. The ninth and tenth versions only use Paused and
      InProgress. */
  datatype State = Paused | GameOver | InProgress | Victory

  /** The keys a frame reads. */
  datatype Keys = Keys(escape: bool, pause: bool, restart: bool, left: bool, right: bool)

  function PaddleInput(keys: Keys): Input { Input(keys.left, keys.right) }

  /** The P-key block of Game::run: on a frame where P is down and was up
      in the previous frame, Paused and InProgress swap. Returns the new
      state and the new pausePressedLastFrame. */
  function TogglePause(s: State, pressed: bool, pressedLastFrame: bool): (r: (State, bool))
    ensures r.1 == pressed
    ensures r.0 != s <==> pressed && !pressedLastFrame && (s == Paused || s == InProgress)
    ensures r.0 != s ==> r.0 == (if s == Paused then InProgress else Paused)
  {
    if pressed then
      if !pressedLastFrame then
        (if s == Paused then InProgress else if s == InProgress then Paused else s, true)
      else (s, true)
    else (s, false)
  }

  /** The state after one pause-key update for every frame of `presses`. */
  function PauseRun(s: State, last: bool, presses: seq<bool>): (r: (State, bool))
    ensures |presses| > 0 ==> r.1 == presses[|presses| - 1]
    ensures |presses| == 0 ==> r == (s, last)
  {
    if |presses| == 0 then (s, last)
    else
      var prev := PauseRun(s, last, presses[..|presses| - 1]);
      TogglePause(prev.0, presses[|presses| - 1], prev.1)
  }

  function Held(n: nat): (r: seq<bool>)
    ensures |r| == n && forall i :: 0 <= i < n ==> r[i]
  {
    seq(n, i => true)
  }

  /** Holding P for any number of frames toggles exactly once. */
  lemma {:induction false} HoldingPTogglesOnce(s: State, n: nat)
    requires n >= 1
    ensures PauseRun(s, false, Held(n)) == TogglePause(s, true, false)
  {
    if n > 1 {
      HoldingPTogglesOnce(s, n - 1);
      assert Held(n)[..n - 1] == Held(n - 1);
    } else {
      assert Held(n)[..0] == [];
    }
  }

  /** Two separate presses cancel out. */
  lemma PressReleasePressRestores(s: State)
    requires s == Paused || s == InProgress
    ensures PauseRun(s, false, [true, false, true]).0 == s
  {
    assert [true, false, true][..2] == [true, false];
    assert [true, false][..1] == [true];
    assert [true][..0] == [];
  }
}
