/**
 * The button edge detector of src/Platform.h: each update tells a button whether
 * it is down now, and the button derives from its previous state whether it
 * was pressed or released in this update.
 */
module Platform {

  /** The three flags of SystemInput::Button as one value. */
  datatype ButtonState = ButtonState(pressed: bool, down: bool, released: bool)

  /** updateButton on values. */
  function Updated(b: ButtonState, isDown: bool): (r: ButtonState)
    ensures r.down == isDown
    ensures r.pressed <==> isDown && !b.down
    ensures r.released <==> !isDown && b.down
  {
    if isDown then ButtonState(!b.down, true, false)
    else ButtonState(false, false, b.down)
  }

  /** The state after a run of updates, applied first to last. */
  function AfterUpdates(b: ButtonState, updates: seq<bool>): ButtonState
  {
    if updates == [] then b
    else Updated(AfterUpdates(b, updates[..|updates| - 1]), updates[|updates| - 1])
  }

  class Button {
    /** true for one update when the button goes down */
    var pressed: bool
    var down: bool
    /** true for one update when the button goes up */
    var released: bool

    function State(): ButtonState
      reads this
    {
      ButtonState(pressed, down, released)
    }

    /** A zero-initialised button: up, and neither pressed nor released. */
    constructor ()
      ensures State() == ButtonState(false, false, false)
    {
      pressed, down, released := false, false, false;
    }

    /** updateButton: `isDown` is any unsigned value, non-zero meaning down. */
    method Update(isDown: nat)
      modifies this
      ensures isDown != 0 ==> down && !released && pressed == !old(down)
      ensures isDown == 0 ==> !down && !pressed && released == old(down)
      ensures State() == Updated(old(State()), isDown != 0)
    {
      if isDown != 0 {
        released := false;
        pressed := !down;
        down := true;
      } else {
        released := down;
        pressed := false;
        down := false;
      }
    }
  }

  /** No update leaves a button both pressed and released. */
  lemma NeverPressedAndReleased(b: ButtonState, isDown: bool)
    ensures !(Updated(b, isDown).pressed && Updated(b, isDown).released)
  {
  }

  /**
   * After a run of updates the button is down exactly when the last update
   * said so, pressed exactly when the last update is down and the one before
   * (or the starting state) was up, and released in the mirror case.
   */
  lemma {:induction false} AfterUpdatesEdges(b: ButtonState, updates: seq<bool>)
    requires updates != []
    ensures var last := updates[|updates| - 1];
      var before := if |updates| > 1 then updates[|updates| - 2] else b.down;
      var r := AfterUpdates(b, updates);
      r.down == last && r.pressed == (last && !before) && r.released == (!last && before)
  {
    var prefix := updates[..|updates| - 1];
    if |updates| > 1 {
      AfterUpdatesEdges(b, prefix);
      assert prefix[|prefix| - 1] == updates[|updates| - 2];
    }
  }

  /** `pressed` lasts one update: two down updates in a row leave it false. */
  lemma HeldButtonPressedOnce(b: ButtonState, updates: seq<bool>)
    ensures !AfterUpdates(b, updates + [true, true]).pressed
  {
    AfterUpdatesEdges(b, updates + [true, true]);
  }

  /** `released` lasts one update: two up updates in a row leave it false. */
  lemma UpButtonReleasedOnce(b: ButtonState, updates: seq<bool>)
    ensures !AfterUpdates(b, updates + [false, false]).released
  {
    AfterUpdatesEdges(b, updates + [false, false]);
  }
}
