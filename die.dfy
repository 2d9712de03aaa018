/**
 * One die's flags and rest counter. Position, velocity, spin and the tween's
 * interpolation are not modelled: each tick receives, as a Frame, whether the
 * die ended the physics step at rest, whether its tween reached its end, and
 * the random draws the tick may use.
 */
module DieModel {
  import opened Options

  /** Consecutive at-rest frames after which a rolling die shows its final face. */
  const RestFramesRequired: nat := 18

  /** The modelled part of a die. `parkedEnd` is the parked value applied when the tween ends. */
  datatype DieState = DieState(
    face: int,
    revealed: bool,
    restCounter: nat,
    hold: bool,
    parked: bool,
    animActive: bool,
    parkedEnd: Option<bool>)

  /** What one tick supplies: the physics and tween outcomes and the random draws. */
  datatype Frame = Frame(
    atRest: bool,      // both velocity components under the rest threshold and on the floor
    tweenDone: bool,   // the tween's elapsed time reached its duration
    settleFace: int,   // the face drawn when the die settles
    tumble: bool,      // the 7% tumble draw came up
    tumbleFace: int)   // the face drawn by a tumble

  predicate ValidFrame(f: Frame) {
    1 <= f.settleFace <= 6 && 1 <= f.tumbleFace <= 6
  }

  /** A face in 1..6, and an unrevealed die has not yet counted enough rest frames. */
  predicate ValidState(d: DieState) {
    1 <= d.face <= 6 && (!d.revealed ==> d.restCounter < RestFramesRequired)
  }

  /** reset_roll: a fresh throw with a new face; the hold flag and a pending parked value stay. */
  function Reset(d: DieState, face: int): (r: DieState)
    ensures !r.revealed && r.restCounter == 0 && !r.animActive && !r.parked && r.face == face
    ensures r.hold == d.hold && r.parkedEnd == d.parkedEnd
    ensures 1 <= face <= 6 ==> ValidState(r)
  {
    d.(face := face, revealed := false, restCounter := 0, animActive := false, parked := false)
  }

  /** start_anim: a tween starts and will apply `parkedEnd` when it ends. */
  function BeginTween(d: DieState, parkedEnd: Option<bool>): DieState {
    d.(animActive := true, parkedEnd := parkedEnd)
  }

  /** update_anim: a running tween that reached its end stops and applies its parked value. */
  function AnimStep(d: DieState, tweenDone: bool): (r: DieState)
    ensures r.face == d.face && r.revealed == d.revealed && r.restCounter == d.restCounter && r.hold == d.hold
    ensures !d.animActive || !tweenDone ==> r == d
    ensures d.animActive && tweenDone ==> !r.animActive && r.parkedEnd.None?
    ensures d.animActive && tweenDone && d.parkedEnd.Some? ==> r.parked == d.parkedEnd.value
    ensures d.parkedEnd.None? ==> r.parked == d.parked
  {
    if !d.animActive || !tweenDone then d
    else d.(animActive := false,
            parked := if d.parkedEnd.Some? then d.parkedEnd.value else d.parked,
            parkedEnd := None)
  }

  /** Rest detection, settling and tumbling of a free die. */
  function PhysicsStep(d: DieState, f: Frame): DieState {
    var counter := if f.atRest then d.restCounter + 1 else 0;
    var settles := !d.revealed && counter >= RestFramesRequired;
    var revealed := d.revealed || settles;
    var face := if settles then f.settleFace
                else if !revealed && f.tumble then f.tumbleFace
                else d.face;
    d.(restCounter := counter, revealed := revealed, face := face)
  }

  /**
   * update: an animating die only advances its tween, a parked die is inert,
   * any other die counts rest frames, settles and may tumble.
   */
  function Step(d: DieState, f: Frame): (r: DieState)
    ensures d.animActive ==> r == AnimStep(d, f.tweenDone)
    ensures !d.animActive && d.parked ==> r == d
    ensures r.hold == d.hold
    ensures !d.animActive && !d.parked ==>
              r.restCounter == (if f.atRest then d.restCounter + 1 else 0)
              && r.parked == d.parked && r.animActive == d.animActive && r.parkedEnd == d.parkedEnd
    ensures d.revealed ==> r.revealed && r.face == d.face
    ensures !d.revealed && r.revealed ==> r.face == f.settleFace
    ensures ValidState(d) && !d.revealed ==>
              (r.revealed <==> !d.animActive && !d.parked && r.restCounter == RestFramesRequired)
    ensures ValidState(d) && ValidFrame(f) ==> ValidState(r)
  {
    if d.animActive then AnimStep(d, f.tweenDone)
    else if d.parked then d
    else PhysicsStep(d, f)
  }

  /** Ticks applied one after another. */
  function Run(d: DieState, frames: seq<Frame>): DieState
    decreases |frames|
  {
    if frames == [] then d else Run(Step(d, frames[0]), frames[1..])
  }

  /** Once revealed, a die keeps its face and stays revealed through any ticks. */
  lemma {:induction false} RevealedIsFinal(d: DieState, frames: seq<Frame>)
    requires d.revealed
    ensures Run(d, frames).revealed && Run(d, frames).face == d.face
    decreases |frames|
  {
    if frames != [] {
      RevealedIsFinal(Step(d, frames[0]), frames[1..]);
    }
  }

  /**
   * A free die that is at rest on every tick counts every tick and is revealed
   * exactly when its counter has reached the threshold: 18 consecutive resting
   * frames always settle it.
   */
  lemma {:induction false} SettlesAfterRestFrames(d: DieState, frames: seq<Frame>)
    requires !d.animActive && !d.parked
    requires !d.revealed ==> d.restCounter < RestFramesRequired
    requires forall k :: 0 <= k < |frames| ==> frames[k].atRest
    ensures Run(d, frames).restCounter == d.restCounter + |frames|
    ensures Run(d, frames).revealed <==> d.revealed || d.restCounter + |frames| >= RestFramesRequired
    decreases |frames|
  {
    if frames != [] {
      SettlesAfterRestFrames(Step(d, frames[0]), frames[1..]);
    }
  }

  /** Any sequence of valid ticks keeps a die valid. */
  lemma {:induction false} RunKeepsValid(d: DieState, frames: seq<Frame>)
    requires ValidState(d)
    requires forall k :: 0 <= k < |frames| ==> ValidFrame(frames[k])
    ensures ValidState(Run(d, frames))
    decreases |frames|
  {
    if frames != [] {
      RunKeepsValid(Step(d, frames[0]), frames[1..]);
    }
  }

  /** A tween started on an idle die, once finished, leaves it idle and parked as requested. */
  lemma TweenEndsParked(d: DieState, parkedEnd: bool)
    ensures var r := AnimStep(BeginTween(d, Some(parkedEnd)), true);
            !r.animActive && r.parked == parkedEnd && r.face == d.face && r.revealed == d.revealed
  {
  }

  /** One die, updated in place. */
  class Die {
    var face: int
    var revealed: bool
    var restCounter: nat
    var hold: bool
    var parked: bool
    var animActive: bool
    var animParkedEnd: Option<bool>

    function Snapshot(): DieState
      reads this
    {
      DieState(face, revealed, restCounter, hold, parked, animActive, animParkedEnd)
    }

    predicate Valid()
      reads this
    {
      ValidState(Snapshot())
    }

    /** A new die: a random face, not yet revealed, free and idle. */
    constructor (initialFace: int)
      requires 1 <= initialFace <= 6
      ensures Valid()
      ensures Snapshot() == DieState(initialFace, false, 0, false, false, false, None)
    {
      face, revealed, restCounter := initialFace, false, 0;
      hold, parked, animActive, animParkedEnd := false, false, false, None;
    }

    method ResetRoll(newFace: int)
      requires 1 <= newFace <= 6
      modifies this
      ensures Valid()
      ensures Snapshot() == Reset(old(Snapshot()), newFace)
    {
      revealed := false;
      restCounter := 0;
      face := newFace;
      animActive := false;
      parked := false;
    }

    method StartAnim(parkedEnd: Option<bool>)
      modifies this
      ensures Snapshot() == BeginTween(old(Snapshot()), parkedEnd)
      ensures old(Valid()) ==> Valid()
    {
      animActive := true;
      animParkedEnd := parkedEnd;
    }

    method UpdateAnim(tweenDone: bool)
      modifies this
      ensures Snapshot() == AnimStep(old(Snapshot()), tweenDone)
      ensures old(Valid()) ==> Valid()
    {
      if !animActive {
        return;
      }
      if tweenDone {
        animActive := false;
        if animParkedEnd.Some? {
          parked := animParkedEnd.value;
        }
        animParkedEnd := None;
      }
    }

    method Update(f: Frame)
      modifies this
      ensures old(Valid()) && ValidFrame(f) ==> Valid()
      ensures Snapshot() == Step(old(Snapshot()), f)
    {
      if animActive {
        UpdateAnim(f.tweenDone);
        return;
      }
      if parked {
        return;
      }
      if f.atRest {
        restCounter := restCounter + 1;
      } else {
        restCounter := 0;
      }
      if !revealed && restCounter >= RestFramesRequired {
        revealed := true;
        face := f.settleFace;
      }
      if !revealed {
        if f.tumble {
          face := f.tumbleFace;
        }
      }
    }
  }
}
