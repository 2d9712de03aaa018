/**
 * The round state machine as values: five dice, the wager, the two side bets
 * and the credit balance, and what a frame tick or a player input does to them.
 */
module RoundSpec {
  import opened Options
  import opened Scoring
  import opened Wager
  import opened DieModel

  datatype Phase = Betting | Rolling1 | Hold | Rolling2 | Presenting | Finished

  /** How a request to start a round ended; the two refusals carry different messages. */
  datatype StartOutcome = Started | InsufficientForWager | InsufficientForSideBets

  const WagerMin: int := 10
  const WagerMax: int := 9999

  /** The stake of a side bet: a tenth of the wager rounded up, but at least 5. */
  function SideStake(bet: int): (s: int)
    ensures s >= 5 && 10 * s >= bet
    ensures s > 5 ==> 10 * (s - 1) < bet
  {
    Max(5, (bet + 9) / 10)
  }

  /** What the One Roll side bet pays: five times its stake when the opening hand scores. */
  function OpeningPayout(faces: seq<int>, stake: int): int
    requires |faces| == 5
  {
    if stake > 0 && HandOf(faces).multiplier > 0 then stake * 5 else 0
  }

  /** What the final hand pays: wager times multiplier, plus fifteen times the All Red stake when every face is red. */
  function FinalPayout(faces: seq<int>, bet: int, stake: int): int
    requires |faces| == 5
  {
    var mult := HandOf(faces).multiplier;
    (if mult > 0 then bet * mult else 0) + (if stake > 0 && IsAllRed(faces) then stake * 15 else 0)
  }

  /** Payouts never take credit away, and stay within the top of the payout table. */
  lemma PayoutBounds(faces: seq<int>, bet: int, stake1: int, stake2: int)
    requires |faces| == 5 && bet >= 0 && stake1 >= 0 && stake2 >= 0
    ensures 0 <= OpeningPayout(faces, stake1) <= 5 * stake1
    ensures 0 <= FinalPayout(faces, bet, stake2) <= 10 * bet + 15 * stake2
    ensures FinalPayout(faces, bet, stake2) == 0 <==>
              (CategoryOf(faces) == NoHand || bet == 0) && !(stake2 > 0 && IsAllRed(faces))
  {
    var mult := HandOf(faces).multiplier;
    MultiplierZeroOnlyForNone(CategoryOf(faces));
    assert mult == Multiplier(CategoryOf(faces));
    if mult > 0 {
      assert bet * mult <= bet * 10 by { MulMonotone(bet, mult, 10); }
      assert bet * mult == 0 <==> bet == 0 by { MulZero(bet, mult); }
    }
  }

  lemma MulMonotone(a: int, x: int, y: int)
    requires a >= 0 && x <= y
    ensures a * x <= a * y
  {
  }

  lemma MulZero(a: int, x: int)
    requires x > 0
    ensures a * x == 0 <==> a == 0
  {
  }

  /** An All Red final hand is at least a full house, so it always pays the wager five times over as well. */
  lemma AllRedFinalPayout(faces: seq<int>, bet: int, stake: int)
    requires |faces| == 5 && IsAllRed(faces) && bet >= 0 && stake > 0
    ensures FinalPayout(faces, bet, stake) >= 5 * bet + 15 * stake
  {
    AllRedIsFullHouseOrBetter(faces);
  }

  // ---------------------------------------------------------------------------
  // The five dice as values
  // ---------------------------------------------------------------------------

  function FacesOf(ds: seq<DieState>): (faces: seq<int>)
    ensures |faces| == |ds| && forall i :: 0 <= i < |ds| ==> faces[i] == ds[i].face
  {
    seq(|ds|, i requires 0 <= i < |ds| => ds[i].face)
  }

  predicate AllRevealed(ds: seq<DieState>) {
    forall i :: 0 <= i < |ds| ==> ds[i].revealed
  }

  predicate NoneAnimating(ds: seq<DieState>) {
    forall i :: 0 <= i < |ds| ==> !ds[i].animActive
  }

  /** A die at the start of a round: released, idle and thrown again with a new face. */
  function RoundStart(d: DieState, face: int): (r: DieState)
    ensures !r.hold && !r.parked && !r.revealed && !r.animActive && r.restCounter == 0 && r.face == face
  {
    Reset(d.(hold := false, parked := false, animActive := false), face)
  }

  /** What a new round from the finished phase does to a die before the credit check. */
  function Cleared(d: DieState): (r: DieState)
    ensures !r.hold && !r.parked && !r.animActive
    ensures r.face == d.face && r.revealed == d.revealed && r.restCounter == d.restCounter
  {
    d.(hold := false, parked := false, animActive := false)
  }

  /** The second roll: held dice stay as they are and count as revealed, the others are thrown again. */
  function Rerolled(d: DieState, face: int): (r: DieState)
    ensures d.hold ==> r.hold && r.revealed && r.face == d.face && r.animActive == d.animActive
    ensures d.hold && !d.animActive ==> r.parked
    ensures !d.hold ==> !r.hold && !r.revealed && r.restCounter == 0 && r.face == face && !r.parked && !r.animActive
  {
    if d.hold then d.(revealed := true, parked := if d.animActive then d.parked else true)
    else Reset(d, face)
  }

  /** Toggling the hold of an idle die: it slides to its slot (held) or back to the table (released). */
  function Toggled(d: DieState): (r: DieState)
    ensures r.hold == !d.hold && r.animActive && r.parkedEnd == Some(r.hold)
    ensures !r.hold ==> !r.parked
    ensures r.face == d.face && r.revealed == d.revealed && r.restCounter == d.restCounter
  {
    if !d.hold then BeginTween(d.(hold := true), Some(true))
    else BeginTween(d.(hold := false, parked := false), Some(false))
  }

  /** When the slide started by a toggle ends, the die is idle and parked exactly when it is held. */
  lemma ToggleThenTweenEnds(d: DieState)
    ensures var r := AnimStep(Toggled(d), true);
            !r.animActive && r.hold == !d.hold && r.parked == r.hold && r.face == d.face
  {
  }

  // ---------------------------------------------------------------------------
  // The loops over the five dice, as functions of their states
  // ---------------------------------------------------------------------------

  predicate ValidDice(ds: seq<DieState>) {
    forall i :: 0 <= i < |ds| ==> ValidState(ds[i])
  }

  predicate ValidFrames(frames: seq<Frame>) {
    forall i :: 0 <= i < |frames| ==> ValidFrame(frames[i])
  }

  predicate ValidFaces(faces: seq<int>) {
    forall i :: 0 <= i < |faces| ==> 1 <= faces[i] <= 6
  }

  /** One tick of every die. */
  function StepAll(ds: seq<DieState>, frames: seq<Frame>): seq<DieState>
    requires |frames| == |ds|
  {
    seq(|ds|, i requires 0 <= i < |ds| => Step(ds[i], frames[i]))
  }

  /** One tween advance of every die. */
  function AnimAll(ds: seq<DieState>, frames: seq<Frame>): seq<DieState>
    requires |frames| == |ds|
  {
    seq(|ds|, i requires 0 <= i < |ds| => AnimStep(ds[i], frames[i].tweenDone))
  }

  /** Every die starts its slide into its presentation slot, to be parked there. */
  function TweenAll(ds: seq<DieState>): seq<DieState> {
    seq(|ds|, i requires 0 <= i < |ds| => BeginTween(ds[i], Some(true)))
  }

  /** start_round's throw of every die. */
  function StartAll(ds: seq<DieState>, faces: seq<int>): seq<DieState>
    requires |faces| == |ds|
  {
    seq(|ds|, i requires 0 <= i < |ds| => RoundStart(ds[i], faces[i]))
  }

  /** commit_reroll's treatment of every die. */
  function RerollAll(ds: seq<DieState>, faces: seq<int>): seq<DieState>
    requires |faces| == |ds|
  {
    seq(|ds|, i requires 0 <= i < |ds| => Rerolled(ds[i], faces[i]))
  }

  /** A new round from the finished phase first releases and stops every die. */
  function ClearAll(ds: seq<DieState>): seq<DieState> {
    seq(|ds|, i requires 0 <= i < |ds| => Cleared(ds[i]))
  }

  /** A tick keeps every die valid, and dice already revealed keep their faces and holds. */
  lemma StepAllFacts(ds: seq<DieState>, frames: seq<Frame>)
    requires |frames| == |ds|
    ensures var r := StepAll(ds, frames);
            && (ValidDice(ds) && ValidFrames(frames) ==> ValidDice(r))
            && (forall i :: 0 <= i < |ds| && ds[i].revealed ==> r[i].revealed && r[i].face == ds[i].face)
            && (forall i :: 0 <= i < |ds| ==> r[i].hold == ds[i].hold)
  {
  }

  /** A tween advance changes no face, revealed flag or hold, and nothing at all when no die slides. */
  lemma AnimAllFacts(ds: seq<DieState>, frames: seq<Frame>)
    requires |frames| == |ds|
    ensures var r := AnimAll(ds, frames);
            && FacesOf(r) == FacesOf(ds)
            && (ValidDice(ds) ==> ValidDice(r))
            && (AllRevealed(r) <==> AllRevealed(ds))
            && (forall i :: 0 <= i < |ds| ==> r[i].hold == ds[i].hold)
            && (NoneAnimating(ds) ==> r == ds)
  {
  }

  /** The final slide changes no face or revealed flag and leaves every die sliding to be parked. */
  lemma TweenAllFacts(ds: seq<DieState>)
    ensures var r := TweenAll(ds);
            && FacesOf(r) == FacesOf(ds)
            && (ValidDice(ds) ==> ValidDice(r))
            && (AllRevealed(r) <==> AllRevealed(ds))
            && (forall i :: 0 <= i < |ds| ==> r[i].animActive && r[i].parkedEnd == Some(true))
  {
  }

  /** After the throw the dice show the new faces, and none is held, parked, revealed or sliding. */
  lemma StartAllFacts(ds: seq<DieState>, faces: seq<int>)
    requires |faces| == |ds|
    ensures var r := StartAll(ds, faces);
            && FacesOf(r) == faces
            && (ValidFaces(faces) ==> ValidDice(r))
            && (forall i :: 0 <= i < |r| ==>
                  !r[i].hold && !r[i].parked && !r[i].revealed && !r[i].animActive && r[i].restCounter == 0)
  {
  }

  /** In the second roll exactly the held dice are revealed, and they keep their faces. */
  lemma RerollAllFacts(ds: seq<DieState>, faces: seq<int>)
    requires |faces| == |ds|
    ensures var r := RerollAll(ds, faces);
            && (ValidDice(ds) && ValidFaces(faces) ==> ValidDice(r))
            && (forall i :: 0 <= i < |ds| ==> r[i].hold == ds[i].hold && r[i].revealed == ds[i].hold)
            && (forall i :: 0 <= i < |ds| ==> r[i].face == if ds[i].hold then ds[i].face else faces[i])
  {
  }

  /** Clearing keeps faces, revealed flags and validity, and releases and stops every die. */
  lemma ClearAllFacts(ds: seq<DieState>)
    ensures var r := ClearAll(ds);
            && FacesOf(r) == FacesOf(ds)
            && (ValidDice(ds) ==> ValidDice(r))
            && (AllRevealed(r) <==> AllRevealed(ds))
            && (forall i :: 0 <= i < |r| ==> !r[i].hold && !r[i].parked && !r[i].animActive)
  {
  }

  /** The moves the frame tick makes on its own. */
  predicate TickMove(from: Phase, to: Phase) {
    (from == Rolling1 && to == Hold) || (from == Rolling2 && to == Presenting) || (from == Presenting && to == Finished)
  }

  /** The moves the player's primary action makes. */
  predicate PlayerMove(from: Phase, to: Phase) {
    (from in {Betting, Finished} && to == Rolling1) || (from == Hold && to == Rolling2)
  }

  /** What the player can do; mouse events that hit nothing are not represented. */
  datatype Input =
    | KeySpace                            // the primary action
    | KeyHold(idx: int)                   // keys 1 to 5, as die index 0 to 4
    | KeyWager(increase: bool, big: bool) // '.' raises and ',' lowers the wager; shift makes the step 100
    | ClickWager(button: WagerButton)     // a left click on a wager button
    | ClickSideBet(allRed: bool)          // a left click on the One Roll or the All Red checkbox
    | ClickDie(idx: int)                  // a left click whose first hit die is `idx`
    | ClickPrimary                        // a left click on Roll / Roll Again (the same spot)
    | OpenOptions                         // a left click on the Options button
    | CloseOptions                        // Escape, or a left click on Close or outside the open panel


  // ---------------------------------------------------------------------------
  // The whole game as a value, and what each operation does to it
  // ---------------------------------------------------------------------------

  /** Everything a round depends on; `bet` is the wager control's value. */
  datatype GameState = GameState(
    dice: seq<DieState>,
    credit: int,
    phase: Phase,
    bet: int,
    side1Stake: int,
    side2Stake: int,
    side1On: bool,
    side2On: bool,
    optionsOpen: bool)

  /**
   * Five valid dice, the wager within [10, 9999], non-negative stakes, and
   * outside the two rolling phases every die is revealed.
   */
  predicate ValidGame(g: GameState) {
    && |g.dice| == 5
    && ValidDice(g.dice)
    && WagerMin <= g.bet <= WagerMax
    && g.side1Stake >= 0 && g.side2Stake >= 0
    && (g.phase !in {Rolling1, Rolling2} ==> AllRevealed(g.dice))
  }

  /** A die lying on the table showing `face`: revealed, unheld and idle. */
  function TableDie(face: int): DieState {
    DieState(face, true, 0, false, false, false, None)
  }

  /** The five dice of a new game. */
  function TableDice(faces: seq<int>): seq<DieState>
    requires |faces| == 5
  {
    [TableDie(faces[0]), TableDie(faces[1]), TableDie(faces[2]), TableDie(faces[3]), TableDie(faces[4])]
  }

  /** A new game: the saved balance, the wager at its minimum, no side bets, the dice on the table. */
  function NewGameSpec(savedCredit: int, faces: seq<int>): GameState
    requires |faces| == 5
  {
    GameState(TableDice(faces), savedCredit, Betting, WagerMin, 0, 0, false, false, false)
  }

  /** The stake a side bet takes when its checkbox is ticked. */
  function StakeFor(on: bool, bet: int): int {
    if on then SideStake(bet) else 0
  }

  /** What it costs to start a round with the current wager and checkboxes. */
  function RoundCost(g: GameState): int {
    g.bet + StakeFor(g.side1On, g.bet) + StakeFor(g.side2On, g.bet)
  }

  /** How start_round ends. */
  function StartOutcomeOf(g: GameState): StartOutcome {
    if g.bet > g.credit then InsufficientForWager
    else if RoundCost(g) > g.credit then InsufficientForSideBets
    else Started
  }

  /** start_round: stakes are fixed once the wager is covered; the round starts only if everything is. */
  function StartRoundSpec(g: GameState, faces: seq<int>): GameState
    requires |g.dice| == 5 && |faces| == 5
  {
    if g.bet > g.credit then g
    else
      var staked := g.(side1Stake := StakeFor(g.side1On, g.bet), side2Stake := StakeFor(g.side2On, g.bet));
      if RoundCost(g) > g.credit then staked
      else staked.(credit := g.credit - RoundCost(g), dice := StartAll(g.dice, faces), phase := Rolling1)
  }

  /** update: one frame of the round. */
  function TickSpec(g: GameState, frames: seq<Frame>): GameState
    requires |g.dice| == 5 && |frames| == 5
  {
    if g.phase == Rolling1 || g.phase == Rolling2 then
      var ds := StepAll(g.dice, frames);
      if !AllRevealed(ds) then g.(dice := ds)
      else if g.phase == Rolling1 then
        g.(dice := ds, credit := g.credit + OpeningPayout(FacesOf(ds), g.side1Stake), phase := Hold)
      else
        g.(dice := TweenAll(ds), credit := g.credit + FinalPayout(FacesOf(ds), g.bet, g.side2Stake), phase := Presenting)
    else if g.phase == Presenting then
      var ds := AnimAll(g.dice, frames);
      g.(dice := ds, phase := if NoneAnimating(ds) then Finished else Presenting)
    else
      g.(dice := AnimAll(g.dice, frames))
  }

  /** adjust_wager, and a click on a wager button: a step clamped to [10, 9999]. */
  function AdjustSpec(g: GameState, delta: int): GameState {
    g.(bet := Clamp(g.bet + delta, WagerMin, WagerMax))
  }

  /** The keyboard wager step: 10, or 100 with shift, up or down. */
  function KeyStep(increase: bool, big: bool): int {
    var step := if big then 100 else 10;
    if increase then step else -step
  }

  /** toggle_hold_index. */
  function ToggleSpec(g: GameState, idx: int): GameState
    requires |g.dice| == 5
  {
    if !(0 <= idx < 5) || g.dice[idx].animActive then g
    else g.(dice := g.dice[idx := Toggled(g.dice[idx])])
  }

  /** commit_reroll. */
  function RerollSpec(g: GameState, faces: seq<int>): GameState
    requires |g.dice| == 5 && |faces| == 5
  {
    g.(dice := RerollAll(g.dice, faces), phase := Rolling2)
  }

  /** do_primary_action: Roll, New Round (after clearing the dice) or Roll Again, by phase. */
  function PrimarySpec(g: GameState, faces: seq<int>): GameState
    requires |g.dice| == 5 && |faces| == 5
  {
    if g.optionsOpen then g
    else if g.phase == Betting then StartRoundSpec(g, faces)
    else if g.phase == Finished then StartRoundSpec(g.(dice := ClearAll(g.dice)), faces)
    else if g.phase == Hold then RerollSpec(g, faces)
    else g
  }

  /** handle_event: the options overlay first, then the keys, then the mouse, each guarded by phase. */
  function InputSpec(g: GameState, input: Input, faces: seq<int>): GameState
    requires |g.dice| == 5 && |faces| == 5
  {
    if g.optionsOpen then
      if input == CloseOptions then g.(optionsOpen := false) else g
    else
      var betting := g.phase == Betting || g.phase == Finished;
      match input
      case OpenOptions => g.(optionsOpen := true)
      case CloseOptions => g
      case KeySpace => PrimarySpec(g, faces)
      case KeyHold(idx) => if g.phase == Hold then ToggleSpec(g, idx) else g
      case KeyWager(increase, big) => if betting then AdjustSpec(g, KeyStep(increase, big)) else g
      case ClickWager(button) => if betting then AdjustSpec(g, Delta(button)) else g
      case ClickSideBet(allRed) =>
        if !betting then g
        else if allRed then g.(side2On := !g.side2On)
        else g.(side1On := !g.side1On)
      case ClickDie(idx) => if g.phase == Hold then ToggleSpec(g, idx) else g
      case ClickPrimary =>
        if g.phase == Betting then StartRoundSpec(g, faces)
        else if g.phase == Hold then RerollSpec(g, faces)
        else if g.phase == Finished then PrimarySpec(g, faces)
        else g
  }

  // ---------------------------------------------------------------------------
  // What the operations promise
  // ---------------------------------------------------------------------------

  /** A new game is valid whatever the saved balance, and shows exactly the given faces, none held or sliding. */
  lemma NewGameValid(savedCredit: int, faces: seq<int>)
    requires |faces| == 5 && ValidFaces(faces)
    ensures var g := NewGameSpec(savedCredit, faces);
            && ValidGame(g)
            && FacesOf(g.dice) == faces
            && NoneAnimating(g.dice)
            && forall i :: 0 <= i < 5 ==> !g.dice[i].hold && !g.dice[i].parked
  {
  }

  /**
   * start_round refuses, changing neither credit, phase nor dice, exactly when
   * the wager or the wager plus stakes exceeds the credit; otherwise it takes
   * exactly that total, which leaves the credit non-negative, and throws every
   * die fresh.
   */
  lemma StartRoundOutcomes(g: GameState, faces: seq<int>)
    requires |g.dice| == 5 && |faces| == 5
    ensures var r := StartRoundSpec(g, faces);
            && (StartOutcomeOf(g) == InsufficientForWager <==> g.bet > g.credit)
            && (StartOutcomeOf(g) == InsufficientForWager ==> r == g)
            && (StartOutcomeOf(g) != InsufficientForWager ==>
                  r.side1Stake == StakeFor(g.side1On, g.bet) && r.side2Stake == StakeFor(g.side2On, g.bet))
            && (StartOutcomeOf(g) == Started <==> g.bet <= g.credit && RoundCost(g) <= g.credit)
            && (StartOutcomeOf(g) != Started ==> r.credit == g.credit && r.phase == g.phase && r.dice == g.dice)
            && (StartOutcomeOf(g) == Started ==>
                  && r.credit == g.credit - (g.bet + r.side1Stake + r.side2Stake) && r.credit >= 0
                  && r.phase == Rolling1
                  && FacesOf(r.dice) == faces
                  && forall i :: 0 <= i < 5 ==>
                       !r.dice[i].hold && !r.dice[i].parked && !r.dice[i].revealed
                       && !r.dice[i].animActive && r.dice[i].restCounter == 0)
            && r.bet == g.bet && r.side1On == g.side1On && r.side2On == g.side2On && r.optionsOpen == g.optionsOpen
  {
    StartAllFacts(g.dice, faces);
  }

  /** Each side stake is either nothing or the tenth-of-the-wager stake, and never more than the wager. */
  lemma StakeBounds(on: bool, bet: int)
    requires bet >= WagerMin
    ensures StakeFor(on, bet) == 0 || StakeFor(on, bet) == SideStake(bet)
    ensures 0 <= StakeFor(on, bet) <= bet
    ensures on <==> StakeFor(on, bet) > 0
  {
  }

  lemma StartRoundKeepsValid(g: GameState, faces: seq<int>)
    requires ValidGame(g) && |faces| == 5 && ValidFaces(faces)
    ensures ValidGame(StartRoundSpec(g, faces))
  {
    StartAllFacts(g.dice, faces);
  }

  /**
   * A frame moves the phase only along rolling1 to hold, rolling2 to
   * presenting and presenting to finished, never takes credit away, pays
   * only when a rolling phase settles, and changes nothing but dice, credit
   * and phase.
   */
  lemma TickMoves(g: GameState, frames: seq<Frame>)
    requires ValidGame(g) && |frames| == 5
    ensures var r := TickSpec(g, frames);
            && (r.phase != g.phase ==> TickMove(g.phase, r.phase))
            && r.credit >= g.credit
            && (r.credit != g.credit ==> g.phase in {Rolling1, Rolling2} && AllRevealed(StepAll(g.dice, frames)))
            && r.bet == g.bet && r.side1Stake == g.side1Stake && r.side2Stake == g.side2Stake
            && r.side1On == g.side1On && r.side2On == g.side2On && r.optionsOpen == g.optionsOpen
  {
    var ds := StepAll(g.dice, frames);
    PayoutBounds(FacesOf(ds), g.bet, g.side1Stake, g.side2Stake);
  }

  /**
   * When the first roll settles the phase becomes hold and the One Roll bet
   * pays five times its stake exactly when the opening hand scores; when the
   * second roll settles the final hand pays wager times multiplier, the All
   * Red bet fifteen times its stake, and every die starts sliding to be parked.
   */
  lemma TickSettles(g: GameState, frames: seq<Frame>)
    requires ValidGame(g) && |frames| == 5
    requires g.phase in {Rolling1, Rolling2} && AllRevealed(StepAll(g.dice, frames))
    ensures var r := TickSpec(g, frames);
            var faces := FacesOf(StepAll(g.dice, frames));
            var mult := HandOf(faces).multiplier;
            && FacesOf(r.dice) == faces
            && (g.phase == Rolling1 ==>
                  && r.phase == Hold
                  && r.credit == g.credit + (if g.side1Stake > 0 && mult > 0 then 5 * g.side1Stake else 0)
                  && (r.credit > g.credit <==> g.side1Stake > 0 && CategoryOf(faces) != NoHand))
            && (g.phase == Rolling2 ==>
                  && r.phase == Presenting
                  && r.credit == g.credit + g.bet * mult + (if g.side2Stake > 0 && IsAllRed(faces) then 15 * g.side2Stake else 0)
                  && forall i :: 0 <= i < 5 ==> r.dice[i].animActive && r.dice[i].parkedEnd == Some(true))
  {
    var ds := StepAll(g.dice, frames);
    var faces := FacesOf(ds);
    var r := TickSpec(g, frames);
    MultiplierZeroOnlyForNone(CategoryOf(faces));
    if g.phase == Rolling1 {
      assert r == g.(dice := ds, credit := g.credit + OpeningPayout(faces, g.side1Stake), phase := Hold);
    } else {
      assert r == g.(dice := TweenAll(ds), credit := g.credit + FinalPayout(faces, g.bet, g.side2Stake), phase := Presenting);
      TweenAllFacts(ds);
      var mult := HandOf(faces).multiplier;
      assert (if mult > 0 then g.bet * mult else 0) == g.bet * mult;
    }
  }

  /** While a roll has not settled, a frame only ticks the dice; a revealed die keeps its face. */
  lemma TickWhileRolling(g: GameState, frames: seq<Frame>)
    requires ValidGame(g) && |frames| == 5
    requires g.phase in {Rolling1, Rolling2} && !AllRevealed(StepAll(g.dice, frames))
    ensures var r := TickSpec(g, frames);
            && r == g.(dice := StepAll(g.dice, frames))
            && forall i :: 0 <= i < 5 && g.dice[i].revealed ==> r.dice[i].revealed && r.dice[i].face == g.dice[i].face
  {
    StepAllFacts(g.dice, frames);
  }

  /** The presentation ends exactly when no die is sliding any more; faces never change while presenting. */
  lemma TickPresents(g: GameState, frames: seq<Frame>)
    requires ValidGame(g) && |frames| == 5 && g.phase == Presenting
    ensures var r := TickSpec(g, frames);
            && FacesOf(r.dice) == FacesOf(g.dice) && r.credit == g.credit
            && (r.phase == Finished <==> NoneAnimating(r.dice))
            && (NoneAnimating(g.dice) ==> r.phase == Finished)
  {
    AnimAllFacts(g.dice, frames);
  }

  lemma TickKeepsValid(g: GameState, frames: seq<Frame>)
    requires ValidGame(g) && |frames| == 5 && ValidFrames(frames)
    ensures ValidGame(TickSpec(g, frames))
  {
    StepAllFacts(g.dice, frames);
    var ds := StepAll(g.dice, frames);
    TweenAllFacts(ds);
    AnimAllFacts(g.dice, frames);
  }

  /** The wager always ends within [10, 9999], and a step that stays inside is taken exactly. */
  lemma AdjustBounds(g: GameState, delta: int)
    ensures var r := AdjustSpec(g, delta);
            && WagerMin <= r.bet <= WagerMax
            && (WagerMin <= g.bet + delta <= WagerMax ==> r.bet == g.bet + delta)
            && r == g.(bet := r.bet)
  {
  }

  /**
   * Toggling is a no-op for an index that is not a die or a die still sliding;
   * otherwise only that die changes: its hold flips and it starts one slide,
   * at the end of which it is parked exactly when held.
   */
  lemma ToggleRules(g: GameState, idx: int)
    requires |g.dice| == 5
    ensures var r := ToggleSpec(g, idx);
            && (!(0 <= idx < 5) || g.dice[idx].animActive ==> r == g)
            && (0 <= idx < 5 && !g.dice[idx].animActive ==>
                  && (forall j :: 0 <= j < 5 && j != idx ==> r.dice[j] == g.dice[j])
                  && r.dice[idx].hold == !g.dice[idx].hold
                  && r.dice[idx].animActive
                  && var done := AnimStep(r.dice[idx], true);
                     !done.animActive && done.parked == r.dice[idx].hold)
            && r == g.(dice := r.dice)
  {
    if 0 <= idx < 5 && !g.dice[idx].animActive {
      ToggleThenTweenEnds(g.dice[idx]);
    }
  }

  lemma ToggleKeepsValid(g: GameState, idx: int)
    requires ValidGame(g)
    ensures ValidGame(ToggleSpec(g, idx))
  {
  }

  /**
   * The second roll keeps every held die's face and reveals it, throws every
   * other die with its new face, and changes no credit.
   */
  lemma RerollRules(g: GameState, faces: seq<int>)
    requires |g.dice| == 5 && |faces| == 5
    ensures var r := RerollSpec(g, faces);
            && r.phase == Rolling2 && r.credit == g.credit
            && forall i :: 0 <= i < 5 ==>
                 && r.dice[i].hold == g.dice[i].hold
                 && r.dice[i].revealed == g.dice[i].hold
                 && r.dice[i].face == (if g.dice[i].hold then g.dice[i].face else faces[i])
  {
    RerollAllFacts(g.dice, faces);
  }

  lemma RerollKeepsValid(g: GameState, faces: seq<int>)
    requires ValidGame(g) && |faces| == 5 && ValidFaces(faces)
    ensures ValidGame(RerollSpec(g, faces))
  {
    RerollAllFacts(g.dice, faces);
  }

  /** A New Round that is refused still leaves every die released and idle, faces unchanged. */
  lemma NewRoundRefusedClearsDice(g: GameState, faces: seq<int>)
    requires |g.dice| == 5 && |faces| == 5 && !g.optionsOpen && g.phase == Finished
    requires StartOutcomeOf(g) != Started
    ensures var r := PrimarySpec(g, faces);
            && r.phase == Finished && r.credit == g.credit
            && FacesOf(r.dice) == FacesOf(g.dice)
            && forall i :: 0 <= i < 5 ==> !r.dice[i].hold && !r.dice[i].parked && !r.dice[i].animActive
  {
    ClearAllFacts(g.dice);
    StartRoundOutcomes(g.(dice := ClearAll(g.dice)), faces);
  }

  lemma PrimaryKeepsValid(g: GameState, faces: seq<int>)
    requires ValidGame(g) && |faces| == 5 && ValidFaces(faces)
    ensures ValidGame(PrimarySpec(g, faces))
  {
    ClearAllFacts(g.dice);
    StartRoundKeepsValid(g, faces);
    StartRoundKeepsValid(g.(dice := ClearAll(g.dice)), faces);
    RerollKeepsValid(g, faces);
  }

  /** A click on Roll / Roll Again does what the space bar does, in every phase. */
  lemma ClickPrimaryIsKeySpace(g: GameState, faces: seq<int>)
    requires |g.dice| == 5 && |faces| == 5
    ensures InputSpec(g, ClickPrimary, faces) == InputSpec(g, KeySpace, faces)
  {
  }

  /**
   * The phase guards of handle_event: while the options overlay is open only
   * closing it does anything; during the rolls and the presentation no input
   * changes the game except opening the overlay; the wager and the side bets
   * change only in the betting and finished phases; holds are toggled only in
   * the hold phase, where an input that stays in hold changes only the dice
   * and the overlay flag; the phase moves only along the player's moves; and no
   * input adds credit.
   */
  lemma InputGuards(g: GameState, input: Input, faces: seq<int>)
    requires ValidGame(g) && |faces| == 5
    ensures var r := InputSpec(g, input, faces);
            && (g.optionsOpen ==> r == g.(optionsOpen := r.optionsOpen))
            && (g.optionsOpen && input != CloseOptions ==> r == g)
            && (g.phase in {Rolling1, Rolling2, Presenting} ==> r == g.(optionsOpen := r.optionsOpen))
            && (r.bet != g.bet || r.side1On != g.side1On || r.side2On != g.side2On ==>
                  !g.optionsOpen && g.phase in {Betting, Finished})
            && (g.phase == Hold && r.phase == Hold ==> r == g.(dice := r.dice, optionsOpen := r.optionsOpen))
            && (r.phase != g.phase ==> PlayerMove(g.phase, r.phase))
            && r.credit <= g.credit
  {
  }

  lemma InputKeepsValid(g: GameState, input: Input, faces: seq<int>)
    requires ValidGame(g) && |faces| == 5 && ValidFaces(faces)
    ensures ValidGame(InputSpec(g, input, faces))
  {
    PrimaryKeepsValid(g, faces);
    if !g.optionsOpen {
      match input
      case KeyWager(increase, big) => AdjustBounds(g, KeyStep(increase, big));
      case ClickWager(button) => AdjustBounds(g, Delta(button));
      case ClickPrimary => StartRoundKeepsValid(g, faces); RerollKeepsValid(g, faces);
      case _ =>
    }
  }
}
