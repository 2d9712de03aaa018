/**
 * The game object: five dice updated in place, the wager control, the
 * credit, the phase and the side bets. Each operation is proved to do to the
 * game's snapshot what the corresponding function of RoundSpec says.
 */
module Round {
  import opened Options
  import opened Scoring
  import opened Wager
  import opened DieModel
  import opened RoundSpec

  /** A die as the game first lays it on the table: showing its face, unheld and idle. */
  method NewTableDie(face: int) returns (d: Die)
    requires 1 <= face <= 6
    ensures fresh(d) && d.Snapshot() == TableDie(face)
  {
    d := new Die(face);
    d.revealed := true;
  }

  class Game {
    const dice: seq<Die>   // the list of dice is built once; only the dice change
    const wager: WagerControl
    var credit: int
    var state: Phase
    var side1Stake: int
    var side2Stake: int
    var side1On: bool      // the One Roll checkbox
    var side2On: bool      // the All Red checkbox
    var optionsOpen: bool  // the options overlay, which swallows game input

    /** Exactly five distinct dice. */
    predicate Shape() {
      |dice| == 5 && forall i, j :: 0 <= i < j < 5 ==> dice[i] != dice[j]
    }

    /** The states of the five dice, in table order. */
    function Dice(): (ds: seq<DieState>)
      reads dice
      requires |dice| == 5
      ensures |ds| == 5
    {
      [dice[0].Snapshot(), dice[1].Snapshot(), dice[2].Snapshot(), dice[3].Snapshot(), dice[4].Snapshot()]
    }

    /** Dice() lists the dice in table order. */
    lemma DiceAt()
      requires |dice| == 5
      ensures forall i :: 0 <= i < 5 ==> Dice()[i] == dice[i].Snapshot()
    {
    }

    /** The game as a value. */
    function Snapshot(): GameState
      reads this, dice, wager
      requires |dice| == 5
    {
      GameState(Dice(), credit, state, wager.value, side1Stake, side2Stake, side1On, side2On, optionsOpen)
    }

    ghost predicate Valid()
      reads this, dice, wager
    {
      Shape() && wager.min == WagerMin && wager.max == WagerMax && ValidGame(Snapshot())
    }

    /** The invariant holds of a well-shaped game whose snapshot is valid. */
    lemma ShowValid(r: GameState)
      requires Shape() && wager.min == WagerMin && wager.max == WagerMax
      requires Snapshot() == r && ValidGame(r)
      ensures Valid()
    {
    }

    /** Every die shows its final face for this roll. */
    predicate AllDiceRevealed()
      reads dice
      requires |dice| == 5
      ensures AllDiceRevealed() <==> AllRevealed(Dice())
    {
      DiceAt();
      forall i :: 0 <= i < 5 ==> dice[i].revealed
    }

    /** No die is sliding. */
    predicate AllAnimsDone()
      reads dice
      requires |dice| == 5
      ensures AllAnimsDone() <==> NoneAnimating(Dice())
    {
      DiceAt();
      forall i :: 0 <= i < 5 ==> !dice[i].animActive
    }

    /** A new game: the saved balance, the wager at its minimum, five revealed dice on the table. */
    constructor (savedCredit: int, faces: seq<int>)
      requires |faces| == 5 && ValidFaces(faces)
      ensures fresh(wager) && |dice| == 5
      ensures Snapshot() == NewGameSpec(savedCredit, faces)
      ensures Valid()
    {
      var d0 := NewTableDie(faces[0]);
      var d1 := NewTableDie(faces[1]);
      var d2 := NewTableDie(faces[2]);
      var d3 := NewTableDie(faces[3]);
      var d4 := NewTableDie(faces[4]);
      dice := [d0, d1, d2, d3, d4];
      wager := new WagerControl(WagerMin, WagerMax, WagerMin);
      credit := savedCredit;
      state := Betting;
      side1Stake, side2Stake := 0, 0;
      side1On, side2On, optionsOpen := false, false, false;
      new;
      assert Dice() == TableDice(faces);
      NewGameValid(savedCredit, faces);
      ShowValid(NewGameSpec(savedCredit, faces));
    }

    // -------------------------------------------------------------------------
    // Round operations
    // -------------------------------------------------------------------------

    /** start_round. */
    method StartRound(newFaces: seq<int>) returns (outcome: StartOutcome)
      requires Valid() && |newFaces| == 5 && ValidFaces(newFaces)
      modifies this`credit, this`state, this`side1Stake, this`side2Stake, dice
      ensures Snapshot() == StartRoundSpec(old(Snapshot()), newFaces)
      ensures Valid()
      ensures outcome == StartOutcomeOf(old(Snapshot()))
    {
      ghost var g := Snapshot();
      StartRoundKeepsValid(g, newFaces);
      var bet := wager.value;
      if bet > credit {
        ShowValid(g);
        return InsufficientForWager;
      }
      var sideBase := SideStake(bet);
      side1Stake := if side1On then sideBase else 0;
      side2Stake := if side2On then sideBase else 0;
      var totalCost := bet + side1Stake + side2Stake;
      if totalCost > credit {
        ShowValid(StartRoundSpec(g, newFaces));
        return InsufficientForSideBets;
      }
      LaunchRound(totalCost, newFaces);
      outcome := Started;
      ShowValid(StartRoundSpec(g, newFaces));
    }

    /** The round goes ahead: the cost is paid and every die is thrown. */
    method LaunchRound(totalCost: int, newFaces: seq<int>)
      requires Shape() && |newFaces| == 5 && ValidFaces(newFaces)
      modifies this`credit, this`state, dice
      ensures Snapshot() == old(Snapshot()).(dice := StartAll(old(Dice()), newFaces),
                credit := old(credit) - totalCost, phase := Rolling1)
    {
      credit := credit - totalCost;
      ResetDiceForRound(newFaces);
      state := Rolling1;
    }

    /** update, without the collision step. */
    method Update(frames: seq<Frame>)
      requires Valid() && |frames| == 5 && ValidFrames(frames)
      modifies this`credit, this`state, dice
      ensures Snapshot() == TickSpec(old(Snapshot()), frames)
      ensures Valid()
    {
      ghost var g := Snapshot();
      TickKeepsValid(g, frames);
      if state == Rolling1 || state == Rolling2 {
        RollTick(frames);
      } else {
        SlideTick(frames);
      }
      ShowValid(TickSpec(g, frames));
    }

    /** update while rolling: every die ticks, and once all are revealed the roll settles. */
    method RollTick(frames: seq<Frame>)
      requires Shape() && |frames| == 5
      requires state == Rolling1 || state == Rolling2
      modifies this`credit, this`state, dice
      ensures Snapshot() == TickSpec(old(Snapshot()), frames)
    {
      ghost var g := Snapshot();
      StepDice(frames);
      ghost var ds := Dice();
      assert ds == StepAll(g.dice, frames);
      if AllDiceRevealed() {
        var faces := FacesOf(Dice());
        if state == Rolling1 {
          SettleOpeningHand(faces);
        } else {
          SettleFinalHand(faces);
        }
      } else {
        assert Snapshot() == g.(dice := ds);
      }
    }

    /** update in the other phases: only the slides advance, and the presentation may finish. */
    method SlideTick(frames: seq<Frame>)
      requires Shape() && |frames| == 5
      requires state != Rolling1 && state != Rolling2
      modifies this`state, dice
      ensures Snapshot() == TickSpec(old(Snapshot()), frames)
    {
      AnimDice(frames);
      if state == Presenting && AllAnimsDone() {
        state := Finished;
      }
    }

    /** The first roll has settled: the One Roll bet is paid if the opening hand scores. */
    method SettleOpeningHand(faces: seq<int>)
      requires Shape() && |faces| == 5
      modifies this`credit, this`state
      ensures Snapshot() == old(Snapshot()).(credit := old(credit) + OpeningPayout(faces, side1Stake), phase := Hold)
    {
      var hand := ComputeHand(faces);
      var winnings := 0;
      if side1Stake > 0 && hand.multiplier > 0 {
        winnings := side1Stake * 5;
      }
      assert winnings == OpeningPayout(faces, side1Stake);
      credit := credit + winnings;
      state := Hold;
    }

    /** The second roll has settled: the final hand and the All Red bet pay out and the dice slide to their slots. */
    method SettleFinalHand(faces: seq<int>)
      requires Shape() && |faces| == 5
      modifies this`credit, this`state, dice
      ensures Snapshot() == old(Snapshot()).(dice := TweenAll(old(Dice())),
                credit := old(credit) + FinalPayout(faces, wager.value, side2Stake), phase := Presenting)
    {
      var hand := ComputeHand(faces);
      var bet := wager.value;
      var winnings := 0;
      if hand.multiplier > 0 {
        winnings := bet * hand.multiplier;
      }
      if side2Stake > 0 && IsAllRed(faces) {
        winnings := winnings + side2Stake * 15;
      }
      assert winnings == FinalPayout(faces, bet, side2Stake);
      TweenDiceToSlots();
      credit := credit + winnings;
      state := Presenting;
    }

    /** adjust_wager. */
    method AdjustWager(delta: int)
      requires Valid()
      modifies wager`value
      ensures Snapshot() == AdjustSpec(old(Snapshot()), delta)
      ensures Valid()
    {
      ghost var g := Snapshot();
      AdjustBounds(g, delta);
      wager.value := Clamp(wager.value + delta, wager.min, wager.max);
      ShowValid(AdjustSpec(g, delta));
    }

    /** toggle_hold_index. */
    method ToggleHoldIndex(idx: int)
      requires Valid()
      modifies dice
      ensures Snapshot() == ToggleSpec(old(Snapshot()), idx)
      ensures Valid()
    {
      ghost var g := Snapshot();
      ToggleKeepsValid(g, idx);
      DiceAt();
      if !(0 <= idx < |dice|) {
        ShowValid(g);
        return;
      }
      var die := dice[idx];
      if die.animActive {
        ShowValid(g);
        return;
      }
      FlipHold(idx);
      ShowValid(ToggleSpec(g, idx));
    }

    /** The toggle itself: the die changes its hold and slides to its slot or back home. */
    method FlipHold(idx: int)
      requires Shape() && 0 <= idx < 5
      modifies dice[idx]
      ensures Dice() == old(Dice())[idx := Toggled(old(dice[idx].Snapshot()))]
    {
      var die := dice[idx];
      ghost var before := die.Snapshot();
      die.hold := !die.hold;
      if die.hold {
        die.StartAnim(Some(true));
      } else {
        die.parked := false;
        die.StartAnim(Some(false));
      }
      assert die.Snapshot() == Toggled(before);
      DiceAt();
    }

    /** commit_reroll. */
    method CommitReroll(newFaces: seq<int>)
      requires Valid() && |newFaces| == 5 && ValidFaces(newFaces)
      modifies this`state, dice
      ensures Snapshot() == RerollSpec(old(Snapshot()), newFaces)
      ensures Valid()
    {
      ghost var g := Snapshot();
      RerollKeepsValid(g, newFaces);
      RerollDice(newFaces);
      state := Rolling2;
      ShowValid(RerollSpec(g, newFaces));
    }

    // -------------------------------------------------------------------------
    // The loops over the five dice
    // -------------------------------------------------------------------------

    /** do_primary_action: Roll in betting, New Round (after releasing the dice) when finished, Roll Again in hold. */
    method DoPrimaryAction(newFaces: seq<int>)
      requires Valid() && |newFaces| == 5 && ValidFaces(newFaces)
      modifies this`credit, this`state, this`side1Stake, this`side2Stake, dice
      ensures Snapshot() == PrimarySpec(old(Snapshot()), newFaces)
      ensures Valid()
    {
      if optionsOpen {
        return;
      }
      if state == Betting || state == Finished {
        if state == Finished {
          ghost var g := Snapshot();
          ClearDice();
          ClearAllFacts(g.dice);
          ShowValid(g.(dice := ClearAll(g.dice)));
        }
        var _ := StartRound(newFaces);
      } else if state == Hold {
        CommitReroll(newFaces);
      }
    }

    /**
     * handle_event, with the event already resolved to what it hit: while the
     * options overlay is open only closing it acts; otherwise the wager and
     * side-bet inputs act in the betting and finished phases, hold toggles in
     * the hold phase, and the primary action in betting, hold and finished.
     */
    method HandleInput(input: Input, newFaces: seq<int>)
      requires Valid() && |newFaces| == 5 && ValidFaces(newFaces)
      modifies this, dice, wager`value
      ensures Snapshot() == InputSpec(old(Snapshot()), input, newFaces)
      ensures Valid()
    {
      ghost var g := Snapshot();
      InputKeepsValid(g, input, newFaces);
      if optionsOpen {
        if input == CloseOptions {
          optionsOpen := false;
        }
        ShowValid(InputSpec(g, input, newFaces));
        return;
      }
      var betting := state == Betting || state == Finished;
      match input {
        case OpenOptions =>
          optionsOpen := true;
        case CloseOptions =>
        case KeySpace =>
          DoPrimaryAction(newFaces);
        case KeyHold(idx) =>
          if state == Hold {
            ToggleHoldIndex(idx);
          }
        case KeyWager(increase, big) =>
          if betting {
            AdjustWager(KeyStep(increase, big));
          }
        case ClickWager(button) =>
          if betting {
            wager.HandleClick(Some(button));
          }
        case ClickSideBet(allRed) =>
          if betting {
            if allRed {
              side2On := !side2On;
            } else {
              side1On := !side1On;
            }
          }
        case ClickDie(idx) =>
          if state == Hold {
            ToggleHoldIndex(idx);
          }
        case ClickPrimary =>
          if state == Betting {
            var _ := StartRound(newFaces);
          } else if state == Hold {
            CommitReroll(newFaces);
          } else if state == Finished {
            DoPrimaryAction(newFaces);
          }
      }
      ShowValid(InputSpec(g, input, newFaces));
    }

    // -------------------------------------------------------------------------
    // The loops over the dice
    // -------------------------------------------------------------------------

    /** start_round's loop: release, stop and throw every die. */
    method ResetDiceForRound(newFaces: seq<int>)
      requires Shape() && |newFaces| == 5 && ValidFaces(newFaces)
      modifies dice
      ensures Dice() == StartAll(old(Dice()), newFaces)
    {
      DiceAt();
      for i := 0 to 5
        invariant forall j :: 0 <= j < i ==> dice[j].Snapshot() == RoundStart(old(dice[j].Snapshot()), newFaces[j])
        invariant forall j :: i <= j < 5 ==> dice[j].Snapshot() == old(dice[j].Snapshot())
      {
        var die := dice[i];
        ghost var before := die.Snapshot();
        die.hold := false;
        die.parked := false;
        die.animActive := false;
        die.ResetRoll(newFaces[i]);
        assert die.Snapshot() == RoundStart(before, newFaces[i]);
      }
      DiceAt();
    }

    /** The physics loop of update: one tick of every die. */
    method StepDice(frames: seq<Frame>)
      requires Shape() && |frames| == 5
      modifies dice
      ensures Dice() == StepAll(old(Dice()), frames)
    {
      DiceAt();
      for i := 0 to 5
        invariant forall j :: 0 <= j < i ==> dice[j].Snapshot() == Step(old(dice[j].Snapshot()), frames[j])
        invariant forall j :: i <= j < 5 ==> dice[j].Snapshot() == old(dice[j].Snapshot())
      {
        dice[i].Update(frames[i]);
      }
      DiceAt();
    }

    /** The tween-only loop of update. */
    method AnimDice(frames: seq<Frame>)
      requires Shape() && |frames| == 5
      modifies dice
      ensures Dice() == AnimAll(old(Dice()), frames)
    {
      DiceAt();
      for i := 0 to 5
        invariant forall j :: 0 <= j < i ==> dice[j].Snapshot() == AnimStep(old(dice[j].Snapshot()), frames[j].tweenDone)
        invariant forall j :: i <= j < 5 ==> dice[j].Snapshot() == old(dice[j].Snapshot())
      {
        dice[i].UpdateAnim(frames[i].tweenDone);
      }
      DiceAt();
    }

    /** update's final loop: every die starts sliding into its presentation slot. */
    method TweenDiceToSlots()
      requires Shape()
      modifies dice
      ensures Dice() == TweenAll(old(Dice()))
    {
      DiceAt();
      for i := 0 to 5
        invariant forall j :: 0 <= j < i ==> dice[j].Snapshot() == BeginTween(old(dice[j].Snapshot()), Some(true))
        invariant forall j :: i <= j < 5 ==> dice[j].Snapshot() == old(dice[j].Snapshot())
      {
        dice[i].StartAnim(Some(true));
      }
      DiceAt();
    }

    /** commit_reroll's loop: held dice count as revealed, the others are thrown again. */
    method RerollDice(newFaces: seq<int>)
      requires Shape() && |newFaces| == 5 && ValidFaces(newFaces)
      modifies dice
      ensures Dice() == RerollAll(old(Dice()), newFaces)
    {
      DiceAt();
      for i := 0 to 5
        invariant forall j :: 0 <= j < i ==> dice[j].Snapshot() == Rerolled(old(dice[j].Snapshot()), newFaces[j])
        invariant forall j :: i <= j < 5 ==> dice[j].Snapshot() == old(dice[j].Snapshot())
      {
        var die := dice[i];
        ghost var before := die.Snapshot();
        if die.hold {
          die.revealed := true;
          if !die.animActive {
            die.parked := true;
          }
        } else {
          die.ResetRoll(newFaces[i]);
        }
        assert die.Snapshot() == Rerolled(before, newFaces[i]);
      }
      DiceAt();
    }

    /** do_primary_action's loop in the finished phase: release and stop every die. */
    method ClearDice()
      requires Shape()
      modifies dice
      ensures Dice() == ClearAll(old(Dice()))
    {
      DiceAt();
      for i := 0 to 5
        invariant forall j :: 0 <= j < i ==> dice[j].Snapshot() == Cleared(old(dice[j].Snapshot()))
        invariant forall j :: i <= j < 5 ==> dice[j].Snapshot() == old(dice[j].Snapshot())
      {
        var die := dice[i];
        ghost var before := die.Snapshot();
        die.hold := false;
        die.parked := false;
        die.animActive := false;
        assert die.Snapshot() == Cleared(before);
      }
      DiceAt();
    }
  }
}
