# D6 Dice Poker — a verified model of the game core

`dice2_v3.py` is a single-file pygame game of five-dice poker.

A round runs like this:

1. The player stakes a wager (10 to 9999) and, optionally, two side bets:
   - **One Roll** pays five times its stake when the opening hand scores;
   - **All Red** pays fifteen times its stake when every final face shows red pips (a 1 or a 4).
2. The player rolls.
3. The player holds some dice and rolls the others once more.
4. The final hand pays the wager times the multiplier of its category:
   - three of a kind: 1;
   - straight: 3;
   - full house: 5;
   - four of a kind: 7;
   - five of a kind: 10.

This project models the integer and boolean core of that game in Dafny and proves properties of it:

- **`Scoring`** (`scoring.dfy`):
  - the payout table;
  - a reference classification of a hand, stated on the multiset of its faces;
  - `compute_hand` itself: the counting loop into a map, then the two largest counts, proved equal to the reference;
  - the All Red predicate and the pip layout of each face.
- **`Wager`** (`wager.dfy`): integer `clamp`, and the wager control with its four step buttons.
- **`DieModel`** (`die.dfy`): one die's face, its revealed, hold and parked flags, its rest counter and its slide animation.
  - The value `DieState` and the step functions `Reset`, `BeginTween`, `AnimStep` and `Step` state what each method of the `Die` class does to a die in place.
  - Each tick receives a `Frame`. It holds the outcome of the physics step (at rest or not), whether the slide reached its end, and the random faces the tick may draw.
- **`RoundSpec`** (`round_spec.dfy`): the round's state machine as values.
  - `GameState` holds the five die states, the credit, the phase, the wager, both stakes, both checkboxes and the options overlay flag.
  - One function per operation: start a round, tick a frame, adjust the wager, toggle a hold, reroll, the primary action, and an input event.
  - Lemmas state what each operation promises.
- **`Round`** (`game.dfy`): the `Game` class.
  - It keeps the five `Die` objects and updates them in place with loops.
  - Every method is proved to move the game's snapshot exactly as the matching `RoundSpec` function says.
  - The constructor and every public operation (`StartRound`, `Update`, `AdjustWager`, `ToggleHoldIndex`, `CommitReroll`, `DoPrimaryAction`, `HandleInput`) establish or preserve the invariant `Valid()`; the helper methods they call require only the shape of the game:
    - the wager lies in [10, 9999];
    - the dice are valid;
    - the stakes are non-negative;
    - outside the two rolling phases, every die is revealed.

Random draws (the face a die shows when it comes to rest, a tumble while it rolls, the new faces of a throw) are parameters. The saved balance is a parameter of the constructor.

## Model

| member | source | states |
|---|---|---|
| Scoring.MultiplierZeroOnlyForNone | dice2_v3.py:81-87 | the payout table: a multiplier is 0 exactly for "none", otherwise between 1 and 10 |
| Scoring.PairBound | dice2_v3.py:471-473 | two different faces together occur at most as often as there are dice |
| Scoring.CountBound | dice2_v3.py:471-473 | no face occurs more often than there are dice |
| Scoring.CountWitness | dice2_v3.py:471-475 | a face occurring `n` times puts `n` among the counts |
| Scoring.ComputeHand | dice2_v3.py:470-492 | compute_hand returns exactly the reference hand `HandOf(faces)`: category and multiplier |
| Scoring.CountFaces | dice2_v3.py:471-473 | the counting loop maps each face that occurs, and only those, to its number of occurrences |
| Scoring.TopTwoCounts | dice2_v3.py:475 | the first two entries of the counts in descending order: the largest count, and the largest count of any other face (0 if none) |
| Scoring.CategoryByCounts | dice2_v3.py:477-492 | the rules in the source's order, decided on the two largest counts and the number of distinct faces, agree with the reference classification |
| Scoring.TopCount | dice2_v3.py:475-480 | the largest count is a count of some face, and no count exceeds it |
| Scoring.TopFullHouse | dice2_v3.py:481-482 | with a top count of 3, the second count is 2 exactly when some face occurs twice |
| Scoring.StraightHasFiveKeys | dice2_v3.py:484-487 | a straight has five distinct faces, so the counts map has five keys |
| Scoring.OnlyBigCount | dice2_v3.py:475-489 | a face seen three or more times is the only face with that many |
| Scoring.FiveEqual | dice2_v3.py:477-478 | all five faces equal give five of a kind, paying 10 |
| Scoring.FourEqual | dice2_v3.py:479-480 | exactly four equal faces give four of a kind, paying 7 |
| Scoring.ThreeAndPair | dice2_v3.py:481-482 | three of one face and two of another give a full house, paying 5 |
| Scoring.StraightCountsOne | dice2_v3.py:484-487 | in a straight every face occurs once |
| Scoring.StraightPays | dice2_v3.py:484-487 | 1-2-3-4-5 or 2-3-4-5-6 in any order give a straight, paying 3 |
| Scoring.ThreeNoPair | dice2_v3.py:489-490 | three equal faces with two different others give three of a kind, paying 1 |
| Scoring.NothingIff | dice2_v3.py:470-492 | a hand is "none" exactly when no face occurs more than twice and it is not a straight; the multiplier is 0 exactly for "none" |
| Scoring.HasCountOrderFree | dice2_v3.py:471-475 | whether some face occurs `n` times depends only on the multiset of faces |
| Scoring.HandOrderFree | dice2_v3.py:470-492 | the hand depends only on the multiset of faces, not their order |
| Scoring.IsAllRed | dice2_v3.py:495-496 | All Red holds exactly when every face has red pips, i.e. is a 1 or a 4 (the pip colour rule at line 164) |
| Scoring.RedCounts | dice2_v3.py:495-496 | in an All Red hand the ones and the fours account for every die |
| Scoring.AllRedIsFullHouseOrBetter | dice2_v3.py:495-496 | an All Red hand of five is always a full house or better, multiplier at least 5 |
| Scoring.WinningExamples | dice2_v3.py:470-492 | worked hands: 1-1-1-1-1 pays 10, 2-2-2-3-3 pays 5, both straights pay 3 |
| Scoring.ThreeKindExample | dice2_v3.py:489-490 | worked hand: 1-1-1-2-3 is three of a kind, paying 1 |
| Scoring.NoHandExample | dice2_v3.py:492 | worked hand: 1-2-3-4-6 scores nothing |
| Scoring.AllRedExamples | dice2_v3.py:495-496 | worked hands: 1-4-1-4-1 is All Red, 1-4-1-4-2 is not |
| Scoring.PipsForFace | dice2_v3.py:137-150 | a face 1..6 gets exactly that many distinct cells, all in the 3x3 grid; anything else gets the centre; the centre is used exactly by the odd faces; every layout is symmetric about the centre |
| Wager.Clamp | dice2_v3.py:115-116 | the result is never below `lo` and, when lo <= hi, never above `hi`; a value inside the bounds is returned unchanged, one outside moves to the nearer bound |
| Wager.WagerControl.constructor | dice2_v3.py:248-262 | the control starts with the given minimum, maximum and value |
| Wager.WagerControl.HandleClick | dice2_v3.py:300-305 | a click on a button moves the value by its step, clamped to [min, max]; a click elsewhere changes nothing; the value stays in range |
| DieModel.Reset | dice2_v3.py:337-347 | reset_roll: the new face, not revealed, counter 0, not sliding, not parked; hold kept |
| DieModel.AnimStep | dice2_v3.py:357-369 | update_anim: only a sliding die whose slide reached its end changes; it stops, takes the pending parked value, and clears it; face, revealed, counter and hold never change |
| DieModel.Step | dice2_v3.py:371-431 | update: a sliding die only advances its slide; a parked die is inert; a free die counts a rest frame or resets the counter to 0; an unrevealed die becomes revealed exactly when the counter reaches 18, showing the drawn face; a revealed die keeps its face; validity is preserved |
| DieModel.RevealedIsFinal | dice2_v3.py:371-431 | once revealed, a die stays revealed with the same face through any number of ticks |
| DieModel.SettlesAfterRestFrames | dice2_v3.py:413-426 | a free die at rest on every tick counts every tick and is revealed exactly when the counter reaches 18 |
| DieModel.RunKeepsValid | dice2_v3.py:371-431 | any number of ticks keep the face in 1..6 and an unrevealed die's counter below 18 |
| DieModel.TweenEndsParked | dice2_v3.py:349-369 | a slide started on a die, once finished, leaves it idle and parked as requested, face unchanged |
| DieModel.Die.constructor | dice2_v3.py:312-335 | a new die: the drawn face, not revealed, counter 0, free and idle |
| DieModel.Die.ResetRoll | dice2_v3.py:337-347 | the die changes in place exactly as `Reset` |
| DieModel.Die.StartAnim | dice2_v3.py:349-355 | start_anim in place: sliding, with the pending parked value |
| DieModel.Die.UpdateAnim | dice2_v3.py:357-369 | update_anim in place, exactly as `AnimStep` |
| DieModel.Die.Update | dice2_v3.py:371-431 | update in place, exactly as `Step`; a valid die with a valid frame stays valid |
| RoundSpec.SideStake | dice2_v3.py:620 | a side stake is a tenth of the wager rounded up, but at least 5 |
| RoundSpec.PayoutBounds | dice2_v3.py:682-712 | payouts never take credit away; One Roll pays at most 5x its stake; the final payout is at most 10x the wager plus 15x the All Red stake, and is 0 exactly when the hand is "none" (or the wager 0) and All Red does not pay |
| RoundSpec.AllRedFinalPayout | dice2_v3.py:696-712 | an All Red final hand pays at least 5x the wager plus 15x the stake |
| RoundSpec.FacesOf | dice2_v3.py:680 | the faces read off the dice, in table order |
| RoundSpec.RoundStart | dice2_v3.py:631-636 | start_round's per-die loop: released, unparked, idle, not revealed, counter 0, new face |
| RoundSpec.Cleared | dice2_v3.py:779-782 | the New Round release: every die unheld, unparked and idle, face and revealed kept |
| RoundSpec.Rerolled | dice2_v3.py:757-767 | commit_reroll per die: a held die keeps its face, becomes revealed, and is parked unless still sliding; any other die is thrown again with the new face |
| RoundSpec.Toggled | dice2_v3.py:748-753 | toggling a die flips its hold and starts a slide to be parked exactly when held; releasing also unparks it |
| RoundSpec.ToggleThenTweenEnds | dice2_v3.py:748-753 | when the toggle's slide ends, the die is idle and parked exactly when held |
| RoundSpec.StepAllFacts | dice2_v3.py:650-652 | a tick keeps every die valid; revealed dice keep faces; holds never change |
| RoundSpec.AnimAllFacts | dice2_v3.py:723-733 | a slide step changes no face, revealed flag or hold, and nothing when no die slides |
| RoundSpec.TweenAllFacts | dice2_v3.py:717-718 | the presentation slide keeps faces and revealed flags, and every die slides to be parked |
| RoundSpec.StartAllFacts | dice2_v3.py:631-636 | after the throw the dice show the new faces and none is held, parked, revealed or sliding |
| RoundSpec.RerollAllFacts | dice2_v3.py:757-767 | in the second roll exactly the held dice are revealed, and they keep their faces |
| RoundSpec.ClearAllFacts | dice2_v3.py:779-782 | clearing keeps faces and revealed flags and releases and stops every die |
| RoundSpec.NewGameValid | dice2_v3.py:582-612 | a new game satisfies the invariant whatever the saved balance, and shows the given faces, none held, parked or sliding |
| RoundSpec.StartRoundOutcomes | dice2_v3.py:614-640 | start_round refuses on the wager alone exactly when bet > credit, changing nothing; otherwise it fixes the stakes, and starts exactly when the wager plus stakes is covered; refused, credit, phase and dice stay; started, credit drops by exactly that total and stays non-negative, the phase is rolling1, and every die is fresh with the new faces |
| RoundSpec.StakeBounds | dice2_v3.py:620-623 | each stake is 0 or the side stake, positive exactly when its box is ticked, and never more than the wager |
| RoundSpec.StartRoundKeepsValid | dice2_v3.py:614-640 | start_round preserves the invariant |
| RoundSpec.TickMoves | dice2_v3.py:648-733 | a frame moves the phase only rolling1→hold, rolling2→presenting or presenting→finished, never lowers credit, changes credit only when a rolling phase settles (every die revealed), and changes nothing but dice, credit and phase |
| RoundSpec.TickSettles | dice2_v3.py:679-721 | a settled first roll enters hold and pays 5x the One Roll stake exactly when the hand scores; a settled second roll pays wager times multiplier plus 15x the All Red stake when all red, enters presenting, and starts every die sliding to be parked |
| RoundSpec.TickWhileRolling | dice2_v3.py:649-679 | until every die is revealed a frame only ticks the dice; revealed dice keep their faces |
| RoundSpec.TickPresents | dice2_v3.py:723-728 | presenting ends exactly when no die slides, with faces and credit unchanged |
| RoundSpec.TickKeepsValid | dice2_v3.py:648-733 | update preserves the invariant |
| RoundSpec.AdjustBounds | dice2_v3.py:738-740 | the wager always ends in [10, 9999]; a step staying inside is taken exactly; nothing else changes |
| RoundSpec.ToggleRules | dice2_v3.py:742-753 | toggle_hold_index does nothing for an index outside 0..4 or a sliding die; otherwise only that die changes, its hold flips, and when its slide ends it is parked exactly when held |
| RoundSpec.ToggleKeepsValid | dice2_v3.py:742-753 | toggling preserves the invariant |
| RoundSpec.RerollRules | dice2_v3.py:755-770 | commit_reroll enters rolling2 with no credit change; each held die keeps its face and is revealed; each other die shows its new face, unrevealed |
| RoundSpec.RerollKeepsValid | dice2_v3.py:755-770 | commit_reroll preserves the invariant |
| RoundSpec.NewRoundRefusedClearsDice | dice2_v3.py:776-785 | a refused New Round stays finished with the same credit and faces, but every die is released and idle |
| RoundSpec.PrimaryKeepsValid | dice2_v3.py:772-789 | do_primary_action preserves the invariant |
| RoundSpec.ClickPrimaryIsKeySpace | dice2_v3.py:827-880 | a click on Roll / Roll Again does exactly what the space bar does |
| RoundSpec.InputGuards | dice2_v3.py:791-880 | while the options overlay is open only closing it acts; during the rolls and the presentation only opening the overlay acts; wager and side bets change only in betting or finished; an input that stays in hold changes only the dice and the overlay flag (credit, wager, stakes and checkboxes stay); the phase moves only along the player's moves; no input adds credit |
| RoundSpec.InputKeepsValid | dice2_v3.py:791-880 | every input preserves the invariant |
| Round.NewTableDie | dice2_v3.py:606-612 | a fresh die lying on the table, revealed, showing the given face |
| Round.Game.Dice | dice2_v3.py:582 | the list of dice has five entries |
| Round.Game.DiceAt | dice2_v3.py:582 | entry i of the dice snapshot is die i's state |
| Round.Game.ShowValid | dice2_v3.py:532-612 | the invariant holds of a well-formed game with a valid snapshot |
| Round.Game.AllDiceRevealed | dice2_v3.py:642-643 | true exactly when every die is revealed |
| Round.Game.AllAnimsDone | dice2_v3.py:645-646 | true exactly when no die is sliding |
| Round.Game.constructor | dice2_v3.py:545-612 | a new game: the saved balance, betting, wager 10, no stakes, boxes unticked, overlay closed, the given faces on the table; the invariant holds |
| Round.Game.StartRound | dice2_v3.py:614-640 | start_round moves the game exactly as `StartRoundSpec`, reports which outcome occurred, and keeps the invariant |
| Round.Game.LaunchRound | dice2_v3.py:629-639 | a started round pays its cost, throws every die, and enters rolling1 |
| Round.Game.Update | dice2_v3.py:648-733 | update moves the game exactly as `TickSpec` and keeps the invariant |
| Round.Game.RollTick | dice2_v3.py:649-721 | update in the rolling phases, exactly as `TickSpec` |
| Round.Game.SlideTick | dice2_v3.py:723-733 | update in the other phases, exactly as `TickSpec` |
| Round.Game.SettleOpeningHand | dice2_v3.py:682-692 | the first roll pays `OpeningPayout` and enters hold; nothing else changes |
| Round.Game.SettleFinalHand | dice2_v3.py:694-721 | the second roll pays `FinalPayout`, slides every die to its slot and enters presenting; nothing else changes |
| Round.Game.AdjustWager | dice2_v3.py:738-740 | adjust_wager moves the game exactly as `AdjustSpec` and keeps the invariant |
| Round.Game.ToggleHoldIndex | dice2_v3.py:742-753 | toggle_hold_index moves the game exactly as `ToggleSpec` and keeps the invariant |
| Round.Game.FlipHold | dice2_v3.py:748-753 | the toggled die changes in place exactly as `Toggled`, the others not at all |
| Round.Game.CommitReroll | dice2_v3.py:755-770 | commit_reroll moves the game exactly as `RerollSpec` and keeps the invariant |
| Round.Game.DoPrimaryAction | dice2_v3.py:772-789 | do_primary_action moves the game exactly as `PrimarySpec` and keeps the invariant |
| Round.Game.HandleInput | dice2_v3.py:791-880 | handle_event moves the game exactly as `InputSpec` and keeps the invariant |
| Round.Game.ResetDiceForRound | dice2_v3.py:631-636 | every die changes exactly as `RoundStart` with its new face |
| Round.Game.StepDice | dice2_v3.py:650-652 | every die changes exactly as `Step` with its frame |
| Round.Game.AnimDice | dice2_v3.py:723-733 | every die changes exactly as `AnimStep` |
| Round.Game.TweenDiceToSlots | dice2_v3.py:717-718 | every die starts sliding to its slot, to be parked there |
| Round.Game.RerollDice | dice2_v3.py:757-767 | every die changes exactly as `Rerolled` with its new face |
| Round.Game.ClearDice | dice2_v3.py:779-782 | every die is released and stopped, exactly as `Cleared` |

## Left out

- Float kinematics (dice2_v3.py:379-411) are left out: gravity, wall and floor bounces, drag, spin and angle. Each tick's outcome is reduced to the `Frame.atRest` input, the test at dice2_v3.py:414-418.
- Collision resolution between dice (dice2_v3.py:654-677) is left out. It moves positions and velocities only and never touches faces, flags or credit.
- Tween interpolation (`ease_out_cubic`, `lerp`, positions, durations; dice2_v3.py:119-122, 357-365) is left out. Only the completion step is kept, as the `Frame.tweenDone` input.
- Randomness is not modelled. Every draw is a parameter: the settle face, the 7% tumble and its face, the faces of a throw. Angle and spin draws are left out altogether, including the zero spin and the random angle given to a held die at the reroll.
- `RoundSpec.SideStake` uses the exact integer ceiling `max(5, (bet + 9) / 10)`. The source computes `max(5, math.ceil(bet * 0.10))` in floating point. For every wager the control allows (10 to 9999) the two agree, but floating-point rounding itself is not modelled.
- The side-stake preview in the bottom panel (dice2_v3.py:981) is rendering and is left out.
- Rendering and pygame are left out:
  - `make_die_surface`, `pip_positions` and every `draw*` method;
  - `Button`, the geometry of `Toggle` and of the wager buttons, and `Die.hit_test`;
  - message and result strings, and `main`.
  - `Input` stands for an event already resolved to the one target it hits (the targets do not overlap). Only the pip colour rule and the pip layout are kept.
- The options overlay is reduced to its open/closed flag. Its "Show key legend" toggle and the settings it saves are left out.
- Saving and loading the balance (`load_save`, `save_save`, dice2_v3.py:499-529) is file I/O and is left out. The loaded balance is the constructor's `savedCredit`.
- Escape outside the overlay quits the program (dice2_v3.py:846-850). That is left out.
- The sorted-list comparison at dice2_v3.py:485-486 (`sorted(faces)` equals `[1,2,3,4,5]` or `[2,3,4,5,6]`) is modelled as equality of multisets. This is the same test on five faces.
- The game's list of dice is built once and never reassigned. It is therefore modelled as a `const` sequence of five `Die` objects, each updated in place; the list itself is not mutable.
- `start_round` assigns both side stakes before its second credit check (dice2_v3.py:620-626). A start refused for the side bets therefore leaves the new stakes behind while credit, phase and dice stay as they were. `StartRoundOutcomes` states this.
