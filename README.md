# Pinillo City Fight — a Dafny model of the combat rules and the select grid

This project models two parts of the browser fighting game Pinillo City Fight:

- The fight screen (`app/fight/page.tsx`). A player and a CPU opponent walk, jump, duck, punch, kick and defend on one stage until one of them has no health left.
- The fighter-select screen (`app/select/page.tsx`). A cursor moves over a two-row grid of six fighters, and Enter starts a fight.

The fight screen is written as React effects, intervals and timeouts. The model turns it into one class, `Fight.Match`. Its fields are the screen's state:
- both healths, positions, states and hit flags;
- the facing flags and the key latches;
- the CPU's idle counter and attack cooldown;
- the shared hit-cooldown, the pause flag and the game-over state.

Each effect or interval callback is one method, and each `setTimeout` callback is an `Expire…` method. Each callback runs as one atomic step:
- Plain reads and plain setters use the values the render captured.
- Functional setters (`set(prev => …)`) and the hit-cooldown ref use the live value.
- When a callback sets the same field twice, the later write wins.

The rules themselves are pure functions:
- `Combat`: geometry, clamping, the collision guard, facing, hit resolution, damage and the end-of-match test.
- `CpuPolicy`: the CPU's decisions, with each `Math.random()` turned into a draw parameter in [0, 100).

The select screen is the pure module `Select`.

Files:
- `combat.dfy`: module `Combat`.
- `cpu_policy.dfy`: module `CpuPolicy`.
- `fight.dfy`: module `Fight`, with the class `Match`.
- `select.dfy`: module `Select`.

Conventions:
- The difficulty is a decimal such as 1.5. It is held as tenths, `d10 >= 10`, so `Math.round(5 * d)` becomes `(5 * d10 + 5) / 10`.
- `window.innerWidth` is the constant field `width`, at least 300 (the smallest window in which both fighters fit inside their bounds).
- Positions are offsets from each fighter's own edge: the player's from the left, the CPU's from the right.

## Model

| member | source | states |
|---|---|---|
| Combat.PlayerCenterX | app/fight/page.tsx:94 | the player's centre, 70 from its own edge, lies strictly inside its 100-wide collision box |
| Combat.CpuCenterX | app/fight/page.tsx:95 | the CPU's centre, 70 from the right edge inward, lies strictly inside its 90-wide collision box |
| Combat.MirroredCentres | app/fight/page.tsx:94-95 | the two centres are measured from opposite edges; at equal offsets they are mirrored about the middle and their gap is abs(width - 2*offset - 140) |
| Combat.CheckCollision | app/fight/page.tsx:102-113 | never colliding while either fighter jumps; otherwise colliding exactly when a grounded move would be refused (player box right edge at or past the CPU box left edge) |
| Combat.Retreat | app/fight/page.tsx:131 | a step back toward the own edge is never below 50 and never moves forward; it is the full step or exactly 50 |
| Combat.Advance | app/fight/page.tsx:162 | a step forward is never beyond width - 150 and never moves back; it is the full step or exactly width - 150 |
| Combat.Clamp | app/fight/page.tsx:326 | the clamp lands in [50, width - 150], leaves in-bound values alone and sends values outside to the nearer bound |
| Combat.Apart | app/fight/page.tsx:134-138 | the grounded guard playerRight < cpuLeft holds exactly when the player stands left of the CPU with centres more than 50 apart, so apart fighters are always more than 50 apart |
| Combat.MoveGranted | app/fight/page.tsx:329-333 | a jumping mover is always let through; a grounded move only when the centres stay more than 50 apart with the player on the left |
| Combat.CpuStep | app/fight/page.tsx:320-336 | a CPU step stays in bounds and moves at most 15, only toward the player's centre; it is exactly the clamped 15-step toward the player when that lands with the boxes apart (or the CPU jumps), and no move otherwise |
| Combat.CpuTurnsToPlayer | app/fight/page.tsx:203 | the flag stored each tick, cpuX < playerX, makes the mirrored CPU face the player whenever the centres differ; the opposite flag never does |
| Combat.LandingTable | app/fight/page.tsx:225-231 | per attack: a punch lands iff gap < 140, target not jumping, cooldown clear and facing; a kick also needs gap < 170 and a target not ducking; a jump kick hits a ducking target |
| Combat.Lands | app/fight/page.tsx:601-607 | a landed hit needs a clear cooldown, facing, a grounded target and a gap below 170; for a punch or jump kick on a grounded target with the cooldown clear and facing, it lands exactly within reach |
| Combat.RoundTenths | app/fight/page.tsx:239 | Math.round on tenths: the result is the nearest integer, halves rounded up |
| Combat.Damage | app/fight/page.tsx:233-241 | 1 against a defending target; otherwise the base damage for the player, and the rounded base times difficulty, never less than the base, for the CPU |
| Combat.Resolve | app/fight/page.tsx:601-621 | an attack lands exactly when the landing conditions hold, then does Damage, and flashes the target only if it was not defending |
| Combat.Finishes | app/fight/page.tsx:623-625 | the end-of-match test on the captured health fires exactly when the hit's damage is at least that health |
| Combat.AfterHit | app/fight/page.tsx:610-613 | health after a hit is max(0, prev - dmg): never negative, never above prev, and 0 exactly when the as-written test prev - dmg <= 0 fires |
| Combat.ReactionTime | app/fight/page.tsx:417 | the reactive gate is 500 ms at difficulty 1.0, falls by 10 ms per tenth of difficulty, and stays at its 200 ms floor from difficulty 4.0 up |
| Combat.ReactionTimeShrinks | app/fight/page.tsx:417 | a higher difficulty never lengthens the reaction gate, and below difficulty 4.0 it strictly shortens it |
| CpuPolicy.AttackChoice | app/fight/page.tsx:212-305 | a draw below 0.6 picks punch below 0.3, kick in [0.3, 0.5) and defence in [0.5, 0.6), both ways |
| CpuPolicy.PlanTick | app/fight/page.tsx:209-387 | the tick attacks iff the player is near, the attack cooldown is clear and the draw is below 0.6, with the attack AttackChoice picks from that draw; otherwise it is MovePlan, a forced step iff the idle counter exceeds 3 |
| CpuPolicy.MovePlan | app/fight/page.tsx:314-387 | without an attack: a forced step after more than 3 idle ticks, else a step iff the move draw is below 0.5 and a duck or jump iff the dodge draw is below 0.1, a duck iff the pick is below 0.5 |
| CpuPolicy.NextIdleTime | app/fight/page.tsx:308-386 | the idle counter is reset by any attack, step or dodge and otherwise grows by one |
| CpuPolicy.IdleTimeBounded | app/fight/page.tsx:314-342 | the idle counter stays in [0, 4], and at 4 a tick that does not attack always steps |
| CpuPolicy.NeverStalls | app/fight/page.tsx:314-342 | from counter c, at most 4 - c consecutive ticks can pass in which the CPU neither attacks, attempts a step nor dodges (a step attempt counts even when the collision guard refuses it) |
| CpuPolicy.ReactionTable | app/fight/page.tsx:431-467 | an idle CPU ducks a last kick and jumps a last punch iff the draw is below 0.7, does nothing otherwise, and the defence branch never fires |
| CpuPolicy.ReactiveChoice | app/fight/page.tsx:431-465 | the CPU reacts only while idle and on a draw below 0.7; a duck answers only a kick and a jump only a punch |
| CpuPolicy.AttackOdds | app/fight/page.tsx:210-219 | of the 100 draws a near, ready CPU punches on 30, kicks on 20, defends on 10 and holds back on 40 |
| CpuPolicy.ReactionOdds | app/fight/page.tsx:431-465 | of the 100 draws an idle CPU ducks a last kick on 70, jumps a last punch on 70 and defends on none |
| Fight.TapTarget | app/fight/page.tsx:116-175 | a fresh press of a free ArrowRight moves exactly 20 forward (clamped) when the boxes stay apart there; otherwise a fresh ArrowLeft moves 20 back (clamped) under the same test; else no move; the position stays in bounds |
| Fight.ActionGating | app/fight/page.tsx:543-709 | punch, kick, defence, duck and jump start only from idle, in the order of the later block winning; a jump stays a jump; a duck lasts exactly while ArrowDown is held |
| Fight.StateAfterKeys | app/fight/page.tsx:543-709 | a non-idle player keeps its state, except that a duck ends on release of ArrowDown; an idle player leaves idle only when some action key is down |
| Fight.LastActionAfterKeys | app/fight/page.tsx:543-709 | outside a jump the last action, when it changes, becomes the new state; a jump kick is recorded only for a kick in the air |
| Fight.BlocksFollowPriority | app/fight/page.tsx:543-709 | running the jump, duck, punch, kick and defence blocks in source order yields the priority table for the state and the last action |
| Fight.JumpLanding | app/fight/page.tsx:552-562 | a jump moves exactly 50 toward the arrow held, ArrowLeft first, clamped to the bounds; it stays in bounds and does not move without an arrow |
| Fight.PlayerStrikeTable | app/fight/page.tsx:590-682 | the action effect lands a hit iff the punch or kick landing conditions hold; damage is 1 against defence, else 5, 15 for a jump kick, 10 for a kick, unscaled |
| Fight.PlayerStrike | app/fight/page.tsx:590-682 | a hit of the action effect lands only with a clear cooldown, facing, a grounded CPU and a gap below 170, only for a punch or kick from idle or a kick in the air, and does 1, 5, 10 or 15 |
| Fight.CpuStrikeTable | app/fight/page.tsx:219-290 | the CPU lands a punch or kick iff its landing conditions hold; damage is 1 against defence, else round(5d) or round(10d), never below 5 or 10 |
| Fight.CpuStrike | app/fight/page.tsx:219-290 | a CPU hit lands only for a punch or kick with a clear cooldown, facing and a grounded player; a defence never lands |
| Fight.CooldownBlocksHits | app/fight/page.tsx:228 | while the shared hit-cooldown is set no punch or kick of either side lands |
| Fight.Match.constructor | app/fight/page.tsx:38-88 | a new match starts valid and running: full health, both idle at 150, player facing right, the CPU's facing flag set, every latch, flag and counter clear, no winner |
| Fight.Match.EndGame | app/fight/page.tsx:730-735 | ends the match with the given winner |
| Fight.Match.TapArrow | app/fight/page.tsx:118-143 | one arrow's tap block: latch, facing and a granted 20-step on a fresh press; release clears the latch |
| Fight.Match.TapMove | app/fight/page.tsx:116-175 | the tap effect moves to TapTarget, sets the latches and facing, keeps the invariant and never brings the boxes together |
| Fight.Match.HoldTick | app/fight/page.tsx:488-536 | a hold tick moves at most 10: right only if the boxes stay apart, left unguarded, nothing while over, paused or rooted; the boxes stay apart |
| Fight.Match.StrikeCpu | app/fight/page.tsx:609-625 | a landed player hit sets CPU health to AfterHit, flashes unless blocked, sets the cooldown, and ends the match exactly when prev - dmg <= 0 |
| Fight.Match.JumpKey | app/fight/page.tsx:543-578 | a fresh ArrowUp from idle starts a jump that lands per JumpLanding; release clears the latch |
| Fight.Match.DuckKey | app/fight/page.tsx:580-588 | ArrowDown from idle ducks; releasing it from a duck stands up |
| Fight.Match.PunchKey | app/fight/page.tsx:590-633 | d from idle punches and lands the hit Resolve decides on the captured values |
| Fight.Match.KickKey | app/fight/page.tsx:636-693 | a from idle kicks, a in the air jump-kicks without leaving the jump, and the hit is resolved at once |
| Fight.Match.DefenceKey | app/fight/page.tsx:696-709 | s from idle defends |
| Fight.Match.AttackKeys | app/fight/page.tsx:590-709 | punch, kick and defence blocks together land exactly the hit PlayerStrike describes |
| Fight.Match.StanceKeys | app/fight/page.tsx:543-588 | the jump block then the duck block: the pose follows JumpPose then DuckPose, a started jump lands per JumpLanding, otherwise position, direction and facing are unchanged, and the ArrowUp latch is set by a jump and cleared on release |
| Fight.Match.ActionBlocks | app/fight/page.tsx:543-709 | the action effect of a running match: state and last action follow the priority table, the jump lands per JumpLanding, the CPU's health follows the one hit landed |
| Fight.Match.PlayerActions | app/fight/page.tsx:539-725 | nothing while over or paused; otherwise the whole new state ActionBlocks gives: state, last action, latch, flags, jump landing and facing, and the CPU's health, hit flash, cooldown and end of match; with the cooldown set the CPU's health is unchanged |
| Fight.Match.StrikePlayer | app/fight/page.tsx:233-250 | a landed CPU hit sets the player's health to AfterHit, flashes unless blocked, sets the cooldown and ends the match exactly when prev - dmg <= 0 |
| Fight.Match.CpuAttack | app/fight/page.tsx:212-309 | the attack branch starts the attack cooldown, takes the chosen pose, resets the idle counter and lands the hit CpuStrike describes |
| Fight.Match.CpuMove | app/fight/page.tsx:313-387 | the rest of the tick follows MovePlan for state, idle counter and position, keeping the boxes apart |
| Fight.Match.CpuTick | app/fight/page.tsx:189-408 | nothing unless running and idle; otherwise the CPU turns to the player and follows PlanTick, its hit uses the facing flag from before the turn, and a set cooldown protects the player |
| Fight.Match.CpuReact | app/fight/page.tsx:411-485 | nothing before the reaction gate; then turn to the player and follow ReactiveChoice; the CPU only ever leaves idle for duck or jump here |
| Fight.Match.ExpireHitCooldown | app/fight/page.tsx:619-621 | the shared hit-cooldown clears |
| Fight.Match.ExpirePlayerFlash | app/fight/page.tsx:241 | the player's hit flash ends |
| Fight.Match.ExpireCpuFlash | app/fight/page.tsx:615 | the CPU's hit flash ends |
| Fight.Match.ExpirePlayerStrike | app/fight/page.tsx:628-631 | after a punch or kick the player is idle again |
| Fight.Match.ExpirePlayerDefence | app/fight/page.tsx:703-707 | after defending the player is idle and no longer defending |
| Fight.Match.ExpirePlayerJump | app/fight/page.tsx:567-572 | after a jump the player is idle, with no direction and no jump kick |
| Fight.Match.ExpireCpuAction | app/fight/page.tsx:254-257 | after any CPU action the CPU is idle again |
| Fight.Match.ExpireCpuAttackCooldown | app/fight/page.tsx:256 | the CPU's attack cooldown clears |
| Fight.Match.TogglePause | app/fight/page.tsx:773 | the pause button flips the pause flag |
| Fight.Match.Resume | app/fight/page.tsx:838 | the play button clears the pause flag |
| Select.JsRem | app/select/page.tsx:16 | JavaScript's remainder: for a non-negative dividend it is the usual remainder in [0, n) |
| Select.Right | app/select/page.tsx:16 | ArrowRight stays on the grid, moves to the next fighter and wraps from the last to the first |
| Select.Left | app/select/page.tsx:19 | ArrowLeft stays on the grid, moves to the previous fighter and wraps from the first to the last |
| Select.LeftUndoesRight | app/select/page.tsx:16-19 | ArrowLeft undoes ArrowRight and ArrowRight undoes ArrowLeft |
| Select.Up | app/select/page.tsx:22-28 | ArrowUp keeps a grid index on the grid, keeps the column and switches the row |
| Select.Down | app/select/page.tsx:31-37 | ArrowDown keeps a grid index on the grid |
| Select.DownIsUp | app/select/page.tsx:22-37 | ArrowDown computes the same map as ArrowUp on every index |
| Select.UpInvolution | app/select/page.tsx:22-37 | the grid is the roster (2 rows of 3) and the row swap applied twice returns the original index |
| Select.Presses | app/select/page.tsx:16 | any number of ArrowRight presses stays on the grid |
| Select.PressesAdvance | app/select/page.tsx:16 | k presses of ArrowRight move the cursor from i to (i + k) mod 6 |
| Select.FullRound | app/select/page.tsx:16 | six more presses of ArrowRight change nothing |
| Select.HandleKey | app/select/page.tsx:13-45 | every key keeps the cursor on the grid: ArrowRight gives Right, ArrowLeft Left, ArrowUp Up, ArrowDown Down, Enter and other keys keep it; only Enter yields a route, for the selected fighter's id with round 1, difficulty 1.0 and no previous opponents |
| Select.FindFighter | app/fight/page.tsx:23-24 | the fight screen's lookup returns the first fighter with the id, or the first fighter when none has it |
| Select.ChosenFighterFound | app/select/page.tsx:41 | the fight screen finds exactly the fighter selected when Enter was pressed |

## Left out

- Rendering, sprites, the walking animations (`isPlayerWalking`, `isCpuWalking`), `cpuMovementTimer` and the pause overlay: presentation only, and nothing else reads them.
- Router navigation: the two-second delayed `router.push` to the winner screen, the select screen's back button and the whole of `app/page.tsx`. The Enter key's URL is modelled as the record `FightRoute`, not as a string.
- `useKeyboardControls` and `resetKeys`: key state is an input record `Keys` given to each method. Clearing a key after a punch, kick or defence is not modelled.
- `getRandomFighter`, `getRandomStageBackground` and the parsing of the previous-opponents parameter: their source is not part of this model.
- Real time and interleaving: the model does not track pending timers. Each `Expire…` method may be called at any moment, and the invariant holds whatever the order. Every interval callback is one atomic step, and `Date.now()` is the parameter `now` of `CpuReact`.
- Randomness: each `Math.random()` is an integer draw in [0, 100). This is exact for thresholds that are multiples of 0.01, which all thresholds here are.
- Floating point: the difficulty is an integer number of tenths. A difficulty with more than one decimal is not modelled.
- `window.innerWidth` is a fixed constant per match; resizing is not modelled.
- Two behaviours of the code are kept as written:
  - The tap-movement effect (app/fight/page.tsx:116-186) has no game-over or pause test, so taps still move the player after the match ends.
  - Pausing stops the intervals but not the pending timeouts.
- Fight.Match.CpuTick: the stale facing flag is modelled as written. The hit test reads the flag the render captured, before the tick re-faces the CPU.
