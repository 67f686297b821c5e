/** The CPU opponent's decisions, with every `Math.random()` turned into a draw
    parameter: an integer in [0, 100) standing for the hundredths of the random
    number, so that `Math.random() < 0.3` reads `draw < 30`. */
module CpuPolicy {
  import opened Combat

  /** The attack branch of the movement tick. */
  datatype CpuAttack = CpuPunch | CpuKick | CpuDefend

  /** What the reactive tick makes the CPU do. */
  datatype Reaction = NoReaction | DuckUnder | JumpOver | Guard

  /** The random duck-or-jump of the movement tick. */
  datatype Dodge = NoDodge | DodgeDuck | DodgeJump

  /** What one movement tick decides while the CPU is idle: an attack, a
      forced step after too many idle ticks, or a random step and dodge. */
  datatype Plan = Strike(attack: CpuAttack) | ForcedStep | Wander(step: bool, dodge: Dodge)

  /** The random draws of one movement tick. */
  datatype TickDraws = TickDraws(attack: int, move: int, dodge: int, pick: int)

  const AttackRange := 170
  /** Draws are hundredths: the thresholds below are the source's probabilities. */
  const DrawCount := 100
  const PunchCut := 30
  const KickCut := 50
  const AttackCut := 60
  const DodgeCut := 70
  const GuardCut := 40
  const StepCut := 50
  const DodgeChance := 10
  const DuckCut := 50
  const IdleLimit := 3

  predicate IsDraw(x: int) { 0 <= x < DrawCount }

  predicate ValidDraws(t: TickDraws)
  {
    IsDraw(t.attack) && IsDraw(t.move) && IsDraw(t.dodge) && IsDraw(t.pick)
  }

  /** The split of one draw below 0.6 into punch, kick and defence. */
  function AttackChoice(draw: int): (c: CpuAttack)
    requires draw < AttackCut
    ensures c == CpuPunch <==> draw < PunchCut
    ensures c == CpuKick <==> PunchCut <= draw < KickCut
    ensures c == CpuDefend <==> KickCut <= draw
  {
    if draw < PunchCut then CpuPunch
    else if draw < KickCut then CpuKick
    else CpuDefend
  }

  /** One movement tick of an idle CPU. */
  function PlanTick(nearby: bool, attackCooldown: bool, idleTime: int, t: TickDraws): (p: Plan)
    ensures p.Strike? <==> nearby && !attackCooldown && t.attack < AttackCut
    ensures p.ForcedStep? <==> !p.Strike? && idleTime > IdleLimit
    ensures p.Wander? ==> (p.step <==> t.move < StepCut) && (p.dodge != NoDodge <==> t.dodge < DodgeChance)
    ensures p.Strike? ==> p.attack == AttackChoice(t.attack)
    ensures !p.Strike? ==> p == MovePlan(idleTime, t)
  {
    if nearby && !attackCooldown && t.attack < AttackCut then Strike(AttackChoice(t.attack))
    else MovePlan(idleTime, t)
  }

  /** The rest of the tick when the CPU does not attack: a forced step after
      more than three idle ticks, else a step on half the draws and a duck or
      jump on a tenth of them. */
  function MovePlan(idleTime: int, t: TickDraws): (p: Plan)
    ensures !p.Strike?
    ensures p.ForcedStep? <==> idleTime > IdleLimit
    ensures p.Wander? ==> (p.step <==> t.move < StepCut) && (p.dodge != NoDodge <==> t.dodge < DodgeChance)
    ensures p.Wander? && p.dodge != NoDodge ==> (p.dodge == DodgeDuck <==> t.pick < DuckCut)
  {
    if idleTime > IdleLimit then ForcedStep
    else
      var dodge := if t.dodge < DodgeChance then (if t.pick < DuckCut then DodgeDuck else DodgeJump) else NoDodge;
      Wander(t.move < StepCut, dodge)
  }

  /** Whether the plan moves the CPU one step toward the player. */
  predicate Steps(p: Plan)
  {
    p.ForcedStep? || (p.Wander? && p.step)
  }

  /** Whether the plan counts as doing something (the idle counter is reset). */
  predicate Acts(p: Plan)
  {
    !(p.Wander? && !p.step && p.dodge == NoDodge)
  }

  /** The CPU state a plan leaves behind. */
  function PlanState(p: Plan): FighterState
  {
    match p
    case Strike(CpuPunch) => Punch
    case Strike(CpuKick) => Kick
    case Strike(CpuDefend) => Defence
    case ForcedStep => Idle
    case Wander(_, DodgeDuck) => Duck
    case Wander(_, DodgeJump) => Jump
    case Wander(_, NoDodge) => Idle
  }

  /** The idle counter after a tick: reset by any action, otherwise one more. */
  function NextIdleTime(p: Plan, idleTime: int): (t: int)
    ensures Acts(p) ==> t == 0
    ensures !Acts(p) ==> t == idleTime + 1
  {
    if Acts(p) then 0 else idleTime + 1
  }

  /** The counter stays within [0, 4]: a fifth idle tick is always a forced step. */
  lemma IdleTimeBounded(nearby: bool, attackCooldown: bool, idleTime: int, t: TickDraws)
    requires 0 <= idleTime <= IdleLimit + 1
    ensures 0 <= NextIdleTime(PlanTick(nearby, attackCooldown, idleTime, t), idleTime) <= IdleLimit + 1
    ensures idleTime > IdleLimit && !PlanTick(nearby, attackCooldown, idleTime, t).Strike? ==>
              Steps(PlanTick(nearby, attackCooldown, idleTime, t))
  {
  }

  /** The idle counter after a run of ticks, none of which may act. */
  predicate IdleRun(idleTime: int, nearby: seq<bool>, cooldown: seq<bool>, ts: seq<TickDraws>)
    requires |nearby| == |cooldown| == |ts|
    decreases |ts|
  {
    |ts| == 0 ||
    (var p := PlanTick(nearby[0], cooldown[0], idleTime, ts[0]);
     !Acts(p) && IdleRun(NextIdleTime(p, idleTime), nearby[1..], cooldown[1..], ts[1..]))
  }

  /** The CPU never stalls: from a counter in [0, 4], at most 4 - counter
      consecutive ticks can pass without the CPU attacking, attempting a step
      or dodging. A step attempt counts even when the collision guard refuses
      it and the CPU stays where it is. */
  lemma {:induction false} NeverStalls(idleTime: int, nearby: seq<bool>, cooldown: seq<bool>, ts: seq<TickDraws>)
    requires |nearby| == |cooldown| == |ts|
    requires 0 <= idleTime <= IdleLimit + 1
    requires IdleRun(idleTime, nearby, cooldown, ts)
    ensures idleTime + |ts| <= IdleLimit + 1
    decreases |ts|
  {
    if |ts| > 0 {
      var p := PlanTick(nearby[0], cooldown[0], idleTime, ts[0]);
      assert idleTime <= IdleLimit;
      NeverStalls(NextIdleTime(p, idleTime), nearby[1..], cooldown[1..], ts[1..]);
    }
  }

  /** The reactive tick's fixed priority: duck a kick, jump a punch, defend
      either. Only an idle CPU reacts, and only on a draw below 0.7. */
  function ReactiveChoice(lastAction: FighterState, cpuState: FighterState, draw: int): (r: Reaction)
    ensures r != NoReaction ==> cpuState == Idle && draw < DodgeCut
    ensures r == DuckUnder ==> lastAction == Kick
    ensures r == JumpOver ==> lastAction == Punch
  {
    if lastAction == Kick && cpuState == Idle && draw < DodgeCut then DuckUnder
    else if lastAction == Punch && cpuState == Idle && draw < DodgeCut then JumpOver
    else if (lastAction == Punch || lastAction == Kick) && cpuState == Idle && draw < GuardCut then Guard
    else NoReaction
  }

  /** What the reactive tick does, both ways: the defence branch is caught by
      the earlier branches whenever its draw is below 0.4, so it never fires. */
  lemma ReactionTable(lastAction: FighterState, cpuState: FighterState, draw: int)
    ensures ReactiveChoice(lastAction, cpuState, draw) != Guard
    ensures ReactiveChoice(lastAction, cpuState, draw) == DuckUnder <==>
              lastAction == Kick && cpuState == Idle && draw < 70
    ensures ReactiveChoice(lastAction, cpuState, draw) == JumpOver <==>
              lastAction == Punch && cpuState == Idle && draw < 70
    ensures ReactiveChoice(lastAction, cpuState, draw) == NoReaction <==>
              !((lastAction == Kick || lastAction == Punch) && cpuState == Idle && draw < 70)
  {
  }

  /** The CPU state a reaction leaves behind. */
  function ReactionState(r: Reaction, cpuState: FighterState): FighterState
  {
    match r
    case NoReaction => cpuState
    case DuckUnder => Duck
    case JumpOver => Jump
    case Guard => Defence
  }

  // ---------------------------------------------------------------- odds

  predicate Between(d: int, lo: int, hi: int) { lo <= d < hi }

  /** The draws in [lo, hi). The explicit bounds make the set finite and
      `Between` gives the comprehension a trigger. */
  function Draws(lo: int, hi: int): set<int>
  {
    set d | lo <= d < hi && Between(d, lo, hi)
  }

  lemma {:induction false} DrawsSize(lo: int, hi: int)
    requires lo <= hi
    ensures |Draws(lo, hi)| == hi - lo
    decreases hi - lo
  {
    if lo < hi {
      DrawsSize(lo, hi - 1);
      assert Draws(lo, hi) == Draws(lo, hi - 1) + {hi - 1};
    } else {
      assert Draws(lo, hi) == {};
    }
  }

  /** The draws for which the movement tick of a nearby, ready CPU picks `c`. */
  function DrawsFor(c: CpuAttack): set<int>
  {
    set d | d in Draws(0, AttackCut) && AttackChoice(d) == c
  }

  /** Out of the 100 equally likely draws, a nearby ready CPU punches on 30,
      kicks on 20, defends on 10 and does not attack on the other 40. */
  lemma AttackOdds()
    ensures |DrawsFor(CpuPunch)| == 30
    ensures |DrawsFor(CpuKick)| == 20
    ensures |DrawsFor(CpuDefend)| == 10
    ensures |set d | d in Draws(0, DrawCount) && AttackCut <= d| == 40
  {
    assert DrawsFor(CpuPunch) == Draws(0, PunchCut);
    assert DrawsFor(CpuKick) == Draws(PunchCut, KickCut);
    assert DrawsFor(CpuDefend) == Draws(KickCut, AttackCut);
    assert (set d | d in Draws(0, DrawCount) && AttackCut <= d) == Draws(AttackCut, DrawCount);
    DrawsSize(0, PunchCut);
    DrawsSize(PunchCut, KickCut);
    DrawsSize(KickCut, AttackCut);
    DrawsSize(AttackCut, DrawCount);
  }

  /** The draws on which the reactive tick chooses `r`. */
  function DrawsReacting(lastAction: FighterState, cpuState: FighterState, r: Reaction): set<int>
  {
    set d | d in Draws(0, DrawCount) && ReactiveChoice(lastAction, cpuState, d) == r
  }

  /** An idle CPU ducks a last kick on 70 of the 100 draws and jumps a last
      punch on 70; no draw ever makes it defend. */
  lemma ReactionOdds(lastAction: FighterState, cpuState: FighterState)
    ensures lastAction == Kick && cpuState == Idle ==> |DrawsReacting(lastAction, cpuState, DuckUnder)| == 70
    ensures lastAction == Punch && cpuState == Idle ==> |DrawsReacting(lastAction, cpuState, JumpOver)| == 70
    ensures |DrawsReacting(lastAction, cpuState, Guard)| == 0
  {
    DrawsSize(0, DodgeCut);
    if lastAction == Kick && cpuState == Idle {
      assert DrawsReacting(lastAction, cpuState, DuckUnder) == Draws(0, DodgeCut);
    }
    if lastAction == Punch && cpuState == Idle {
      assert DrawsReacting(lastAction, cpuState, JumpOver) == Draws(0, DodgeCut);
    }
    assert DrawsReacting(lastAction, cpuState, Guard) == {};
  }
}
