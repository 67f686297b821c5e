/** The fight screen as a state machine. One `Match` object holds both fighters
    and the shared flags. Every effect and interval callback of the screen is a
    method, and every `setTimeout` callback an `Expire` method that the
    surrounding scheduler calls when the timer fires. Each callback runs as one
    atomic step: what it reads comes from the values its render captured, a
    functional update (`set(prev => ...)`) reads the live field, and when a
    callback sets the same field twice the later write wins. */
module Fight {
  import opened Combat
  import opened CpuPolicy

  /** The keys the screen polls: the arrows, d (punch), a (kick), s (defence). */
  datatype Keys = Keys(left: bool, right: bool, up: bool, down: bool,
                       punch: bool, kick: bool, defence: bool)

  datatype JumpDirection = NoDirection | LeftJump | RightJump

  datatype Winner = Undecided | PlayerWins | CpuWins

  /** States in which the arrow keys do not walk the player. */
  predicate Rooted(s: FighterState)
  {
    s == Jump || s == Defence || s == Duck
  }

  /** A single tap acts once per key press, when the player is free to walk. */
  predicate TapFires(pressed: bool, latched: bool, s: FighterState)
  {
    pressed && !latched && !Rooted(s)
  }

  /** Where the single-tap effect puts the player: 20 back for a fresh press
      of ArrowLeft, 20 forward for a fresh press of ArrowRight, each applied
      only when the boxes stay apart; the right-arrow block runs second, so its
      position wins when both fire. */
  function TapTarget(width: int, pos: int, cpuPos: int, s: FighterState, keys: Keys,
                     leftLatched: bool, rightLatched: bool): (r: int)
    ensures r != pos ==> Apart(width, r, cpuPos)
    ensures r == pos || r == Retreat(pos, 20) || r == Advance(width, pos, 20)
    ensures InBounds(width, pos) ==> InBounds(width, r)
    ensures InBounds(width, pos) && r > pos ==> TapFires(keys.right, rightLatched, s)
    ensures InBounds(width, pos) && r < pos ==> TapFires(keys.left, leftLatched, s)
    ensures !TapFires(keys.left, leftLatched, s) && !TapFires(keys.right, rightLatched, s) ==> r == pos
    ensures TapFires(keys.right, rightLatched, s) && Apart(width, Advance(width, pos, 20), cpuPos) ==>
              r == Advance(width, pos, 20)
    ensures !(TapFires(keys.right, rightLatched, s) && Apart(width, Advance(width, pos, 20), cpuPos)) &&
            TapFires(keys.left, leftLatched, s) && Apart(width, Retreat(pos, 20), cpuPos) ==>
              r == Retreat(pos, 20)
  {
    var right := Advance(width, pos, 20);
    var left := Retreat(pos, 20);
    if TapFires(keys.right, rightLatched, s) && Apart(width, right, cpuPos) then right
    else if TapFires(keys.left, leftLatched, s) && Apart(width, left, cpuPos) then left
    else pos
  }

  /** ArrowUp starts a jump once per key press, and only from idle. */
  predicate JumpStarts(s: FighterState, keys: Keys, latched: bool)
  {
    keys.up && s == Idle && !latched
  }

  /** The player's state after the action effect: every block tests the state
      the render captured, and the last block that writes wins (jump, duck,
      punch, kick, defence, in that order). A kick in the air keeps `Jump`. */
  function StateAfterKeys(s: FighterState, keys: Keys, latched: bool): (r: FighterState)
    ensures s != Idle ==> r == s || (s == Duck && r == Idle)
    ensures s == Idle && r != Idle ==> keys.defence || keys.kick || keys.punch || keys.down || keys.up
  {
    if s == Idle then
      if keys.defence then Defence
      else if keys.kick then Kick
      else if keys.punch then Punch
      else if keys.down then Duck
      else if JumpStarts(s, keys, latched) then Jump
      else Idle
    else if s == Duck && !keys.down then Idle
    else s
  }

  /** The player's last action, which the CPU's reactive tick reads. */
  function LastActionAfterKeys(s: FighterState, keys: Keys, latched: bool, last: FighterState): (r: FighterState)
    ensures r != last && s != Jump ==> r == StateAfterKeys(s, keys, latched)
    ensures r == JumpKick ==> (s == Jump && keys.kick) || last == JumpKick
  {
    if s == Idle then
      if keys.defence then Defence
      else if keys.kick then Kick
      else if keys.punch then Punch
      else if keys.down then Duck
      else if JumpStarts(s, keys, latched) then Jump
      else last
    else if s == Jump && keys.kick then JumpKick
    else if s == Duck && !keys.down then Idle
    else last
  }

  /** Action gating: punch, kick, defence, duck and jump start only from idle
      (the later block wins when several keys are down), a kick in the air
      keeps the jump, and a duck lasts exactly as long as ArrowDown is held. */
  lemma ActionGating(s: FighterState, keys: Keys, latched: bool)
    ensures StateAfterKeys(s, keys, latched) != s ==>
              s == Idle || (s == Duck && StateAfterKeys(s, keys, latched) == Idle)
    ensures s == Jump ==> StateAfterKeys(s, keys, latched) == Jump
    ensures s == Duck ==> (StateAfterKeys(s, keys, latched) == Duck <==> keys.down)
    ensures s == Duck ==> (StateAfterKeys(s, keys, latched) == Idle <==> !keys.down)
    ensures s == Idle ==> (StateAfterKeys(s, keys, latched) == Defence <==> keys.defence)
    ensures s == Idle ==> (StateAfterKeys(s, keys, latched) == Kick <==> keys.kick && !keys.defence)
    ensures s == Idle ==> (StateAfterKeys(s, keys, latched) == Punch <==>
                             keys.punch && !keys.kick && !keys.defence)
    ensures s == Idle ==> (StateAfterKeys(s, keys, latched) == Duck <==>
                             keys.down && !keys.punch && !keys.kick && !keys.defence)
    ensures s == Idle ==> (StateAfterKeys(s, keys, latched) == Jump <==>
                             JumpStarts(s, keys, latched) && !keys.down && !keys.punch &&
                             !keys.kick && !keys.defence)
    ensures StateAfterKeys(s, keys, latched) != JumpKick || s == JumpKick
  {
  }

  /** The player's state together with the last action the CPU reacts to. */
  datatype Pose = Pose(state: FighterState, last: FighterState)

  // One function per block of the action effect, each testing the state `s`
  // the render captured and passing the pose of the earlier blocks through.

  function JumpPose(keys: Keys, s: FighterState, latched: bool, p: Pose): Pose
  {
    if JumpStarts(s, keys, latched) then Pose(Jump, Jump) else p
  }

  function DuckPose(keys: Keys, s: FighterState, p: Pose): Pose
  {
    if keys.down && s == Idle then Pose(Duck, Duck)
    else if !keys.down && s == Duck then Pose(Idle, Idle)
    else p
  }

  function PunchPose(keys: Keys, s: FighterState, p: Pose): Pose
  {
    if keys.punch && s == Idle then Pose(Punch, Punch) else p
  }

  function KickPose(keys: Keys, s: FighterState, p: Pose): Pose
  {
    if keys.kick && s == Idle then Pose(Kick, Kick)
    else if keys.kick && s == Jump then Pose(p.state, JumpKick)
    else p
  }

  function DefencePose(keys: Keys, s: FighterState, p: Pose): Pose
  {
    if keys.defence && s == Idle then Pose(Defence, Defence) else p
  }

  /** The five blocks in source order give the priority table above. */
  lemma BlocksFollowPriority(s: FighterState, keys: Keys, latched: bool, last: FighterState)
    ensures DefencePose(keys, s, KickPose(keys, s, PunchPose(keys, s, DuckPose(keys, s,
              JumpPose(keys, s, latched, Pose(s, last)))))) ==
            Pose(StateAfterKeys(s, keys, latched), LastActionAfterKeys(s, keys, latched, last))
  {
  }

  /** Where a jump lands: 50 toward the arrow held, no collision test. */
  function JumpLanding(width: int, pos: int, keys: Keys): (r: int)
    ensures InBounds(width, pos) ==> InBounds(width, r)
    ensures InBounds(width, pos) && keys.left ==> pos - 50 <= r <= pos
    ensures InBounds(width, pos) && !keys.left && keys.right ==> pos <= r <= pos + 50
    ensures !keys.left && !keys.right ==> r == pos
    ensures keys.left ==> r == pos - 50 || (r == NearLimit && pos - 50 < NearLimit)
    ensures !keys.left && keys.right ==> r == pos + 50 || (r == width - FarMargin && pos + 50 > width - FarMargin)
  {
    if keys.left then Retreat(pos, 50)
    else if keys.right then Advance(width, pos, 50)
    else pos
  }

  function JumpDirectionOf(keys: Keys): JumpDirection
  {
    if keys.left then LeftJump else if keys.right then RightJump else NoDirection
  }

  /** The hit the action effect lands, if any: the punch block first, then the
      kick block, which sees the hit-cooldown the punch may just have set. */
  function PlayerStrike(s: FighterState, cpuState: FighterState, gap: int, facing: bool,
                        cooldown: bool, keys: Keys, d10: int): (o: HitOutcome)
    ensures o.Landed? ==> !cooldown && facing && cpuState != Jump && gap < KickReach
    ensures o.Landed? ==> (s == Idle && (keys.punch || keys.kick)) || (s == Jump && keys.kick)
    ensures o.Landed? ==> o.damage in {ChipDamage, 5, 10, 15}
  {
    var punch := if keys.punch && s == Idle
                 then Resolve(PlayerSide, PunchAttack, gap, cpuState, cooldown, facing, d10)
                 else Miss;
    if punch.Landed? then punch
    else if keys.kick && (s == Idle || s == Jump) then
      Resolve(PlayerSide, if s == Jump then JumpKickAttack else KickAttack, gap, cpuState, cooldown, facing, d10)
    else Miss
  }

  /** The player's hits, as a table: when the action effect lands a hit, and
      how much it does (1 against defence, else 5, 10 or 15, never scaled). */
  lemma PlayerStrikeTable(s: FighterState, cpuState: FighterState, gap: int, facing: bool,
                          cooldown: bool, keys: Keys, d10: int)
    ensures PlayerStrike(s, cpuState, gap, facing, cooldown, keys, d10).Landed? <==>
              !cooldown && facing && cpuState != Jump &&
              ((keys.punch && s == Idle && gap < PunchReach) ||
               (keys.kick && s == Idle && cpuState != Duck && gap < KickReach) ||
               (keys.kick && s == Jump && gap < KickReach))
    ensures PlayerStrike(s, cpuState, gap, facing, cooldown, keys, d10).Landed? ==>
              PlayerStrike(s, cpuState, gap, facing, cooldown, keys, d10).damage ==
                (if cpuState == Defence then 1
                 else if keys.punch && s == Idle && gap < PunchReach then 5
                 else if s == Jump then 15
                 else 10)
    ensures PlayerStrike(s, cpuState, gap, facing, cooldown, keys, d10).Landed? ==>
              (PlayerStrike(s, cpuState, gap, facing, cooldown, keys, d10).flash <==> cpuState != Defence)
  {
  }

  /** The hit the movement tick's attack lands: a punch or a kick resolved
      on the centres the tick computed; a defence lands nothing. */
  function CpuStrike(choice: CpuAttack, gap: int, playerState: FighterState, cooldown: bool,
                     facing: bool, d10: int): (o: HitOutcome)
    ensures o.Landed? ==> choice != CpuDefend && !cooldown && facing && playerState != Jump
    ensures choice == CpuDefend ==> o == Miss
  {
    match choice
    case CpuPunch => Resolve(CpuSide, PunchAttack, gap, playerState, cooldown, facing, d10)
    case CpuKick => Resolve(CpuSide, KickAttack, gap, playerState, cooldown, facing, d10)
    case CpuDefend => Miss
  }

  /** The CPU's hits, as a table: a jump dodges both attacks and a duck the
      kick; a defending player takes 1, otherwise the base damage scaled by
      the difficulty and rounded, never less than the base. */
  lemma CpuStrikeTable(choice: CpuAttack, gap: int, playerState: FighterState, cooldown: bool,
                       facing: bool, d10: int)
    requires d10 >= 10
    ensures CpuStrike(choice, gap, playerState, cooldown, facing, d10).Landed? <==>
              !cooldown && facing && playerState != Jump &&
              ((choice == CpuPunch && gap < PunchReach) ||
               (choice == CpuKick && playerState != Duck && gap < KickReach))
    ensures var o := CpuStrike(choice, gap, playerState, cooldown, facing, d10);
            o.Landed? && playerState == Defence ==> o.damage == ChipDamage && !o.flash
    ensures var o := CpuStrike(choice, gap, playerState, cooldown, facing, d10);
            o.Landed? && playerState != Defence ==>
              o.flash &&
              o.damage == RoundTenths((if choice == CpuPunch then 5 else 10) * d10) &&
              o.damage >= (if choice == CpuPunch then 5 else 10)
  {
  }

  /** The shared hit-cooldown serialises damage: while it is set, no punch
      or kick of either side lands. */
  lemma CooldownBlocksHits(s: FighterState, cpuState: FighterState, playerState: FighterState,
                           choice: CpuAttack, gap: int, facing: bool, keys: Keys, d10: int)
    ensures PlayerStrike(s, cpuState, gap, facing, true, keys, d10) == Miss
    ensures CpuStrike(choice, gap, playerState, true, facing, d10) == Miss
  {
  }

  class Match {
    const width: int
    /** The difficulty multiplier in tenths: 10 stands for 1.0. */
    const d10: int

    var playerHealth: int
    var cpuHealth: int
    var playerPos: int
    var cpuPos: int
    var playerState: FighterState
    var cpuState: FighterState
    var playerLastAction: FighterState
    var playerFacingLeft: bool
    var cpuFacingLeft: bool
    var playerJump: JumpDirection
    var playerDefending: bool
    var playerJumpKicking: bool
    var playerHit: bool
    var cpuHit: bool
    /** The one-press latches of ArrowUp and of the two single-tap arrows. */
    var jumpLatch: bool
    var leftTapLatch: bool
    var rightTapLatch: bool
    var cpuIdleTime: int
    var cpuAttackCooldown: bool
    /** When the reactive tick last acted, in milliseconds. */
    var lastCpuActionAt: int
    /** The shared hit-cooldown: set by every landed hit, cleared by a timer. */
    var hitCooldown: bool
    var paused: bool
    var gameOver: bool
    var winner: Winner

    /** Health stays in [0, 100]; the match is over exactly when a winner is
        named, and then the loser, and only the loser, has no health left. */
    ghost predicate Scored()
      reads this`playerHealth, this`cpuHealth, this`gameOver, this`winner
    {
      && 0 <= playerHealth <= MaxHealth && 0 <= cpuHealth <= MaxHealth
      && (gameOver <==> winner != Undecided)
      && (winner == Undecided ==> playerHealth > 0 && cpuHealth > 0)
      && (winner == PlayerWins ==> cpuHealth == 0 && playerHealth > 0)
      && (winner == CpuWins ==> playerHealth == 0 && cpuHealth > 0)
    }

    /** Both positions stay in [50, width - 150]. */
    ghost predicate Placed()
      reads this`playerPos, this`cpuPos
    {
      InBounds(width, playerPos) && InBounds(width, cpuPos)
    }

    /** The match invariant: a window wide enough for both fighters, a
        difficulty of at least 1.0, the idle counter in [0, 4], and the
        two above. */
    ghost predicate Valid()
      reads this`playerHealth, this`cpuHealth, this`playerPos, this`cpuPos, this`cpuIdleTime,
            this`gameOver, this`winner
    {
      && width >= 300 && d10 >= 10
      && Scored() && Placed()
      && 0 <= cpuIdleTime <= IdleLimit + 1
    }

    /** The intervals run only while the match is on and not paused. */
    predicate Live()
      reads this`gameOver, this`paused
    {
      !gameOver && !paused
    }

    /** The grounded guard holds between the two collision boxes. */
    predicate Separated()
      reads this`playerPos, this`cpuPos
    {
      Apart(width, playerPos, cpuPos)
    }

    function PlayerX(): int
      reads this`playerPos
    {
      PlayerCenterX(playerPos)
    }

    function CpuX(): int
      reads this`cpuPos
    {
      CpuCenterX(width, cpuPos)
    }

    function Gap(): int
      reads this`playerPos, this`cpuPos
    {
      CentreGap(width, playerPos, cpuPos)
    }

    /** The hit the action effect would land now. */
    function PlayerStrikeNow(keys: Keys): HitOutcome
      reads this
    {
      if !Live() then Miss
      else PlayerStrike(playerState, cpuState, Gap(), PlayerFacesCpu(PlayerX(), CpuX(), playerFacingLeft),
                        hitCooldown, keys, d10)
    }

    /** The movement tick's plan for the current state. */
    function TickPlan(t: TickDraws): Plan
      reads this
    {
      PlanTick(Gap() < AttackRange, cpuAttackCooldown, cpuIdleTime, t)
    }

    /** The hit the movement tick would land now; the facing test reads the
        flag as it was before the tick turns the CPU. */
    function CpuStrikeNow(t: TickDraws): HitOutcome
      reads this
    {
      if !Live() || cpuState != Idle then Miss
      else
        var plan := TickPlan(t);
        if plan.Strike? then
          CpuStrike(plan.attack, Gap(), playerState, hitCooldown,
                    CpuFacesPlayer(CpuX(), PlayerX(), cpuFacingLeft), d10)
        else Miss
    }

    /** Where one CPU step toward the player would put it now. */
    function CpuStepNow(): int
      reads this
      requires Valid()
    {
      CpuStep(width, cpuState, playerPos, cpuPos, CpuX(), PlayerX())
    }

    /** A new match: both fighters idle at 150 from their own edges with full
        health, the player facing right and the CPU's facing flag set. */
    constructor (width: int, d10: int, startTime: int)
      requires width >= 300 && d10 >= 10
      ensures Valid() && Live()
      ensures this.width == width && this.d10 == d10
      ensures playerHealth == MaxHealth && cpuHealth == MaxHealth
      ensures playerPos == 150 && cpuPos == 150
      ensures playerState == Idle && cpuState == Idle && playerLastAction == Idle
      ensures !playerFacingLeft && cpuFacingLeft && playerJump == NoDirection
      ensures !playerDefending && !playerJumpKicking && !playerHit && !cpuHit
      ensures !jumpLatch && !leftTapLatch && !rightTapLatch
      ensures cpuIdleTime == 0 && !cpuAttackCooldown && lastCpuActionAt == startTime
      ensures !hitCooldown && winner == Undecided
    {
      this.width := width;
      this.d10 := d10;
      playerHealth, cpuHealth := MaxHealth, MaxHealth;
      playerPos, cpuPos := 150, 150;
      playerState, cpuState, playerLastAction := Idle, Idle, Idle;
      playerFacingLeft, cpuFacingLeft := false, true;
      playerJump := NoDirection;
      playerDefending, playerJumpKicking := false, false;
      playerHit, cpuHit := false, false;
      jumpLatch, leftTapLatch, rightTapLatch := false, false, false;
      cpuIdleTime, cpuAttackCooldown := 0, false;
      lastCpuActionAt := startTime;
      hitCooldown, paused, gameOver := false, false, false;
      winner := Undecided;
    }

    /** Ends the match; every interval stops, which the model expresses by
        making the tick methods do nothing once `gameOver` is set. */
    method EndGame(w: Winner)
      requires w != Undecided
      modifies this`gameOver, this`winner
      ensures gameOver && winner == w
    {
      gameOver := true;
      winner := w;
    }

    // ------------------------------------------------------------ player input

    /** One arrow's block of the single-tap effect, on the state `s`,
        position `pos` and latch the render captured: a fresh press of a free
        arrow latches it, turns the player that way and steps 20, if the
        boxes stay apart; releasing the arrow clears the latch. */
    method TapArrow(toRight: bool, pressed: bool, s: FighterState, pos: int, latched: bool)
      requires Placed() && NearLimit <= width - FarMargin && InBounds(width, pos)
      requires latched == (if toRight then rightTapLatch else leftTapLatch)
      modifies this`leftTapLatch, this`rightTapLatch, this`playerFacingLeft, this`playerPos
      ensures Placed()
      ensures (if toRight then rightTapLatch else leftTapLatch) == (pressed && (latched || !Rooted(s)))
      ensures (if toRight then leftTapLatch else rightTapLatch) ==
                old(if toRight then leftTapLatch else rightTapLatch)
      ensures playerFacingLeft == if TapFires(pressed, latched, s) then !toRight else old(playerFacingLeft)
      ensures var target := if toRight then Advance(width, pos, 20) else Retreat(pos, 20);
              playerPos == if TapFires(pressed, latched, s) && Apart(width, target, cpuPos) then target
                           else old(playerPos)
    {
      if pressed && !latched && s != Jump && s != Defence && s != Duck {
        if toRight {
          rightTapLatch := true;
        } else {
          leftTapLatch := true;
        }
        playerFacingLeft := !toRight;
        var target := if toRight then Advance(width, pos, 20) else Retreat(pos, 20);
        if MoveGranted(s == Jump, width, target, cpuPos) {
          playerPos := target;
        }
      }
      if !pressed && latched {
        if toRight {
          rightTapLatch := false;
        } else {
          leftTapLatch := false;
        }
      }
    }

    /** The single-tap effect: one step of 20 per press of a free arrow key,
        applied only if the boxes stay apart afterwards. The right-arrow block
        runs second, so its position wins when both arrows fire. This effect
        does not test for a paused or finished match. */
    method TapMove(keys: Keys)
      requires Valid()
      modifies this`leftTapLatch, this`rightTapLatch, this`playerFacingLeft, this`playerPos
      ensures Valid()
      ensures leftTapLatch == (keys.left && (old(leftTapLatch) || !Rooted(playerState)))
      ensures rightTapLatch == (keys.right && (old(rightTapLatch) || !Rooted(playerState)))
      ensures playerFacingLeft ==
                if TapFires(keys.right, old(rightTapLatch), playerState) then false
                else if TapFires(keys.left, old(leftTapLatch), playerState) then true
                else old(playerFacingLeft)
      ensures playerPos == TapTarget(width, old(playerPos), cpuPos, playerState, keys,
                                     old(leftTapLatch), old(rightTapLatch))
      ensures playerPos != old(playerPos) ==> Separated()
      ensures old(Separated()) ==> Separated()
    {
      var s, pos := playerState, playerPos;
      TapArrow(false, keys.left, s, pos, leftTapLatch);
      TapArrow(true, keys.right, s, pos, rightTapLatch);
    }

    /** One 50 ms tick of the hold-to-walk interval: 10 to the right if the
        boxes stay apart, else 10 to the left, which needs no collision test. */
    method HoldTick(keys: Keys)
      requires Valid()
      modifies this`playerPos
      ensures Valid()
      ensures playerPos ==
                if !old(Live()) || Rooted(playerState) then old(playerPos)
                else if keys.right then
                  (var target := Advance(width, old(playerPos), 10);
                   if Apart(width, target, cpuPos) then target else old(playerPos))
                else if keys.left then Retreat(old(playerPos), 10)
                else old(playerPos)
      ensures old(playerPos) - 10 <= playerPos <= old(playerPos) + 10
      ensures playerPos > old(playerPos) ==> keys.right && Separated()
      ensures playerPos < old(playerPos) ==> keys.left && !keys.right
      ensures old(Separated()) ==> Separated()
    {
      if gameOver || paused {
        return;
      }
      if !((keys.right || keys.left) && playerState != Duck) {
        return;
      }
      var s := playerState;
      if keys.right && s != Jump && s != Defence && s != Duck {
        var target := Advance(width, playerPos, 10);
        if Apart(width, target, cpuPos) {
          playerPos := target;
        }
      } else if keys.left && s != Jump && s != Defence && s != Duck {
        playerPos := Retreat(playerPos, 10);
      }
    }

    /** Applies a hit of the player: CPU health, hit flash, the shared
        cooldown, and the end-of-match test on the health `captured` by the render. */
    method StrikeCpu(o: HitOutcome, captured: int)
      requires Valid()
      requires o.Landed? ==> !gameOver && cpuHealth == captured && o.damage >= 1
      modifies this`cpuHealth, this`cpuHit, this`hitCooldown, this`gameOver, this`winner
      ensures Valid()
      ensures o.Miss? ==> unchanged(this)
      ensures o.Landed? ==> cpuHealth == AfterHit(old(cpuHealth), o.damage)
      ensures o.Landed? ==> cpuHit == (old(cpuHit) || o.flash) && hitCooldown
      ensures o.Landed? ==> gameOver == Finishes(captured, o.damage)
      ensures o.Landed? ==> winner == if Finishes(captured, o.damage) then PlayerWins else Undecided
    {
      if o.Landed? {
        cpuHealth := AfterHit(cpuHealth, o.damage);
        if o.flash {
          cpuHit := true;
        }
        hitCooldown := true;
        if Finishes(captured, o.damage) {
          EndGame(PlayerWins);
        }
      }
    }

    /** The jump block of the action effect, on the state `s` and latch the
        render captured: a fresh ArrowUp press from idle starts a jump that
        moves 50 toward the arrow held; releasing ArrowUp clears the latch. */
    method JumpKey(keys: Keys, s: FighterState, latched: bool)
      requires InBounds(width, playerPos) && NearLimit <= width - FarMargin
      modifies this`jumpLatch, this`playerLastAction, this`playerFacingLeft, this`playerPos,
               this`playerJump, this`playerState
      ensures InBounds(width, playerPos)
      ensures jumpLatch == if JumpStarts(s, keys, latched) then true
                           else if !keys.up && latched then false
                           else old(jumpLatch)
      ensures Pose(playerState, playerLastAction) ==
                JumpPose(keys, s, latched, old(Pose(playerState, playerLastAction)))
      ensures JumpStarts(s, keys, latched) ==>
                && playerPos == JumpLanding(width, old(playerPos), keys)
                && playerJump == JumpDirectionOf(keys)
                && playerFacingLeft == (if keys.left then true else if keys.right then false else old(playerFacingLeft))
      ensures !JumpStarts(s, keys, latched) ==>
                && playerPos == old(playerPos) && playerJump == old(playerJump)
                && playerFacingLeft == old(playerFacingLeft)
    {
      if keys.up && s == Idle && !latched {
        jumpLatch := true;
        playerLastAction := Jump;
        var direction := NoDirection;
        if keys.left {
          direction := LeftJump;
          playerFacingLeft := true;
          playerPos := Retreat(playerPos, 50);
        } else if keys.right {
          direction := RightJump;
          playerFacingLeft := false;
          playerPos := Advance(width, playerPos, 50);
        }
        playerJump := direction;
        playerState := Jump;
      }
      if !keys.up && latched {
        jumpLatch := false;
      }
    }

    /** The duck block: ArrowDown from idle ducks, releasing it stands up. */
    method DuckKey(keys: Keys, s: FighterState)
      modifies this`playerState, this`playerLastAction
      ensures Pose(playerState, playerLastAction) == DuckPose(keys, s, old(Pose(playerState, playerLastAction)))
    {
      if keys.down && s == Idle {
        playerState := Duck;
        playerLastAction := Duck;
      } else if !keys.down && s == Duck {
        playerState := Idle;
        playerLastAction := Idle;
      }
    }

    /** The punch block: d from idle punches, and the punch resolves at once
        against the CPU state, distance and facing the render captured and
        the live hit-cooldown. */
    method PunchKey(keys: Keys, s: FighterState, cs: FighterState, gap: int, facing: bool, captured: int)
      requires Valid() && !gameOver && cpuHealth == captured
      modifies this`playerState, this`playerLastAction,
               this`cpuHealth, this`cpuHit, this`hitCooldown, this`gameOver, this`winner
      ensures Valid()
      ensures var o := if keys.punch && s == Idle then Resolve(PlayerSide, PunchAttack, gap, cs, old(hitCooldown), facing, d10)
                       else Miss;
                && cpuHealth == (if o.Landed? then AfterHit(captured, o.damage) else captured)
                && cpuHit == (old(cpuHit) || (o.Landed? && o.flash))
                && hitCooldown == (old(hitCooldown) || o.Landed?)
                && gameOver == (o.Landed? && Finishes(captured, o.damage))
                && winner == (if o.Landed? && Finishes(captured, o.damage) then PlayerWins else Undecided)
      ensures Pose(playerState, playerLastAction) == PunchPose(keys, s, old(Pose(playerState, playerLastAction)))
    {
      if keys.punch && s == Idle {
        playerState := Punch;
        playerLastAction := Punch;
        var o := Resolve(PlayerSide, PunchAttack, gap, cs, hitCooldown, facing, d10);
        StrikeCpu(o, captured);
      }
    }

    /** The kick block: a from idle kicks, a in the air jump-kicks (the state
        stays `Jump`); either resolves at once like the punch. */
    method KickKey(keys: Keys, s: FighterState, cs: FighterState, gap: int, facing: bool, captured: int)
      requires Valid()
      requires !hitCooldown ==> !gameOver && cpuHealth == captured
      modifies this`playerState, this`playerLastAction, this`playerJumpKicking,
               this`cpuHealth, this`cpuHit, this`hitCooldown, this`gameOver, this`winner
      ensures Valid()
      ensures var o := if keys.kick && (s == Idle || s == Jump)
                       then Resolve(PlayerSide, if s == Jump then JumpKickAttack else KickAttack,
                                    gap, cs, old(hitCooldown), facing, d10)
                       else Miss;
                && cpuHealth == (if o.Landed? then AfterHit(captured, o.damage) else old(cpuHealth))
                && cpuHit == (old(cpuHit) || (o.Landed? && o.flash))
                && hitCooldown == (old(hitCooldown) || o.Landed?)
                && gameOver == (old(gameOver) || (o.Landed? && Finishes(captured, o.damage)))
                && winner == (if o.Landed? && Finishes(captured, o.damage) then PlayerWins else old(winner))
      ensures Pose(playerState, playerLastAction) == KickPose(keys, s, old(Pose(playerState, playerLastAction)))
      ensures playerJumpKicking == (old(playerJumpKicking) || (keys.kick && s == Jump))
    {
      if keys.kick && (s == Idle || s == Jump) {
        var jumpKick := s == Jump;
        if jumpKick {
          playerLastAction := JumpKick;
          playerJumpKicking := true;
        } else {
          playerState := Kick;
          playerLastAction := Kick;
        }
        var o := Resolve(PlayerSide, if jumpKick then JumpKickAttack else KickAttack,
                         gap, cs, hitCooldown, facing, d10);
        StrikeCpu(o, captured);
      }
    }

    /** The defence block: s from idle defends. */
    method DefenceKey(keys: Keys, s: FighterState)
      modifies this`playerState, this`playerLastAction, this`playerDefending
      ensures Pose(playerState, playerLastAction) == DefencePose(keys, s, old(Pose(playerState, playerLastAction)))
      ensures playerDefending == (old(playerDefending) || (keys.defence && s == Idle))
    {
      if keys.defence && s == Idle {
        playerState := Defence;
        playerLastAction := Defence;
        playerDefending := true;
      }
    }

    /** The punch, kick and defence blocks: together they land the hit
        `PlayerStrike` describes, on the values the render captured. */
    method AttackKeys(keys: Keys, s: FighterState, cs: FighterState, gap: int, facing: bool, captured: int)
      requires Valid() && !gameOver && cpuHealth == captured
      modifies this`playerState, this`playerLastAction, this`playerJumpKicking, this`playerDefending,
               this`cpuHealth, this`cpuHit, this`hitCooldown, this`gameOver, this`winner
      ensures Valid()
      ensures Pose(playerState, playerLastAction) ==
                DefencePose(keys, s, KickPose(keys, s, PunchPose(keys, s, old(Pose(playerState, playerLastAction)))))
      ensures playerJumpKicking == (old(playerJumpKicking) || (keys.kick && s == Jump))
      ensures playerDefending == (old(playerDefending) || (keys.defence && s == Idle))
      ensures var o := PlayerStrike(s, cs, gap, facing, old(hitCooldown), keys, d10);
                && cpuHealth == (if o.Landed? then AfterHit(captured, o.damage) else captured)
                && cpuHit == (old(cpuHit) || (o.Landed? && o.flash))
                && hitCooldown == (old(hitCooldown) || o.Landed?)
                && gameOver == (o.Landed? && Finishes(captured, o.damage))
                && winner == (if o.Landed? && Finishes(captured, o.damage) then PlayerWins else Undecided)
    {
      PunchKey(keys, s, cs, gap, facing, captured);
      KickKey(keys, s, cs, gap, facing, captured);
      DefenceKey(keys, s);
    }

    /** The jump and duck blocks. */
    method StanceKeys(keys: Keys, s: FighterState, latched: bool)
      requires Valid()
      modifies this`jumpLatch, this`playerLastAction, this`playerFacingLeft, this`playerPos,
               this`playerJump, this`playerState
      ensures Valid()
      ensures Pose(playerState, playerLastAction) ==
                DuckPose(keys, s, JumpPose(keys, s, latched, old(Pose(playerState, playerLastAction))))
      ensures jumpLatch == if JumpStarts(s, keys, latched) then true
                           else if !keys.up && latched then false
                           else old(jumpLatch)
      ensures JumpStarts(s, keys, latched) ==>
                && playerPos == JumpLanding(width, old(playerPos), keys)
                && playerJump == JumpDirectionOf(keys)
                && playerFacingLeft == (if keys.left then true else if keys.right then false else old(playerFacingLeft))
      ensures !JumpStarts(s, keys, latched) ==>
                && playerPos == old(playerPos)
                && playerJump == old(playerJump)
                && playerFacingLeft == old(playerFacingLeft)
    {
      JumpKey(keys, s, latched);
      DuckKey(keys, s);
    }

    /** The action effect of a running match: the jump, duck, punch, kick
        and defence blocks in source order, each testing the values the
        render captured, the later block's write winning. */
    method ActionBlocks(keys: Keys)
      requires Valid() && Live()
      modifies this`playerState, this`playerLastAction, this`playerPos, this`playerFacingLeft,
               this`playerJump, this`jumpLatch, this`playerJumpKicking, this`playerDefending,
               this`cpuHealth, this`cpuHit, this`hitCooldown, this`gameOver, this`winner
      ensures Valid()
      ensures playerState == StateAfterKeys(old(playerState), keys, old(jumpLatch))
      ensures playerLastAction == LastActionAfterKeys(old(playerState), keys, old(jumpLatch), old(playerLastAction))
      ensures jumpLatch == (keys.up && (old(jumpLatch) || old(playerState) == Idle))
      ensures playerJumpKicking == (old(playerJumpKicking) || (keys.kick && old(playerState) == Jump))
      ensures playerDefending == (old(playerDefending) || (keys.defence && old(playerState) == Idle))
      ensures JumpStarts(old(playerState), keys, old(jumpLatch)) ==>
                && playerPos == JumpLanding(width, old(playerPos), keys)
                && playerJump == JumpDirectionOf(keys)
                && playerFacingLeft == (if keys.left then true else if keys.right then false else old(playerFacingLeft))
      ensures !JumpStarts(old(playerState), keys, old(jumpLatch)) ==>
                playerPos == old(playerPos) && playerJump == old(playerJump) &&
                playerFacingLeft == old(playerFacingLeft)
      ensures var o := old(PlayerStrikeNow(keys));
                && cpuHealth == (if o.Landed? then AfterHit(old(cpuHealth), o.damage) else old(cpuHealth))
                && cpuHit == (old(cpuHit) || (o.Landed? && o.flash))
                && hitCooldown == (old(hitCooldown) || o.Landed?)
                && gameOver == (o.Landed? && Finishes(old(cpuHealth), o.damage))
                && winner == (if o.Landed? && Finishes(old(cpuHealth), o.damage) then PlayerWins else Undecided)
    {
      // the values this render captured
      var s, cs, latched := playerState, cpuState, jumpLatch;
      var facing := PlayerFacesCpu(PlayerX(), CpuX(), playerFacingLeft);
      var gap, captured := Gap(), cpuHealth;
      BlocksFollowPriority(s, keys, latched, playerLastAction);
      StanceKeys(keys, s, latched);
      AttackKeys(keys, s, cs, gap, facing, captured);
    }

    /** The action effect: nothing while the match is over or paused. */
    method PlayerActions(keys: Keys)
      requires Valid()
      modifies this`playerState, this`playerLastAction, this`playerPos, this`playerFacingLeft,
               this`playerJump, this`jumpLatch, this`playerJumpKicking, this`playerDefending,
               this`cpuHealth, this`cpuHit, this`hitCooldown, this`gameOver, this`winner
      ensures Valid()
      ensures !old(Live()) ==> unchanged(this)
      ensures old(Live()) ==>
                && playerState == StateAfterKeys(old(playerState), keys, old(jumpLatch))
                && playerLastAction == LastActionAfterKeys(old(playerState), keys, old(jumpLatch), old(playerLastAction))
                && jumpLatch == (keys.up && (old(jumpLatch) || old(playerState) == Idle))
                && playerJumpKicking == (old(playerJumpKicking) || (keys.kick && old(playerState) == Jump))
                && playerDefending == (old(playerDefending) || (keys.defence && old(playerState) == Idle))
      ensures old(Live()) && JumpStarts(old(playerState), keys, old(jumpLatch)) ==>
                && playerPos == JumpLanding(width, old(playerPos), keys)
                && playerJump == JumpDirectionOf(keys)
                && playerFacingLeft == (if keys.left then true else if keys.right then false else old(playerFacingLeft))
      ensures !(old(Live()) && JumpStarts(old(playerState), keys, old(jumpLatch))) ==>
                playerPos == old(playerPos) && playerJump == old(playerJump) &&
                playerFacingLeft == old(playerFacingLeft)
      ensures var o := old(PlayerStrikeNow(keys));
                && cpuHealth == (if o.Landed? then AfterHit(old(cpuHealth), o.damage) else old(cpuHealth))
                && cpuHit == (old(cpuHit) || (o.Landed? && o.flash))
                && hitCooldown == (old(hitCooldown) || o.Landed?)
                && gameOver == (old(gameOver) || (o.Landed? && Finishes(old(cpuHealth), o.damage)))
                && winner == (if o.Landed? && Finishes(old(cpuHealth), o.damage) then PlayerWins else old(winner))
      ensures old(hitCooldown) ==> cpuHealth == old(cpuHealth) && !old(PlayerStrikeNow(keys)).Landed?
    {
      if gameOver || paused {
        return;
      }
      ActionBlocks(keys);
    }

    // ------------------------------------------------------------ CPU

    /** Applies a hit of the CPU, as `StrikeCpu` does for the player. */
    method StrikePlayer(o: HitOutcome, captured: int)
      requires Valid()
      requires o.Landed? ==> !gameOver && playerHealth == captured && o.damage >= 1
      modifies this`playerHealth, this`playerHit, this`hitCooldown, this`gameOver, this`winner
      ensures Valid()
      ensures o.Miss? ==> unchanged(this)
      ensures o.Landed? ==> playerHealth == AfterHit(old(playerHealth), o.damage)
      ensures o.Landed? ==> playerHit == (old(playerHit) || o.flash) && hitCooldown
      ensures o.Landed? ==> gameOver == Finishes(captured, o.damage)
      ensures o.Landed? ==> winner == if Finishes(captured, o.damage) then CpuWins else Undecided
    {
      if o.Landed? {
        playerHealth := AfterHit(playerHealth, o.damage);
        if o.flash {
          playerHit := true;
        }
        hitCooldown := true;
        if Finishes(captured, o.damage) {
          EndGame(CpuWins);
        }
      }
    }

    /** The attack branch of the movement tick: the attack cooldown starts,
        the CPU takes the pose of its choice and a punch or kick resolves at
        once on the centres and facing the tick captured. */
    method CpuAttack(choice: CpuAttack, gap: int, facing: bool)
      requires Valid() && !gameOver
      modifies this`cpuAttackCooldown, this`cpuState, this`cpuIdleTime,
               this`playerHealth, this`playerHit, this`hitCooldown, this`gameOver, this`winner
      ensures Valid()
      ensures cpuAttackCooldown && cpuState == PlanState(Strike(choice)) && cpuIdleTime == 0
      ensures var o := CpuStrike(choice, gap, playerState, old(hitCooldown), facing, d10);
                && playerHealth == (if o.Landed? then AfterHit(old(playerHealth), o.damage) else old(playerHealth))
                && playerHit == (old(playerHit) || (o.Landed? && o.flash))
                && hitCooldown == (old(hitCooldown) || o.Landed?)
                && gameOver == (o.Landed? && Finishes(old(playerHealth), o.damage))
                && winner == (if o.Landed? && Finishes(old(playerHealth), o.damage) then CpuWins else Undecided)
    {
      cpuAttackCooldown := true;
      var captured := playerHealth;
      match choice {
        case CpuPunch =>
          cpuState := Punch;
          var o := Resolve(CpuSide, PunchAttack, gap, playerState, hitCooldown, facing, d10);
          StrikePlayer(o, captured);
        case CpuKick =>
          cpuState := Kick;
          var o := Resolve(CpuSide, KickAttack, gap, playerState, hitCooldown, facing, d10);
          StrikePlayer(o, captured);
        case CpuDefend =>
          cpuState := Defence;
      }
      cpuIdleTime := 0;
    }

    /** The rest of the movement tick: count the idle tick, then a forced
        step, or a random step and a random duck or jump. */
    method CpuMove(t: TickDraws, cpuX: int, playerX: int)
      requires Valid() && cpuState == Idle
      modifies this`cpuIdleTime, this`cpuPos, this`cpuState
      ensures Valid()
      ensures var plan := MovePlan(old(cpuIdleTime), t);
                && cpuState == PlanState(plan)
                && cpuIdleTime == NextIdleTime(plan, old(cpuIdleTime))
                && cpuPos == (if Steps(plan) then CpuStep(width, Idle, playerPos, old(cpuPos), cpuX, playerX)
                              else old(cpuPos))
      ensures old(Separated()) ==> Separated()
    {
      var s, idle := cpuState, cpuIdleTime;
      IdleTimeBounded(false, true, idle, t);
      cpuIdleTime := idle + 1;
      if idle > IdleLimit {
        cpuPos := CpuStep(width, s, playerPos, cpuPos, cpuX, playerX);
        cpuIdleTime := 0;
        return;
      }
      if t.move < StepCut {
        cpuPos := CpuStep(width, s, playerPos, cpuPos, cpuX, playerX);
        cpuIdleTime := 0;
      }
      if t.dodge < DodgeChance && s == Idle {
        cpuState := if t.pick < DuckCut then Duck else Jump;
        cpuIdleTime := 0;
      }
    }

    /** One 200 ms tick of the CPU's movement interval: turn to the player,
        then attack if near and ready, else step when idle too long, else
        step and dodge at random. */
    method CpuTick(t: TickDraws)
      requires Valid() && ValidDraws(t)
      modifies this`cpuFacingLeft, this`cpuAttackCooldown, this`cpuState, this`cpuIdleTime, this`cpuPos,
               this`playerHealth, this`playerHit, this`hitCooldown, this`gameOver, this`winner
      ensures Valid()
      ensures !old(Live() && cpuState == Idle) ==> unchanged(this)
      ensures old(Live() && cpuState == Idle) ==>
                var plan := old(TickPlan(t));
                && cpuFacingLeft == old(CpuX() < PlayerX())
                && cpuState == PlanState(plan)
                && cpuIdleTime == NextIdleTime(plan, old(cpuIdleTime))
                && cpuAttackCooldown == (old(cpuAttackCooldown) || plan.Strike?)
                && cpuPos == (if Steps(plan) then old(CpuStepNow()) else old(cpuPos))
      ensures var o := old(CpuStrikeNow(t));
                && playerHealth == (if o.Landed? then AfterHit(old(playerHealth), o.damage) else old(playerHealth))
                && playerHit == (old(playerHit) || (o.Landed? && o.flash))
                && hitCooldown == (old(hitCooldown) || o.Landed?)
                && gameOver == (old(gameOver) || (o.Landed? && Finishes(old(playerHealth), o.damage)))
                && winner == (if o.Landed? && Finishes(old(playerHealth), o.damage) then CpuWins else old(winner))
      ensures old(hitCooldown) ==> playerHealth == old(playerHealth) && !old(CpuStrikeNow(t)).Landed?
      ensures old(Separated()) ==> Separated()
    {
      if gameOver || paused {
        return;
      }
      if cpuState != Idle {
        return;
      }
      var cpuX, playerX := CpuX(), PlayerX();
      var wasFacingLeft := cpuFacingLeft;
      cpuFacingLeft := cpuX < playerX;
      var gap := Abs(cpuX - playerX);

      if gap < AttackRange && !cpuAttackCooldown && cpuState == Idle {
        if t.attack < AttackCut {
          CpuAttack(AttackChoice(t.attack), gap, CpuFacesPlayer(cpuX, playerX, wasFacingLeft));
          return;
        }
      }
      CpuMove(t, cpuX, playerX);
    }

    /** One tick of the CPU's reactive interval: after the difficulty's
        reaction time has passed since its last reaction, turn to the player
        and answer the player's last action in the fixed priority order. */
    method CpuReact(now: int, draw: int)
      requires Valid() && IsDraw(draw)
      modifies this`cpuFacingLeft, this`cpuState, this`cpuIdleTime, this`lastCpuActionAt
      ensures Valid()
      ensures !old(Live()) || now - old(lastCpuActionAt) < ReactionTime(d10) ==> unchanged(this)
      ensures old(Live()) && now - old(lastCpuActionAt) >= ReactionTime(d10) ==>
                var r := ReactiveChoice(playerLastAction, old(cpuState), draw);
                && cpuFacingLeft == old(CpuX() < PlayerX())
                && lastCpuActionAt == now
                && cpuState == ReactionState(r, old(cpuState))
                && cpuIdleTime == (if r == NoReaction then old(cpuIdleTime) else 0)
      ensures cpuState != old(cpuState) ==>
                old(cpuState) == Idle && (cpuState == Duck || cpuState == Jump)
    {
      if gameOver || paused {
        return;
      }
      if now - lastCpuActionAt < ReactionTime(d10) {
        return;
      }
      var cpuX, playerX := CpuX(), PlayerX();
      cpuFacingLeft := cpuX < playerX;
      var s, last := cpuState, playerLastAction;
      if last == Kick && s == Idle && draw < DodgeCut {
        cpuState := Duck;
        lastCpuActionAt := now;
        cpuIdleTime := 0;
        return;
      }
      if last == Punch && s == Idle && draw < DodgeCut {
        cpuState := Jump;
        lastCpuActionAt := now;
        cpuIdleTime := 0;
        return;
      }
      if (last == Punch || last == Kick) && s == Idle && draw < GuardCut {
        // the defence branch: every draw below 0.4 was taken by a branch above
        assert false;
      }
      lastCpuActionAt := now;
    }

    // ------------------------------------------------------------ timers

    /** 500 ms after a landed hit: the shared hit-cooldown clears. */
    method ExpireHitCooldown()
      requires Valid()
      modifies this`hitCooldown
      ensures Valid() && !hitCooldown
    {
      hitCooldown := false;
    }

    /** 300 ms after a CPU hit that was not blocked: the player's flash ends. */
    method ExpirePlayerFlash()
      requires Valid()
      modifies this`playerHit
      ensures Valid() && !playerHit
    {
      playerHit := false;
    }

    /** 300 ms after a player hit that was not blocked: the CPU's flash ends. */
    method ExpireCpuFlash()
      requires Valid()
      modifies this`cpuHit
      ensures Valid() && !cpuHit
    {
      cpuHit := false;
    }

    /** 300 ms after a punch, 400 ms after a ground kick: back to idle. */
    method ExpirePlayerStrike()
      requires Valid()
      modifies this`playerState, this`playerLastAction
      ensures Valid() && playerState == Idle && playerLastAction == Idle
    {
      playerState := Idle;
      playerLastAction := Idle;
    }

    /** 500 ms after the defence key: back to idle, no longer defending. */
    method ExpirePlayerDefence()
      requires Valid()
      modifies this`playerState, this`playerLastAction, this`playerDefending
      ensures Valid() && playerState == Idle && playerLastAction == Idle && !playerDefending
    {
      playerState := Idle;
      playerLastAction := Idle;
      playerDefending := false;
    }

    /** 500 ms after a jump starts: landed, idle, no direction, no jump kick. */
    method ExpirePlayerJump()
      requires Valid()
      modifies this`playerState, this`playerJump, this`playerLastAction, this`playerJumpKicking
      ensures Valid() && playerState == Idle && playerJump == NoDirection
      ensures playerLastAction == Idle && !playerJumpKicking
    {
      playerState := Idle;
      playerJump := NoDirection;
      playerLastAction := Idle;
      playerJumpKicking := false;
    }

    /** The end of a CPU action (punch 300 ms, kick and duck 400 ms, defence
        and jump 500 ms): back to idle. */
    method ExpireCpuAction()
      requires Valid()
      modifies this`cpuState
      ensures Valid() && cpuState == Idle
    {
      cpuState := Idle;
    }

    /** The pause after a CPU attack ends: the attack branch may fire again. */
    method ExpireCpuAttackCooldown()
      requires Valid()
      modifies this`cpuAttackCooldown
      ensures Valid() && !cpuAttackCooldown
    {
      cpuAttackCooldown := false;
    }

    /** The PAUSE / UNPAUSE button. */
    method TogglePause()
      requires Valid()
      modifies this`paused
      ensures Valid() && paused == !old(paused)
    {
      paused := !paused;
    }

    /** The PLAY button of the pause overlay. */
    method Resume()
      requires Valid()
      modifies this`paused
      ensures Valid() && !paused
    {
      paused := false;
    }
  }
}
