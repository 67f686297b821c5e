/** Geometry, hit resolution and damage of the fight screen, as pure functions.
    Positions are offsets from each fighter's own home edge: the player's from the
    left edge of the window, the CPU's from the right edge. */
module Combat {

  /** What a fighter is doing; exactly one state at a time. */
  datatype FighterState = Idle | Jump | Duck | Punch | Kick | Defence | JumpKick

  datatype Side = PlayerSide | CpuSide

  /** The three attacks that can damage. */
  datatype Attack = PunchAttack | KickAttack | JumpKickAttack

  /** What one attack attempt does to its target. */
  datatype HitOutcome = Miss | Landed(damage: int, flash: bool)

  const CentreOffset := 70
  const PlayerBoxWidth := 100
  const CpuBoxWidth := 90
  const NearLimit := 50
  const FarMargin := 150
  const PunchReach := 140
  const KickReach := 170
  const ChipDamage := 1
  const MaxHealth := 100

  function Max(a: int, b: int): int { if a >= b then a else b }
  function Min(a: int, b: int): int { if a <= b then a else b }
  function Abs(x: int): int { if x < 0 then -x else x }

  // ---------------------------------------------------------------- geometry

  /** The player's centre, which lies inside its collision box
      [playerPos, playerPos + 100]. */
  function PlayerCenterX(playerPos: int): (x: int)
    ensures playerPos < x < playerPos + PlayerBoxWidth
  {
    playerPos + CentreOffset
  }

  /** The CPU's centre, which lies inside its collision box
      [width - cpuPos - 90, width - cpuPos]. */
  function CpuCenterX(width: int, cpuPos: int): (x: int)
    ensures width - cpuPos - CpuBoxWidth < x < width - cpuPos
  {
    width - cpuPos - CentreOffset
  }

  /** Distance between the two centres, the quantity every reach test uses. */
  function CentreGap(width: int, playerPos: int, cpuPos: int): int
  {
    Abs(CpuCenterX(width, cpuPos) - PlayerCenterX(playerPos))
  }

  /** Two fighters standing at the same offset from their own edges have
      centres mirrored about the middle of the window. */
  lemma MirroredCentres(width: int, offset: int)
    ensures PlayerCenterX(offset) + CpuCenterX(width, offset) == width
    ensures CentreGap(width, offset, offset) == Abs(width - 2 * offset - 2 * CentreOffset)
  {
  }

  /** The legal range of a position offset. */
  predicate InBounds(width: int, pos: int) { NearLimit <= pos <= width - FarMargin }

  /** `Math.max(pos - step, 50)`: a step back toward the fighter's own edge. */
  function Retreat(pos: int, step: nat): (r: int)
    ensures NearLimit <= r
    ensures pos >= NearLimit ==> r <= pos
    ensures r == pos - step || (r == NearLimit && pos - step < NearLimit)
  {
    Max(pos - step, NearLimit)
  }

  /** `Math.min(pos + step, width - 150)`: a step away from the fighter's own edge. */
  function Advance(width: int, pos: int, step: nat): (r: int)
    ensures r <= width - FarMargin
    ensures pos <= width - FarMargin ==> pos <= r
    ensures r == pos + step || (r == width - FarMargin && pos + step > width - FarMargin)
  {
    Min(pos + step, width - FarMargin)
  }

  /** `Math.max(50, Math.min(width - 150, x))`. */
  function Clamp(width: int, x: int): (r: int)
    ensures NearLimit <= r
    ensures NearLimit <= width - FarMargin ==> InBounds(width, r)
    ensures InBounds(width, x) ==> r == x
    ensures NearLimit <= width - FarMargin && x > width - FarMargin ==> r == width - FarMargin
    ensures x < NearLimit ==> r == NearLimit
  {
    Max(NearLimit, Min(width - FarMargin, x))
  }

  /** The grounded-move guard: the player's right box edge stays strictly left
      of the CPU's left box edge; equivalently, the player stands on the left
      with the centres more than 50 apart. */
  function Apart(width: int, playerPos: int, cpuPos: int): (apart: bool)
    ensures apart <==> CpuCenterX(width, cpuPos) - PlayerCenterX(playerPos) > 50
    ensures apart ==> CentreGap(width, playerPos, cpuPos) > 50
  {
    playerPos + PlayerBoxWidth < width - cpuPos - CpuBoxWidth
  }

  /** A move is applied when the mover is airborne or the boxes stay apart;
      a grounded move is refused exactly when the two grounded fighters would
      collide. */
  function MoveGranted(airborne: bool, width: int, playerPos: int, cpuPos: int): (granted: bool)
    ensures airborne ==> granted
    ensures !airborne ==> (granted <==> CpuCenterX(width, cpuPos) - PlayerCenterX(playerPos) > 50)
  {
    airborne || Apart(width, playerPos, cpuPos)
  }

  /** The collision test of the fight screen: never while either fighter is
      in the air, otherwise exactly when the boxes touch or overlap. */
  function CheckCollision(width: int, playerState: FighterState, cpuState: FighterState,
                          playerPos: int, cpuPos: int): (colliding: bool)
    ensures colliding ==> playerState != Jump && cpuState != Jump
    ensures playerState != Jump && cpuState != Jump ==>
              (colliding <==> !MoveGranted(false, width, playerPos, cpuPos))
  {
    if playerState == Jump || cpuState == Jump then false
    else
      var playerRight := playerPos + PlayerBoxWidth;
      var cpuLeft := width - cpuPos - CpuBoxWidth;
      playerRight >= cpuLeft
  }

  /** One CPU step of 15 toward the player, clamped, and applied only when the
      move is granted; `cpuX` and `playerX` are the centres the tick computed. */
  function CpuStep(width: int, cpuState: FighterState, playerPos: int, cpuPos: int,
                   cpuX: int, playerX: int): (r: int)
    requires NearLimit <= width - FarMargin
    requires InBounds(width, cpuPos)
    ensures InBounds(width, r)
    ensures cpuX > playerX ==> cpuPos <= r <= cpuPos + 15
    ensures cpuX <= playerX ==> cpuPos - 15 <= r <= cpuPos
    ensures r != cpuPos ==> MoveGranted(cpuState == Jump, width, playerPos, r)
    ensures cpuX > playerX && MoveGranted(cpuState == Jump, width, playerPos, Clamp(width, cpuPos + 15)) ==>
              r == Clamp(width, cpuPos + 15)
    ensures cpuX <= playerX && MoveGranted(cpuState == Jump, width, playerPos, Clamp(width, cpuPos - 15)) ==>
              r == Clamp(width, cpuPos - 15)
    ensures !MoveGranted(cpuState == Jump, width, playerPos, Clamp(width, cpuPos + (if cpuX > playerX then 15 else -15))) ==>
              r == cpuPos
  {
    var direction := if cpuX > playerX then 1 else -1;
    var target := Clamp(width, cpuPos + direction * 15);
    if MoveGranted(cpuState == Jump, width, playerPos, target) then target else cpuPos
  }

  // ---------------------------------------------------------------- facing

  /** The player's hit test: it must look toward the CPU's centre. */
  predicate PlayerFacesCpu(playerX: int, cpuX: int, playerFacingLeft: bool)
  {
    (playerX < cpuX && !playerFacingLeft) || (playerX > cpuX && playerFacingLeft)
  }

  /** The CPU's hit test. The CPU's sprite is mirrored, so its flag is true
      when it looks toward a player on its right. */
  predicate CpuFacesPlayer(cpuX: int, playerX: int, cpuFacingLeft: bool)
  {
    (cpuX < playerX && cpuFacingLeft) || (cpuX > playerX && !cpuFacingLeft)
  }

  /** The flag the CPU stores on each tick, `cpuX < playerX`, always makes it
      face the player unless the centres coincide; the opposite flag never does. */
  lemma CpuTurnsToPlayer(cpuX: int, playerX: int)
    ensures CpuFacesPlayer(cpuX, playerX, cpuX < playerX) <==> cpuX != playerX
    ensures !CpuFacesPlayer(cpuX, playerX, !(cpuX < playerX))
  {
  }

  // ---------------------------------------------------------------- hits

  function Reach(kind: Attack): int
  {
    if kind == PunchAttack then PunchReach else KickReach
  }

  /** Evasive states: a jump dodges every attack, a duck dodges a regular kick. */
  predicate Evades(kind: Attack, defender: FighterState)
  {
    defender == Jump || (kind == KickAttack && defender == Duck)
  }

  /** The four conditions for a hit to land. Whatever the attack, a landed
      hit needs a clear cooldown, the attacker facing its target, a target on
      the ground and a gap below the kick's reach. */
  function Lands(kind: Attack, gap: int, defender: FighterState, cooldown: bool, facing: bool): (landed: bool)
    ensures landed ==> !cooldown && facing && defender != Jump && gap < KickReach
    ensures kind != KickAttack && defender != Jump && !cooldown && facing ==> (landed <==> gap < Reach(kind))
  {
    gap < Reach(kind) && !Evades(kind, defender) && !cooldown && facing
  }

  /** The landing conditions, attack by attack. */
  lemma LandingTable(kind: Attack, gap: int, defender: FighterState, cooldown: bool, facing: bool)
    ensures Lands(kind, gap, defender, cooldown, facing) ==>
              !cooldown && facing && defender != Jump && gap < KickReach
    ensures kind == PunchAttack ==>
              (Lands(kind, gap, defender, cooldown, facing) <==>
                 gap < 140 && defender != Jump && !cooldown && facing)
    ensures kind == KickAttack ==>
              (Lands(kind, gap, defender, cooldown, facing) <==>
                 gap < 170 && defender != Jump && defender != Duck && !cooldown && facing)
    ensures kind == JumpKickAttack ==>
              (Lands(kind, gap, defender, cooldown, facing) <==>
                 gap < 170 && defender != Jump && !cooldown && facing)
  {
  }

  function BaseDamage(kind: Attack): int
  {
    match kind
    case PunchAttack => 5
    case KickAttack => 10
    case JumpKickAttack => 15
  }

  /** `Math.round(tenths / 10)`: the nearest integer, halves rounded up. */
  function RoundTenths(tenths: int): (r: int)
    ensures 10 * r - 5 <= tenths < 10 * r + 5
  {
    (tenths + 5) / 10
  }

  /** Damage of a landed hit. `d10` is the difficulty multiplier in tenths. */
  function Damage(attacker: Side, kind: Attack, defender: FighterState, d10: int): (dmg: int)
    ensures defender == Defence ==> dmg == ChipDamage
    ensures defender != Defence && attacker == PlayerSide ==> dmg == BaseDamage(kind)
    ensures defender != Defence && attacker == CpuSide ==>
              10 * dmg - 5 <= BaseDamage(kind) * d10 < 10 * dmg + 5
    ensures defender != Defence && attacker == CpuSide && d10 >= 10 ==> dmg >= BaseDamage(kind)
    ensures d10 >= 10 ==> dmg >= ChipDamage
  {
    if defender == Defence then ChipDamage
    else if attacker == PlayerSide then BaseDamage(kind)
    else RoundTenths(BaseDamage(kind) * d10)
  }

  /** One attack attempt: it lands exactly when `Lands` holds, and then does
      `Damage`; the hit flash is shown unless the target was defending. */
  function Resolve(attacker: Side, kind: Attack, gap: int, defender: FighterState,
                   cooldown: bool, facing: bool, d10: int): (o: HitOutcome)
    ensures o.Landed? <==> Lands(kind, gap, defender, cooldown, facing)
    ensures o.Landed? ==> o.damage == Damage(attacker, kind, defender, d10)
    ensures o.Landed? ==> (o.flash <==> defender != Defence)
  {
    if Lands(kind, gap, defender, cooldown, facing) then
      Landed(Damage(attacker, kind, defender, d10), defender != Defence)
    else Miss
  }

  /** The end-of-match test as the fight screen writes it: on the health the
      render captured, before the update is applied. */
  function Finishes(health: int, damage: int): (over: bool)
    ensures over <==> damage >= health
  {
    health - damage <= 0
  }

  /** `Math.max(0, prev - damage)`: health after a landed hit. It reaches 0
      exactly when the as-written end-of-match test fires on the same health. */
  function AfterHit(health: int, damage: int): (h: int)
    ensures h >= 0
    ensures h == 0 <==> Finishes(health, damage)
    ensures health >= 0 && damage >= 0 ==> h <= health
    ensures h > 0 ==> h == health - damage
  {
    Max(0, health - damage)
  }

  /** The reactive tick's gate in milliseconds, `max(500 - (d - 1) * 100, 200)`. */
  function ReactionTime(d10: int): (ms: int)
    ensures ms >= 200
    ensures d10 >= 10 ==> ms <= 500
    ensures d10 == 10 ==> ms == 500
    ensures d10 <= 40 ==> ms == 500 - 10 * (d10 - 10)
    ensures d10 >= 40 ==> ms == 200
  {
    Max(500 - (d10 - 10) * 10, 200)
  }

  /** A higher difficulty never slows the CPU's reactions down, and below
      the 200 ms floor, reached at difficulty 4.0, it speeds them up. */
  lemma ReactionTimeShrinks(d10: int, e10: int)
    requires d10 <= e10
    ensures ReactionTime(e10) <= ReactionTime(d10)
    ensures d10 < e10 && d10 < 40 ==> ReactionTime(e10) < ReactionTime(d10)
  {
  }
}
