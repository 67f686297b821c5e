/** The fighter-select screen: a cursor over the six-fighter roster, laid out
    as a grid of two rows of three, moved by the arrow keys; Enter starts a
    fight with the fighter under the cursor. */
module Select {

  /** The roster's fighter ids, in roster order. */
  const Roster: seq<string> :=
    ["Carlos-Freire", "Eric-Quesada", "David-Cabeza", "Jorge-Freitas", "Melissa", "Carlos-gil"]

  /** Fighters per grid row. */
  const RowLength := 3

  predicate OnGrid(i: int) { 0 <= i < |Roster| }

  /** JavaScript's `%`, which truncates toward zero: the remainder takes the
      sign of the dividend. */
  function JsRem(a: int, n: int): (r: int)
    requires n > 0
    ensures a >= 0 ==> 0 <= r < n && r == a % n
    ensures a < 0 ==> -n < r <= 0
  {
    if a >= 0 then a % n else -((-a) % n)
  }

  /** ArrowRight: the next fighter, wrapping from the last to the first. */
  function Right(i: int): (r: int)
    ensures OnGrid(i) ==> OnGrid(r)
    ensures 0 <= i < |Roster| - 1 ==> r == i + 1
    ensures i == |Roster| - 1 ==> r == 0
  {
    JsRem(i + 1, |Roster|)
  }

  /** ArrowLeft: the previous fighter, wrapping from the first to the last. */
  function Left(i: int): (r: int)
    ensures OnGrid(i) ==> OnGrid(r)
    ensures 0 < i < |Roster| ==> r == i - 1
    ensures i == 0 ==> r == |Roster| - 1
  {
    JsRem(i - 1 + |Roster|, |Roster|)
  }

  /** ArrowLeft undoes ArrowRight and ArrowRight undoes ArrowLeft. */
  lemma LeftUndoesRight(i: int)
    requires OnGrid(i)
    ensures Left(Right(i)) == i
    ensures Right(Left(i)) == i
  {
  }

  /** ArrowUp: the other row, same column. */
  function Up(i: int): (r: int)
    ensures 0 <= i < 2 * RowLength ==> 0 <= r < 2 * RowLength
    ensures 0 <= i ==> r % RowLength == i % RowLength
    ensures 0 <= i < 2 * RowLength ==> (r < RowLength <==> i >= RowLength)
  {
    if i < 3 then i + 3 else i - 3
  }

  /** ArrowDown, written with the opposite test. */
  function Down(i: int): (r: int)
    ensures 0 <= i < 2 * RowLength ==> 0 <= r < 2 * RowLength
  {
    if i >= 3 then i - 3 else i + 3
  }

  /** ArrowDown computes the same map as ArrowUp, on every index. */
  lemma DownIsUp(i: int)
    ensures Down(i) == Up(i)
  {
  }

  /** The row swap is an involution on the grid, and the grid is the roster. */
  lemma UpInvolution(i: int)
    requires OnGrid(i)
    ensures |Roster| == 2 * RowLength
    ensures OnGrid(Up(i))
    ensures Up(Up(i)) == i
    ensures Down(Down(i)) == i
  {
  }

  /** The cursor after `k` presses of ArrowRight. */
  function Presses(i: int, k: nat): (r: int)
    ensures OnGrid(i) ==> OnGrid(r)
  {
    if k == 0 then i else Right(Presses(i, k - 1))
  }

  /** `k` presses of ArrowRight advance the cursor by `k`, modulo the roster. */
  lemma {:induction false} PressesAdvance(i: int, k: nat)
    requires OnGrid(i)
    ensures Presses(i, k) == (i + k) % |Roster|
  {
    if k > 0 {
      PressesAdvance(i, k - 1);
      NextRemainder(i + k - 1);
    }
  }

  /** One more step wraps the remainder by the roster size from 5 to 0. */
  lemma NextRemainder(a: nat)
    ensures (a + 1) % |Roster| == if a % |Roster| < |Roster| - 1 then a % |Roster| + 1 else 0
  {
    var q, r := a / 6, a % 6;
    assert a == 6 * q + r;
    if r < 5 {
      assert a + 1 == 6 * q + (r + 1);
    } else {
      assert a + 1 == 6 * (q + 1);
    }
  }

  /** A full round of ArrowRight presses leads back to where it started, so
      the cursor cycles with period the roster size. */
  lemma FullRound(i: int, k: nat)
    requires OnGrid(i)
    ensures Presses(i, k + |Roster|) == Presses(i, k)
  {
    PressesAdvance(i, k + |Roster|);
    PressesAdvance(i, k);
    RemainderPeriod(i + k);
  }

  /** Adding the roster size leaves the remainder unchanged. */
  lemma RemainderPeriod(a: nat)
    ensures (a + |Roster|) % |Roster| == a % |Roster|
  {
    var q, r := a / 6, a % 6;
    assert a + 6 == 6 * (q + 1) + r;
  }

  /** The fight the Enter key starts: the fighter's id, round 1, difficulty
      1.0 (in tenths) and no previous opponents. */
  datatype FightRoute = FightRoute(player: string, round: int, difficultyTenths: int,
                                   previousOpponents: string)

  datatype Key = ArrowRight | ArrowLeft | ArrowUp | ArrowDown | EnterKey | OtherKey

  datatype Option<T> = None | Some(value: T)

  /** What one key press does: the new cursor, and the route to push, if any. */
  datatype Outcome = Outcome(index: int, route: Option<FightRoute>)

  /** The key handler of the select screen. */
  function HandleKey(i: int, key: Key): (o: Outcome)
    requires OnGrid(i)
    ensures OnGrid(o.index)
    ensures o.route.Some? <==> key == EnterKey
    ensures key == EnterKey || key == OtherKey ==> o.index == i
    ensures key == ArrowRight ==> o.index == Right(i)
    ensures key == ArrowLeft ==> o.index == Left(i)
    ensures key == ArrowUp ==> o.index == Up(i)
    ensures key == ArrowDown ==> o.index == Down(i)
    ensures o.route.Some? ==>
              o.route.value.player == Roster[i] && o.route.value.round == 1 &&
              o.route.value.difficultyTenths == 10 && o.route.value.previousOpponents == ""
  {
    match key
    case ArrowRight => Outcome(Right(i), None)
    case ArrowLeft => Outcome(Left(i), None)
    case ArrowUp => Outcome(Up(i), None)
    case ArrowDown => Outcome(Down(i), None)
    case EnterKey => Outcome(i, Some(FightRoute(Roster[i], 1, 10, "")))
    case OtherKey => Outcome(i, None)
  }

  /** The fight screen's lookup of the player: the first roster entry with
      that id, or the first fighter when there is none. */
  function FindFighter(id: string): (i: int)
    ensures OnGrid(i)
    ensures id in Roster ==> Roster[i] == id && forall j :: 0 <= j < i ==> Roster[j] != id
    ensures id !in Roster ==> i == 0
  {
    FindFrom(id, 0)
  }

  function FindFrom(id: string, k: nat): (i: int)
    requires k <= |Roster|
    ensures OnGrid(i)
    ensures id in Roster[k..] ==> Roster[i] == id && k <= i
    ensures id in Roster[k..] ==> forall j :: k <= j < i ==> Roster[j] != id
    ensures id !in Roster[k..] ==> i == 0
    decreases |Roster| - k
  {
    if k == |Roster| then 0
    else if Roster[k] == id then k
    else FindFrom(id, k + 1)
  }

  /** The fight screen finds exactly the fighter chosen on the select screen. */
  lemma ChosenFighterFound(i: int)
    requires OnGrid(i)
    ensures HandleKey(i, EnterKey).route.Some?
    ensures FindFighter(HandleKey(i, EnterKey).route.value.player) == i
  {
    var id := Roster[i];
    assert id in Roster;
    var j := FindFighter(id);
    assert Roster[j] == Roster[i];
  }
}
