/** The difficulty adapter: per mode, a level 1..5 with a run of correct and a
    run of incorrect answers. Three correct answers in a row climb a level,
    two incorrect ones in a row drop a level. */
module Difficulty {
  import opened Categories

  datatype ModeState = ModeState(currentLevel: int, correctStreak: int, incorrectStreak: int)

  /** The state an unseen mode starts from. */
  const Initial: ModeState := ModeState(1, 0, 0)

  type Modes = map<Mode, ModeState>

  /** The states the adapter can reach: the level within 1..5, at most one
      run under way, and a run that has hit its threshold only where the
      level cannot move further. */
  predicate Valid(s: ModeState) {
    && 1 <= s.currentLevel <= 5
    && s.correctStreak >= 0 && s.incorrectStreak >= 0
    && (s.correctStreak == 0 || s.incorrectStreak == 0)
    && (s.currentLevel < 5 ==> s.correctStreak < 3)
    && (s.currentLevel > 1 ==> s.incorrectStreak < 2)
  }

  predicate AllValid(modes: Modes) {
    forall m :: m in modes ==> Valid(modes[m])
  }

  /** The level to generate at: the stored level, or 1 for a mode never
      answered (a stored 0 also reads as 1). */
  function GetDifficulty(modes: Modes, mode: Mode): (level: int)
    ensures mode !in modes ==> level == 1
    ensures mode in modes && Valid(modes[mode]) ==> level == modes[mode].currentLevel
    ensures AllValid(modes) ==> 1 <= level <= 5
  {
    if mode in modes && modes[mode].currentLevel != 0 then modes[mode].currentLevel else 1
  }

  function Current(modes: Modes, mode: Mode): ModeState {
    if mode in modes then modes[mode] else Initial
  }

  /** One answer. */
  function Step(s: ModeState, isCorrect: bool): (r: ModeState)
    ensures Valid(s) ==> Valid(r)
    ensures -1 <= r.currentLevel - s.currentLevel <= 1
    ensures r.correctStreak == 0 || r.incorrectStreak == 0
    ensures isCorrect ==> r.incorrectStreak == 0 && r.currentLevel >= s.currentLevel
    ensures !isCorrect ==> r.correctStreak == 0 && r.currentLevel <= s.currentLevel
    ensures r.currentLevel != s.currentLevel ==> r.correctStreak == 0 && r.incorrectStreak == 0
    ensures isCorrect ==>
              (r.currentLevel == s.currentLevel + 1 <==> s.correctStreak + 1 >= 3 && s.currentLevel < 5)
    ensures isCorrect && r.currentLevel == s.currentLevel ==> r.correctStreak == s.correctStreak + 1
    ensures !isCorrect ==>
              (r.currentLevel == s.currentLevel - 1 <==> s.incorrectStreak + 1 >= 2 && s.currentLevel > 1)
    ensures !isCorrect && r.currentLevel == s.currentLevel ==> r.incorrectStreak == s.incorrectStreak + 1
  {
    if isCorrect then
      var streak := s.correctStreak + 1;
      if streak >= 3 && s.currentLevel < 5 then ModeState(s.currentLevel + 1, 0, 0)
      else ModeState(s.currentLevel, streak, 0)
    else
      var streak := s.incorrectStreak + 1;
      if streak >= 2 && s.currentLevel > 1 then ModeState(s.currentLevel - 1, 0, 0)
      else ModeState(s.currentLevel, 0, streak)
  }

  /** `updateDifficulty(mode, isCorrect)`: the entry of `mode` takes one step
      and is the only one replaced; an unseen mode starts from Initial. */
  function UpdateDifficulty(modes: Modes, mode: Mode, isCorrect: bool): (r: Modes)
    ensures r.Keys == modes.Keys + {mode}
    ensures forall m :: m in modes && m != mode ==> r[m] == modes[m]
    ensures r[mode] == Step(Current(modes, mode), isCorrect)
    ensures mode !in modes ==> r[mode] == Step(Initial, isCorrect)
    ensures AllValid(modes) ==> AllValid(r)
  {
    modes[mode := Step(Current(modes, mode), isCorrect)]
  }

  /** A run of answers, oldest first. */
  function Replay(s: ModeState, answers: seq<bool>): ModeState
    decreases |answers|
  {
    if |answers| == 0 then s else Replay(Step(s, answers[0]), answers[1..])
  }

  /** `updateDifficulty(mode, ·)` called once per answer, oldest first. */
  function UpdateRun(modes: Modes, mode: Mode, answers: seq<bool>): Modes
    decreases |answers|
  {
    if |answers| == 0 then modes
    else UpdateRun(UpdateDifficulty(modes, mode, answers[0]), mode, answers[1..])
  }

  /** The store's entry for a mode after a run of answers is the replay of
      that run from the entry it had (Initial when unseen); other modes keep
      theirs. So every Replay property holds of the store itself. */
  lemma {:induction false} UpdateRunReplays(modes: Modes, mode: Mode, answers: seq<bool>)
    ensures Current(UpdateRun(modes, mode, answers), mode) == Replay(Current(modes, mode), answers)
    ensures modes.Keys <= UpdateRun(modes, mode, answers).Keys
    ensures forall m :: m in modes && m != mode ==> UpdateRun(modes, mode, answers)[m] == modes[m]
    decreases |answers|
  {
    if |answers| > 0 {
      UpdateRunReplays(UpdateDifficulty(modes, mode, answers[0]), mode, answers[1..]);
    }
  }

  lemma {:induction false} ReplayKeepsValid(s: ModeState, answers: seq<bool>)
    requires Valid(s)
    ensures Valid(Replay(s, answers))
    decreases |answers|
  {
    if |answers| > 0 {
      ReplayKeepsValid(Step(s, answers[0]), answers[1..]);
    }
  }

  /** The level moves by at most one per answer. */
  lemma {:induction false} ReplayLevelDrift(s: ModeState, answers: seq<bool>)
    ensures -|answers| <= Replay(s, answers).currentLevel - s.currentLevel <= |answers|
    decreases |answers|
  {
    if |answers| > 0 {
      ReplayLevelDrift(Step(s, answers[0]), answers[1..]);
    }
  }

  /** Below the top level, three correct answers in a row climb exactly one
      level, and the correct run ends where it started. */
  lemma ThreeCorrectClimb(s: ModeState)
    requires Valid(s) && s.currentLevel < 5
    ensures Replay(s, [true, true, true]) == ModeState(s.currentLevel + 1, s.correctStreak, 0)
  {
    var s1 := Step(s, true);
    var s2 := Step(s1, true);
    var s3 := Step(s2, true);
    assert [true, true, true][1..] == [true, true];
    assert [true, true][1..] == [true];
    assert Replay(s, [true, true, true]) == s3;
  }

  /** Above the bottom level, two incorrect answers in a row drop exactly one
      level, and the incorrect run ends where it started. */
  lemma TwoIncorrectDrop(s: ModeState)
    requires Valid(s) && s.currentLevel > 1
    ensures Replay(s, [false, false]) == ModeState(s.currentLevel - 1, 0, s.incorrectStreak)
  {
    var s1 := Step(s, false);
    var s2 := Step(s1, false);
    assert [false, false][1..] == [false];
    assert Replay(s, [false, false]) == s2;
  }

  /** At level 5 the correct run is never reset by correct answers: it just
      keeps counting. */
  lemma {:induction false} TopLevelRunGrows(s: ModeState, n: nat)
    requires s.currentLevel == 5 && s.correctStreak >= 0 && s.incorrectStreak == 0
    ensures Replay(s, seq(n, _ => true)) == ModeState(5, s.correctStreak + n, 0)
    decreases n
  {
    if n > 0 {
      var rest := seq(n - 1, _ => true);
      assert seq(n, _ => true)[1..] == rest;
      TopLevelRunGrows(Step(s, true), n - 1);
    }
  }

  /** At level 1 the incorrect run is never reset by incorrect answers. */
  lemma {:induction false} BottomLevelRunGrows(s: ModeState, n: nat)
    requires s.currentLevel == 1 && s.incorrectStreak >= 0 && s.correctStreak == 0
    ensures Replay(s, seq(n, _ => false)) == ModeState(1, 0, s.incorrectStreak + n)
    decreases n
  {
    if n > 0 {
      var rest := seq(n - 1, _ => false);
      assert seq(n, _ => false)[1..] == rest;
      BottomLevelRunGrows(Step(s, false), n - 1);
    }
  }
}
