/**
 * The game session of js/game.js: the module-level `state` object and the handlers that
 * update it in place (scoring, the sub-level timer, starting and completing sub-levels,
 * choosing a difficulty, the Level-1 card click, the Level-2 hit and miss, and saving the
 * result). Timer ticks and `animationend` are explicit method calls; what the source leaves
 * scheduled with `setTimeout` is returned to the caller as a `Scheduled` value.
 */
module Session {
  import opened Wrappers
  import opened Tuning
  import opened Answers
  import Utils
  import Records
  import LocalStorage

  /** What `completeSublevel` leaves scheduled: a (re)start of a sub-level, or the end of a won game. */
  datatype Scheduled = StartAt(level: int, sublevel: int) | FinishWin

  /** Where a game stands: the sub-level being played and the highest level unlocked. */
  datatype Stage = Stage(level: int, sublevel: int, allowLevels: int)

  predicate ValidStage(st: Stage)
  {
    1 <= st.level <= st.allowLevels <= 3 && 1 <= st.sublevel <= SublevelsPerLevel
  }

  /** The position of a sub-level among the nine, counted from 1. */
  function Rank(st: Stage): int
  {
    (st.level - 1) * SublevelsPerLevel + st.sublevel
  }

  /** The success branch of `completeSublevel`: the next sub-level, or `None` once the last one is done. */
  function AfterSuccess(st: Stage): (next: Option<Stage>)
    ensures next.None? <==> st.sublevel >= SublevelsPerLevel && st.level >= 3
    ensures next.Some? ==>
              && next.value.allowLevels >= st.allowLevels
              && (next.value.level == st.level || next.value.level == st.level + 1)
  {
    if st.sublevel < SublevelsPerLevel then Some(Stage(st.level, st.sublevel + 1, st.allowLevels))
    else if st.level < 3 then
      Some(Stage(st.level + 1, 1, if st.allowLevels > st.level + 1 then st.allowLevels else st.level + 1))
    else None
  }

  /**
   * A success moves one place forward in the order of the nine sub-levels, never locks a level,
   * unlocks every level it enters, and ends the game exactly after the third sub-level of level 3.
   */
  lemma AfterSuccessAdvances(st: Stage)
    requires ValidStage(st)
    ensures AfterSuccess(st).None? <==> st.level == 3 && st.sublevel == SublevelsPerLevel
    ensures AfterSuccess(st).Some? ==>
              var next := AfterSuccess(st).value;
              ValidStage(next) && Rank(next) == Rank(st) + 1 && next.allowLevels >= st.allowLevels
    ensures AfterSuccess(st).Some? && AfterSuccess(st).value.level != st.level ==>
              AfterSuccess(st).value.level == st.level + 1 && AfterSuccess(st).value.sublevel == 1
  {
  }

  /** `n` successes in a row, or `None` when the game is won before they are all played. */
  function Successes(st: Stage, n: nat): Option<Stage>
    decreases n
  {
    if n == 0 then Some(st)
    else
      match AfterSuccess(st)
      case None => None
      case Some(next) => Successes(next, n - 1)
  }

  /** From any sub-level, the game is won by exactly the successes that reach the ninth one and one more. */
  lemma {:induction false} SuccessesToWin(st: Stage, n: nat)
    requires ValidStage(st) && n == 9 - Rank(st)
    ensures Successes(st, n).Some?
    ensures Successes(st, n).value.level == 3 && Successes(st, n).value.sublevel == 3
    ensures Successes(st, n).value.allowLevels == 3
    ensures AfterSuccess(Successes(st, n).value).None?
    decreases n
  {
    AfterSuccessAdvances(st);
    if n > 0 {
      assert AfterSuccess(st).Some?;
      SuccessesToWin(AfterSuccess(st).value, n - 1);
    } else {
      assert st.level == 3 && st.sublevel == 3;
    }
  }

  /** `addScore(base)`: base times the difficulty multiplier, which is 1 before a difficulty is chosen. */
  function Rewarded(score: real, base: real, d: Option<Difficulty>): (r: real)
    ensures base >= 0.0 ==> score + base <= r <= score + 2.0 * base
    ensures d.None? ==> r == score + base
  {
    var m := ScoreMultiplier(d);
    Scale(base, m);
    score + base * m
  }

  /** `applyPenalty`: ten points times the multiplier, never below zero. */
  function Penalised(score: real, d: Option<Difficulty>): (r: real)
    ensures r >= 0.0
    ensures r == 0.0 || r <= score - Penalty
    ensures score >= Penalty * ScoreMultiplier(d) ==> r == score - Penalty * ScoreMultiplier(d)
    ensures score <= Penalty * ScoreMultiplier(d) ==> r == 0.0
  {
    var s := score - Penalty * ScoreMultiplier(d);
    if s > 0.0 then s else 0.0
  }

  /** The time bonus of `completeSublevel`: the seconds left times the multiplier, rounded, never negative. */
  function TimeBonus(timeLeft: int, d: Option<Difficulty>): (bonus: int)
    ensures bonus >= 0
    ensures timeLeft >= 0 ==> timeLeft <= bonus <= 2 * timeLeft
  {
    var b := Utils.Round(timeLeft as real * BonusMultiplier(d));
    RoundedScale(timeLeft, d);
    if b > 0 then b else 0
  }

  /** A factor between 1 and 2 keeps a non-negative amount between itself and its double. */
  lemma Scale(x: real, m: real)
    requires 1.0 <= m <= 2.0
    ensures x >= 0.0 ==> x <= x * m <= 2.0 * x
  {
    if x >= 0.0 {
      assert x * m - x == x * (m - 1.0);
      assert 2.0 * x - x * m == x * (2.0 - m);
    }
  }

  lemma RoundedScale(t: int, d: Option<Difficulty>)
    ensures t >= 0 ==> t <= Utils.Round(t as real * BonusMultiplier(d)) <= 2 * t
  {
    var m := BonusMultiplier(d);
    if d.Some? && d.value == Medium {
      assert t as real * m == 1.5 * t as real;
    } else if d.Some? && d.value == Hard {
      assert t as real * m == 2.0 * t as real;
    } else {
      assert t as real * m == t as real;
    }
  }

  /**
   * The bonus goes through `addScore`, which applies the multiplier a second time:
   * on the hard level every second left is worth four points.
   */
  lemma HardBonusCountsTwice(score: real, timeLeft: nat)
    ensures Rewarded(score, TimeBonus(timeLeft, Some(Hard)) as real, Some(Hard)) == score + 4.0 * timeLeft as real
  {
    var b := Utils.Round(timeLeft as real * 2.0);
    assert b == 2 * timeLeft;
  }

  /** The name `finishGame` stores for a difficulty. */
  function DifficultyName(d: Difficulty): string
  {
    match d
    case Easy => "easy"
    case Medium => "medium"
    case Hard => "hard"
  }

  /** `expectedSequence[expectedIndex] || ''`: the value a Level-2 number remembers at spawn time. */
  function SpawnMark(sequence: seq<int>, index: int): (mark: Option<int>)
    ensures mark.Some? <==> 0 <= index < |sequence| && sequence[index] != 0
    ensures mark.Some? ==> mark.value == sequence[index]
  {
    if 0 <= index < |sequence| && sequence[index] != 0 then Some(sequence[index]) else None
  }

  /** The `animationend` rule: only a needed number that was the expected one when it appeared costs points. */
  predicate MissPenalised(value: int, needed: bool, mark: Option<int>)
    ensures !needed ==> !MissPenalised(value, needed, mark)
    ensures mark.None? ==> !MissPenalised(value, needed, mark)
  {
    needed && mark == Some(value)
  }

  /**
   * A needed number that appeared while another value was expected is never penalised when it falls
   * out of view, whatever the player has done since; nor is one that appeared past the end.
   */
  lemma MissUsesSpawnTime(sequence: seq<int>, index: int, value: int, needed: bool)
    ensures MissPenalised(value, needed, SpawnMark(sequence, index))
        <==> needed && 0 <= index < |sequence| && sequence[index] == value && value != 0
  {
  }

  /** Every field of the session, for saying what an operation leaves alone. */
  datatype Snapshot = Snapshot(
    player: string,
    difficulty: Option<Difficulty>,
    level: int,
    sublevel: int,
    score: real,
    timeLeft: int,
    timerRunning: bool,
    expectedSequence: seq<int>,
    expectedIndex: int,
    allowLevels: int)

  /** A Level-1 card; the `correct` class is its only state. */
  class Card {
    const value: int
    var correct: bool

    constructor(value: int)
      ensures this.value == value && !correct
    {
      this.value := value;
      correct := false;
    }
  }

  /** A falling Level-2 number and the data attributes it carries. */
  class FallingNode {
    const value: int
    const needed: bool
    const expectedAtSpawn: Option<int>
    var processed: bool

    constructor(value: int, needed: bool, expectedAtSpawn: Option<int>)
      ensures this.value == value && this.needed == needed && this.expectedAtSpawn == expectedAtSpawn
      ensures !processed
    {
      this.value := value;
      this.needed := needed;
      this.expectedAtSpawn := expectedAtSpawn;
      processed := false;
    }
  }

  class GameSession {
    var player: string
    var difficulty: Option<Difficulty>
    var level: int
    var sublevel: int
    var score: real
    var timeLeft: int
    /** Whether the one-second interval of `startTimer` is active. */
    var timerRunning: bool
    var expectedSequence: seq<int>
    var expectedIndex: int
    var allowLevels: int

    /** The score is never negative, the level is unlocked, the index stays within the sequence. */
    predicate Valid()
      reads this
    {
      0.0 <= score && ValidStage(StageOf())
      && 0 <= expectedIndex <= |expectedSequence|
      && 0 <= timeLeft && (timerRunning ==> timeLeft >= 1)
    }

    function StageOf(): Stage
      reads this
    {
      Stage(level, sublevel, allowLevels)
    }

    function Snap(): Snapshot
      reads this
    {
      Snapshot(player, difficulty, level, sublevel, score, timeLeft, timerRunning,
               expectedSequence, expectedIndex, allowLevels)
    }

    /** The record `finishGame` saves; the date is the caller's reading of the clock. */
    function ResultRecord(reason: Records.Reason, date: string): (r: Records.RatingRecord)
      reads this
      requires difficulty.Some?
      ensures r.name == player && r.maxLevel == level && r.reason == reason && r.date == date
      ensures score - 0.5 < r.score as real <= score + 0.5
    {
      Records.RatingRecord(player, Utils.Round(score), level, DifficultyName(difficulty.value), date, reason)
    }

    /** The initial `state`, with the name `guardPlayer` read from storage. */
    constructor(player: string)
      ensures Valid()
      ensures Snap() == Snapshot(player, None, 1, 1, 0.0, 0, false, [], 0, 1)
    {
      this.player := player;
      difficulty := None;
      level := 1;
      sublevel := 1;
      score := 0.0;
      timeLeft := 0;
      timerRunning := false;
      expectedSequence := [];
      expectedIndex := 0;
      allowLevels := 1;
    }

    method AddScore(base: real)
      requires Valid() && base >= 0.0
      modifies this
      ensures Valid()
      ensures Snap() == old(Snap()).(score := Rewarded(old(score), base, difficulty))
    {
      score := Rewarded(score, base, difficulty);
    }

    method ApplyPenalty()
      requires Valid()
      modifies this
      ensures Valid()
      ensures Snap() == old(Snap()).(score := Penalised(old(score), difficulty))
    {
      score := Penalised(score, difficulty);
    }

    /** `startTimer(seconds, …)`: the clock is set and the interval runs. */
    method StartTimer(seconds: int)
      requires Valid() && seconds >= 1
      modifies this
      ensures Valid()
      ensures Snap() == old(Snap()).(timeLeft := seconds, timerRunning := true)
    {
      timeLeft := seconds;
      timerRunning := true;
    }

    /**
     * `completeSublevel(success)`. Either way the timers stop and the expected sequence is
     * cleared; a failure schedules the same sub-level again, a success adds the time bonus and
     * moves on as `AfterSuccess` says.
     */
    method CompleteSublevel(success: bool) returns (next: Scheduled)
      requires Valid()
      modifies this
      ensures Valid()
      ensures !success ==> next == StartAt(old(level), old(sublevel))
      ensures !success ==>
                Snap() == old(Snap()).(timerRunning := false, expectedSequence := [], expectedIndex := 0)
      ensures success ==>
                var st := AfterSuccess(old(StageOf()));
                var after := if st.Some? then st.value else old(StageOf());
                && next == (if st.Some? then StartAt(after.level, after.sublevel) else FinishWin)
                && Snap() == old(Snap()).(timerRunning := false, expectedSequence := [], expectedIndex := 0,
                                         score := Rewarded(old(score), TimeBonus(old(timeLeft), difficulty) as real, difficulty),
                                         level := after.level, sublevel := after.sublevel,
                                         allowLevels := after.allowLevels)
    {
      timerRunning := false;
      expectedIndex := 0;
      expectedSequence := [];
      if !success {
        return StartAt(level, sublevel);
      }
      var bonus := TimeBonus(timeLeft, difficulty);
      if bonus != 0 {
        AddScore(bonus as real);
      }
      next := Advance();
    }

    /** The success branch after the bonus: the next sub-level, the next level, or the win. */
    method Advance() returns (next: Scheduled)
      requires Valid()
      modifies this
      ensures Valid()
      ensures var st := AfterSuccess(old(StageOf()));
              var after := if st.Some? then st.value else old(StageOf());
              && next == (if st.Some? then StartAt(after.level, after.sublevel) else FinishWin)
              && Snap() == old(Snap()).(level := after.level, sublevel := after.sublevel,
                                       allowLevels := after.allowLevels)
    {
      AfterSuccessAdvances(StageOf());
      if sublevel < SublevelsPerLevel {
        sublevel := sublevel + 1;
        next := StartAt(level, sublevel);
      } else if level < 3 {
        allowLevels := if allowLevels > level + 1 then allowLevels else level + 1;
        level := level + 1;
        sublevel := 1;
        next := StartAt(level, sublevel);
      } else {
        next := FinishWin;
      }
    }

    /** One tick of the timer interval; at zero it stops and fails the sub-level. */
    method Tick() returns (next: Option<Scheduled>)
      requires Valid() && timerRunning
      modifies this
      ensures Valid()
      ensures old(timeLeft) > 1 ==> next.None? && Snap() == old(Snap()).(timeLeft := old(timeLeft) - 1)
      ensures old(timeLeft) == 1 ==>
                && next == Some(StartAt(old(level), old(sublevel)))
                && Snap() == old(Snap()).(timeLeft := 0, timerRunning := false,
                                         expectedSequence := [], expectedIndex := 0)
    {
      timeLeft := timeLeft - 1;
      if timeLeft <= 0 {
        timerRunning := false;
        var after := CompleteSublevel(false);
        next := Some(after);
      } else {
        next := None;
      }
    }

    /**
     * `startSublevel(level, sublevel)` followed by the level's renderer, which installs the
     * generated `sequence` (the empty one on level 3). A locked level is refused with no change.
     */
    method StartSublevel(lv: int, sub: int, sequence: seq<int>) returns (started: bool)
      requires Valid() && 1 <= lv && 1 <= sub <= SublevelsPerLevel
      modifies this
      ensures Valid()
      ensures started <==> lv <= old(allowLevels)
      ensures !started ==> Snap() == old(Snap())
      ensures started ==>
                var d := if old(difficulty).Some? then old(difficulty).value else Easy;
                Snap() == old(Snap()).(difficulty := Some(d), level := lv, sublevel := sub,
                                       timeLeft := SublevelTime(d, lv), timerRunning := true,
                                       expectedSequence := sequence, expectedIndex := 0)
    {
      if lv > allowLevels {
        return false;
      }
      level := lv;
      sublevel := sub;
      expectedIndex := 0;
      expectedSequence := [];
      timerRunning := false;
      if difficulty.None? {
        difficulty := Some(Easy);
      }
      StartTimer(SublevelTime(difficulty.value, lv));
      expectedSequence := sequence;
      expectedIndex := 0;
      started := true;
    }

    /** `selectDifficulty(diff)`: a new game from level 1, started after a delay. */
    method SelectDifficulty(d: Difficulty) returns (next: Scheduled)
      requires Valid()
      modifies this
      ensures Valid()
      ensures next == StartAt(1, 1)
      ensures Snap() == old(Snap()).(difficulty := Some(d), score := 0.0, level := 1, sublevel := 1,
                                     allowLevels := 1)
    {
      difficulty := Some(d);
      score := 0.0;
      level := 1;
      sublevel := 1;
      allowLevels := 1;
      next := StartAt(1, 1);
    }

    /** The level picker: every level is unlocked and the chosen one starts at its first sub-level. */
    method DevSkip(target: int, sequence: seq<int>) returns (started: bool)
      requires Valid() && 1 <= target
      modifies this
      ensures Valid()
      ensures started <==> target <= 3
      ensures !started ==>
                var d := if old(difficulty).Some? then old(difficulty).value else Easy;
                Snap() == old(Snap()).(difficulty := Some(d), allowLevels := 3)
      ensures started ==>
                var d := if old(difficulty).Some? then old(difficulty).value else Easy;
                Snap() == old(Snap()).(difficulty := Some(d), allowLevels := 3, level := target, sublevel := 1,
                                       timeLeft := SublevelTime(d, target), timerRunning := true,
                                       expectedSequence := sequence, expectedIndex := 0)
    {
      if difficulty.None? {
        difficulty := Some(Easy);
      }
      allowLevels := 3;
      started := StartSublevel(target, 1, sequence);
    }

    /**
     * `finishGame(reason)`: the timers stop, and the result is written to the leaderboard and
     * as the last result exactly when a difficulty was chosen.
     */
    method FinishGame(store: LocalStorage.LocalStore, reason: Records.Reason, date: string)
      returns (saved: bool)
      requires Valid()
      modifies this, store
      ensures saved <==> old(difficulty).Some?
      ensures Snap() == old(Snap()).(timerRunning := false)
      ensures saved ==>
                var r := ResultRecord(reason, date);
                && store.Rating() == Records.SortBy(LocalStorage.Upsert(old(store.Rating()), r), Records.ScoreDesc)
                && store.LastResult() == LocalStorage.JRecord(r)
      ensures !saved ==> store.rating == old(store.rating) && store.lastResult == old(store.lastResult)
      ensures store.player == old(store.player)
    {
      timerRunning := false;
      if difficulty.Some? && score >= 0.0 {
        var r := ResultRecord(reason, date);
        store.AddRatingRecord(r);
        store.SaveLastResult(r);
        saved := true;
      } else {
        saved := false;
      }
    }

    /** The shared answer step: advance on the expected value, otherwise one penalty. */
    method Answer(value: int, points: real) returns (verdict: Verdict, completed: bool)
      requires Valid() && points >= 0.0
      modifies this
      ensures Valid()
      ensures verdict == Classify(old(expectedSequence), old(expectedIndex), value)
      ensures verdict == CorrectNext ==>
                && Snap() == old(Snap()).(expectedIndex := old(expectedIndex) + 1,
                                         score := Rewarded(old(score), points, difficulty))
                && (completed <==> expectedIndex == |expectedSequence|)
      ensures verdict != CorrectNext ==>
                !completed && Snap() == old(Snap()).(score := Penalised(old(score), difficulty))
    {
      verdict := Classify(expectedSequence, expectedIndex, value);
      if verdict == CorrectNext {
        expectedIndex := expectedIndex + 1;
        AddScore(points);
        completed := expectedIndex == |expectedSequence|;
      } else {
        ApplyPenalty();
        completed := false;
      }
    }

    /**
     * A click on a Level-1 card. A card already marked correct is ignored; the expected value
     * marks the card and earns a third of the base points; anything else costs one penalty, and
     * the verdict tells a value of the sequence taken out of order from a wrong one.
     */
    method ClickCard(card: Card) returns (verdict: Option<Verdict>, completed: bool)
      requires Valid()
      modifies this, card
      ensures Valid()
      ensures old(card.correct) ==> verdict.None? && !completed && card.correct && Snap() == old(Snap())
      ensures !old(card.correct) ==>
                verdict == Some(Classify(old(expectedSequence), old(expectedIndex), card.value))
      ensures verdict == Some(CorrectNext) ==>
                && card.correct
                && Snap() == old(Snap()).(expectedIndex := old(expectedIndex) + 1,
                                         score := Rewarded(old(score), BasePoints / 3.0, difficulty))
                && (completed <==> expectedIndex == |expectedSequence|)
      ensures verdict.Some? && verdict.value != CorrectNext ==>
                && !card.correct && !completed
                && Snap() == old(Snap()).(score := Penalised(old(score), difficulty))
    {
      if card.correct {
        return None, false;
      }
      var v;
      v, completed := Answer(card.value, BasePoints / 3.0);
      if v == CorrectNext {
        card.correct := true;
      }
      verdict := Some(v);
    }

    /** `spawnFallingNumber`: the new number remembers the value expected at this moment. */
    method Spawn(value: int, needed: bool) returns (node: FallingNode)
      ensures fresh(node) && !node.processed
      ensures node.value == value && node.needed == needed
      ensures node.expectedAtSpawn == SpawnMark(expectedSequence, expectedIndex)
    {
      node := new FallingNode(value, needed, SpawnMark(expectedSequence, expectedIndex));
    }

    /**
     * `handleFallingHit`: the first hit on a number is answered like a card click for half the
     * base points; every later hit on the same number changes nothing.
     */
    method HandleFallingHit(node: FallingNode) returns (verdict: Option<Verdict>, completed: bool)
      requires Valid()
      modifies this, node
      ensures Valid()
      ensures node.processed
      ensures old(node.processed) ==> verdict.None? && !completed && Snap() == old(Snap())
      ensures !old(node.processed) ==>
                verdict == Some(Classify(old(expectedSequence), old(expectedIndex), node.value))
      ensures verdict == Some(CorrectNext) ==>
                && Snap() == old(Snap()).(expectedIndex := old(expectedIndex) + 1,
                                         score := Rewarded(old(score), BasePoints / 2.0, difficulty))
                && (completed <==> expectedIndex == |expectedSequence|)
      ensures verdict.Some? && verdict.value != CorrectNext ==>
                !completed && Snap() == old(Snap()).(score := Penalised(old(score), difficulty))
    {
      if node.processed {
        return None, false;
      }
      node.processed := true;
      var v;
      v, completed := Answer(node.value, BasePoints / 2.0);
      verdict := Some(v);
    }

    /** A number falls out of view (`animationend`). */
    method Missed(node: FallingNode) returns (penalised: bool)
      requires Valid()
      modifies this
      ensures Valid()
      ensures penalised <==> MissPenalised(node.value, node.needed, node.expectedAtSpawn)
      ensures penalised ==> Snap() == old(Snap()).(score := Penalised(old(score), difficulty))
      ensures !penalised ==> Snap() == old(Snap())
    {
      penalised := MissPenalised(node.value, node.needed, node.expectedAtSpawn);
      if penalised {
        ApplyPenalty();
      }
    }
  }
}
