/** The statistics ledger kept by the game context: experience and level,
    the day streak, answer counters, per-category accuracy, a per-question
    heatmap and a dated history. Each operation is the pure state updater the
    context hands to `setStats`; "today" is an abstract day number. */
module GameStats {
  import opened Wrappers
  import opened Categories
  import opened Progress

  datatype CategoryStat = CategoryStat(attempted: int, correct: int)

  datatype HeatEntry = HeatEntry(correct: int, attempts: int)

  datatype HistoryEntry = HistoryEntry(date: int, xp: int, questions: int)

  /** The fastest correct answer in milliseconds; Unset stands for the
      initial Infinity, which every finite time beats. */
  datatype Fastest = Unset | Ms(ms: int)

  datatype UserStats = UserStats(
    xp: int,
    level: int,
    streak: int,
    lastPlayed: Option<int>,
    totalQuestions: int,
    correctAnswers: int,
    fastestTime: Fastest,
    categoryStats: map<string, CategoryStat>,
    history: seq<HistoryEntry>,
    heatmap: map<string, HeatEntry>)

  /** The reward presets a quiz session can be played under. */
  datatype Tier = Gentle | Focused | Trial | Dragon

  const XPPerLevel: int := 1000

  /** The most history entries `addXP` keeps. */
  const HistoryCap: int := 30

  /** Only the dragon challenge pays in embers. */
  function TierCurrency(t: Tier): (c: Currency)
    ensures c == Embers <==> t == Dragon
  {
    if t == Dragon then Embers else Petals
  }

  function TierReward(t: Tier): (amount: nat)
    ensures 1 <= amount <= 3
  {
    match t
    case Gentle => 1
    case Focused => 2
    case Trial => 3
    case Dragon => 2
  }

  /** The reward table: each tier's payment and currency; the petal tiers pay
      more the less time they allow. */
  lemma TierRewardTable()
    ensures TierCurrency(Gentle) == Petals && TierReward(Gentle) == 1
    ensures TierCurrency(Focused) == Petals && TierReward(Focused) == 2
    ensures TierCurrency(Trial) == Petals && TierReward(Trial) == 3
    ensures TierCurrency(Dragon) == Embers && TierReward(Dragon) == 2
    ensures forall t: Tier, u: Tier :: TierCurrency(t) == Petals && TierCurrency(u) == Petals && TierRank(t) < TierRank(u)
              ==> TierReward(t) < TierReward(u)
  {
  }

  /** The tiers in the order they are offered, gentlest first. */
  function TierRank(t: Tier): int {
    match t
    case Gentle => 0
    case Focused => 1
    case Trial => 2
    case Dragon => 3
  }

  predicate UniqueDates(h: seq<HistoryEntry>) {
    forall i, j :: 0 <= i < j < |h| ==> h[i].date != h[j].date
  }

  predicate DatesIncreasing(h: seq<HistoryEntry>) {
    forall i, j :: 0 <= i < j < |h| ==> h[i].date < h[j].date
  }

  /** The ledger invariant: no counter claims more correct answers than
      attempts, and the history holds one entry per date. */
  predicate Consistent(s: UserStats) {
    && 0 <= s.correctAnswers <= s.totalQuestions
    && CategoriesValid(s.categoryStats)
    && HeatmapValid(s.heatmap)
    && UniqueDates(s.history)
  }

  /** The stats of a new player, with the five fact categories seeded at zero. */
  function DefaultStats(): (s: UserStats)
    ensures Consistent(s)
    ensures s.categoryStats.Keys == {"tables", "squares", "cubes", "reciprocals", "powers"}
    ensures forall c: MathCategory :: CategoryName(c) in s.categoryStats
    ensures forall c :: c in s.categoryStats ==> s.categoryStats[c] == CategoryStat(0, 0)
    ensures s.xp == 0 && s.level == LevelFor(s.xp) && s.streak == 0 && s.lastPlayed == None
    ensures s.totalQuestions == 0 && s.fastestTime == Unset && s.history == [] && s.heatmap == map[]
  {
    var zero := CategoryStat(0, 0);
    UserStats(0, 1, 0, None, 0, 0, Unset,
      map[CategoryName(Tables) := zero, CategoryName(Squares) := zero, CategoryName(Cubes) := zero,
          CategoryName(Reciprocals) := zero, CategoryName(Powers) := zero],
      [], map[])
  }

  /** `Math.floor(xp / 1000) + 1`: the level whose thousand-point band holds xp. */
  function LevelFor(xp: int): (level: int)
    ensures (level - 1) * XPPerLevel <= xp < level * XPPerLevel
  {
    xp / XPPerLevel + 1
  }

  /** `history.findIndex(h => h.date === today)`. */
  function FindDate(h: seq<HistoryEntry>, today: int): (i: int)
    ensures -1 <= i < |h|
    ensures i >= 0 ==> h[i].date == today
    ensures forall j :: 0 <= j < |h| && (i < 0 || j < i) ==> h[j].date != today
    decreases |h|
  {
    if |h| == 0 then -1
    else if h[0].date == today then 0
    else
      var i := FindDate(h[1..], today);
      if i < 0 then -1 else i + 1
  }

  /** The history part of `addXP`: today's entry earns the xp, or a new entry
      is appended and the oldest one dropped past 30. */
  function CreditHistory(h: seq<HistoryEntry>, today: int, amount: int): (r: seq<HistoryEntry>)
    ensures var i := FindDate(h, today);
      i >= 0 ==> |r| == |h| && r[i] == h[i].(xp := h[i].xp + amount)
                 && forall j :: 0 <= j < |h| && j != i ==> r[j] == h[j]
    ensures FindDate(h, today) < 0 ==>
              && |r| == (if |h| >= HistoryCap then |h| else |h| + 1)
              && r[|r| - 1] == HistoryEntry(today, amount, 0)
              && r[..|r| - 1] == (if |h| >= HistoryCap then h[1..] else h)
    ensures |h| <= HistoryCap ==> |r| <= HistoryCap
    ensures UniqueDates(h) ==> UniqueDates(r)
  {
    var i := FindDate(h, today);
    if i >= 0 then h[i := h[i].(xp := h[i].xp + amount)]
    else
      var grown := h + [HistoryEntry(today, amount, 0)];
      if |grown| > HistoryCap then grown[1..] else grown
  }

  /** The history part of `recordAnswer`: today's entry counts one more
      question, or a new entry is appended, with no cap. */
  function CountQuestion(h: seq<HistoryEntry>, today: int): (r: seq<HistoryEntry>)
    ensures var i := FindDate(h, today);
      i >= 0 ==> |r| == |h| && r[i] == h[i].(questions := h[i].questions + 1)
                 && forall j :: 0 <= j < |h| && j != i ==> r[j] == h[j]
    ensures FindDate(h, today) < 0 ==> r == h + [HistoryEntry(today, 0, 1)]
    ensures UniqueDates(h) ==> UniqueDates(r)
  {
    var i := FindDate(h, today);
    if i >= 0 then h[i := h[i].(questions := h[i].questions + 1)]
    else h + [HistoryEntry(today, 0, 1)]
  }

  /** `addXP(amount)`. */
  function AddXP(s: UserStats, amount: int, today: int): (r: UserStats)
    ensures r.xp == s.xp + amount
    ensures (r.level - 1) * XPPerLevel <= r.xp < r.level * XPPerLevel
    ensures r.history == CreditHistory(s.history, today, amount)
    ensures |s.history| <= HistoryCap ==> |r.history| <= HistoryCap
    ensures r.(xp := s.xp, level := s.level, history := s.history) == s
    ensures Consistent(s) ==> Consistent(r)
  {
    var xp := s.xp + amount;
    s.(xp := xp, level := LevelFor(xp), history := CreditHistory(s.history, today, amount))
  }

  /** `updateStreak()`: a second play on the same day changes nothing; a play
      the day after the last one extends the streak; any other play starts a
      new streak of one. */
  function UpdateStreak(s: UserStats, today: int): (r: UserStats)
    ensures s.lastPlayed == Some(today) ==> r == s
    ensures r.lastPlayed == Some(today)
    ensures s.lastPlayed == Some(today - 1) ==> r.streak == s.streak + 1
    ensures s.lastPlayed != Some(today) && s.lastPlayed != Some(today - 1) ==> r.streak == 1
    ensures r.(streak := s.streak, lastPlayed := s.lastPlayed) == s
  {
    if s.lastPlayed == Some(today) then s
    else
      var streak := if s.lastPlayed == Some(today - 1) then s.streak + 1 else 1;
      s.(streak := streak, lastPlayed := Some(today))
  }

  function Point(isCorrect: bool): int {
    if isCorrect then 1 else 0
  }

  /** `timeTaken < fastestTime`, with Unset as Infinity. */
  predicate Beats(timeTaken: int, fastest: Fastest) {
    fastest.Unset? || timeTaken < fastest.ms
  }

  /** `questionId` is recorded only when present and not empty. */
  predicate Recorded(questionId: Option<string>) {
    questionId.Some? && questionId.value != ""
  }

  predicate CategoriesValid(m: map<string, CategoryStat>) {
    forall c :: c in m ==> 0 <= m[c].correct <= m[c].attempted
  }

  predicate HeatmapValid(m: map<string, HeatEntry>) {
    forall q :: q in m ==> 0 <= m[q].correct <= m[q].attempts
  }

  /** The category counters after one answer: the entry, created at zero if
      absent, gains an attempt and a correct one iff correct. */
  function CountCategory(m: map<string, CategoryStat>, category: string, isCorrect: bool)
    : (r: map<string, CategoryStat>)
    ensures r.Keys == m.Keys + {category}
    ensures category in m ==>
              r[category].attempted == m[category].attempted + 1
              && r[category].correct == m[category].correct + Point(isCorrect)
    ensures category !in m ==> r[category] == CategoryStat(1, Point(isCorrect))
    ensures forall c :: c in m && c != category ==> r[c] == m[c]
    ensures CategoriesValid(m) ==> CategoriesValid(r)
  {
    var cat := if category in m then m[category] else CategoryStat(0, 0);
    m[category := CategoryStat(cat.attempted + 1, cat.correct + Point(isCorrect))]
  }

  /** The heatmap after one answer: only a recorded id's entry, created at
      zero if absent, gains an attempt and a correct one iff correct. */
  function CountAttempt(m: map<string, HeatEntry>, questionId: Option<string>, isCorrect: bool)
    : (r: map<string, HeatEntry>)
    ensures !Recorded(questionId) ==> r == m
    ensures Recorded(questionId) ==>
              var q := questionId.value;
              && r.Keys == m.Keys + {q}
              && r[q].attempts == (if q in m then m[q].attempts else 0) + 1
              && r[q].correct == (if q in m then m[q].correct else 0) + Point(isCorrect)
              && forall k :: k in m && k != q ==> r[k] == m[k]
    ensures HeatmapValid(m) ==> HeatmapValid(r)
  {
    if Recorded(questionId) then
      var q := questionId.value;
      var entry := if q in m then m[q] else HeatEntry(0, 0);
      m[q := HeatEntry(entry.correct + Point(isCorrect), entry.attempts + 1)]
    else m
  }

  /** The fastest time after one answer: it only ever improves, and only to
      the time of a correct answer. */
  function Quicker(fastest: Fastest, isCorrect: bool, timeTaken: int): (r: Fastest)
    ensures isCorrect ==> r.Ms? && r.ms <= timeTaken
    ensures r != fastest ==> isCorrect && r == Ms(timeTaken)
    ensures fastest.Ms? ==> r.Ms? && r.ms <= fastest.ms
  {
    if isCorrect && Beats(timeTaken, fastest) then Ms(timeTaken) else fastest
  }

  /** The updater `recordAnswer` passes to `setStats`. */
  function RecordStats(
    s: UserStats, category: string, isCorrect: bool, timeTaken: int,
    questionId: Option<string>, today: int): (r: UserStats)
    ensures r.totalQuestions == s.totalQuestions + 1
    ensures r.correctAnswers == s.correctAnswers + Point(isCorrect)
    ensures r.categoryStats == CountCategory(s.categoryStats, category, isCorrect)
    ensures r.fastestTime == Quicker(s.fastestTime, isCorrect, timeTaken)
    ensures r.heatmap == CountAttempt(s.heatmap, questionId, isCorrect)
    ensures r.history == CountQuestion(s.history, today)
    ensures r.xp == s.xp && r.level == s.level && r.streak == s.streak && r.lastPlayed == s.lastPlayed
    ensures Consistent(s) ==> Consistent(r)
  {
    s.(totalQuestions := s.totalQuestions + 1,
       correctAnswers := s.correctAnswers + Point(isCorrect),
       fastestTime := Quicker(s.fastestTime, isCorrect, timeTaken),
       categoryStats := CountCategory(s.categoryStats, category, isCorrect),
       heatmap := CountAttempt(s.heatmap, questionId, isCorrect),
       history := CountQuestion(s.history, today))
  }

  /** One answer event as the orchestrator reports it. */
  datatype AnswerEvent = AnswerEvent(category: string, isCorrect: bool, timeTaken: int, questionId: Option<string>, today: int)

  /** The stats side of one answer: the `recordAnswer` updater, then the
      `updateStreak` call that follows it. */
  function ApplyAnswer(s: UserStats, e: AnswerEvent): UserStats {
    UpdateStreak(RecordStats(s, e.category, e.isCorrect, e.timeTaken, e.questionId, e.today), e.today)
  }

  /** `recordAnswer(category, isCorrect, timeTaken, questionId)`: a correct
      answer under a tier pays the tier's reward into the currency ledger;
      then the stats are updated and the streak call runs after them. */
  function RecordAnswer(
    s: UserStats, p: ProgressState, tier: Option<Tier>, category: string, isCorrect: bool,
    timeTaken: int, questionId: Option<string>, today: int): (r: (UserStats, ProgressState))
    requires p.rank >= 0
    ensures !isCorrect || tier.None? ==> r.1 == p
    ensures isCorrect && tier.Some? ==>
              && r.1 == Earn(p, TierCurrency(tier.value), TierReward(tier.value))
              && r.1.totalXP == p.totalXP + TierReward(tier.value)
              && Balance(r.1, TierCurrency(tier.value)) == Balance(p, TierCurrency(tier.value)) + TierReward(tier.value)
              && (forall other :: other != TierCurrency(tier.value) ==> Balance(r.1, other) == Balance(p, other))
              && r.1.inventory == p.inventory
              && r.1.rank >= p.rank
              && r.1.showRankUpModal == (r.1.rank > p.rank || p.showRankUpModal)
    ensures r.0 == ApplyAnswer(s, AnswerEvent(category, isCorrect, timeTaken, questionId, today))
    ensures r.0 == UpdateStreak(RecordStats(s, category, isCorrect, timeTaken, questionId, today), today)
    ensures r.0.totalQuestions == s.totalQuestions + 1
    ensures r.0.correctAnswers == s.correctAnswers + Point(isCorrect)
    ensures r.0.lastPlayed == Some(today)
    ensures r.0.categoryStats == CountCategory(s.categoryStats, category, isCorrect)
    ensures r.0.heatmap == CountAttempt(s.heatmap, questionId, isCorrect)
    ensures r.0.fastestTime == Quicker(s.fastestTime, isCorrect, timeTaken)
    ensures r.0.xp == s.xp && r.0.level == s.level
    ensures s.lastPlayed == Some(today) ==> r.0.streak == s.streak
    ensures s.lastPlayed == Some(today - 1) ==> r.0.streak == s.streak + 1
    ensures s.lastPlayed != Some(today) && s.lastPlayed != Some(today - 1) ==> r.0.streak == 1
    ensures r.0.history == CountQuestion(s.history, today)
    ensures Consistent(s) ==> Consistent(r.0)
    ensures RankConsistent(p) ==> RankConsistent(r.1)
  {
    var p' := if isCorrect && tier.Some? then Earn(p, TierCurrency(tier.value), TierReward(tier.value)) else p;
    (ApplyAnswer(s, AnswerEvent(category, isCorrect, timeTaken, questionId, today)), p')
  }

  /** `resetProgress()`: back to the stats of a new player, whatever came before. */
  function ResetProgress(s: UserStats): (r: UserStats)
    ensures r == DefaultStats()
    ensures Consistent(r) && r.level == 1
    ensures r.categoryStats.Keys == {"tables", "squares", "cubes", "reciprocals", "powers"}
    ensures r.totalQuestions == 0 && r.correctAnswers == 0 && r.xp == 0 && r.streak == 0
    ensures r.history == [] && r.heatmap == map[] && r.fastestTime == Unset && r.lastPlayed == None
    ensures forall c :: c in r.categoryStats ==> r.categoryStats[c] == CategoryStat(0, 0)
  {
    DefaultStats()
  }

  // ---- Properties over runs of operations ----

  function ApplyAnswers(s: UserStats, events: seq<AnswerEvent>): UserStats
    decreases |events|
  {
    if |events| == 0 then s else ApplyAnswers(ApplyAnswer(s, events[0]), events[1..])
  }

  function CountCorrect(events: seq<AnswerEvent>): nat
    decreases |events|
  {
    if |events| == 0 then 0 else Point(events[0].isCorrect) + CountCorrect(events[1..])
  }

  /** Every answer counts exactly one question and correct ones one correct
      answer, and the ledger invariant holds throughout. */
  lemma {:induction false} AnswersKeepLedgerConsistent(s: UserStats, events: seq<AnswerEvent>)
    requires Consistent(s)
    ensures Consistent(ApplyAnswers(s, events))
    ensures ApplyAnswers(s, events).totalQuestions == s.totalQuestions + |events|
    ensures ApplyAnswers(s, events).correctAnswers == s.correctAnswers + CountCorrect(events)
    decreases |events|
  {
    if |events| > 0 {
      AnswersKeepLedgerConsistent(ApplyAnswer(s, events[0]), events[1..]);
    }
  }

  /** Playing on each of n consecutive days, starting on a day that neither
      repeats nor follows the last play, gives a streak of n. */
  lemma {:induction false} ConsecutiveDaysStreak(s: UserStats, start: int, n: nat)
    requires n >= 1
    requires s.lastPlayed != Some(start) && s.lastPlayed != Some(start - 1)
    ensures PlayDays(s, start, n).streak == n
    ensures PlayDays(s, start, n).lastPlayed == Some(start + n - 1)
    decreases n
  {
    if n > 1 {
      ConsecutiveDaysStreak(s, start, n - 1);
    }
  }

  /** Update the streak on days start, start+1, ..., start+n-1. */
  function PlayDays(s: UserStats, start: int, n: nat): UserStats
    decreases n
  {
    if n == 0 then s else UpdateStreak(PlayDays(s, start, n - 1), start + n - 1)
  }

  /** Playing again the same day never moves the streak. */
  lemma SameDayIdempotent(s: UserStats, today: int)
    ensures UpdateStreak(UpdateStreak(s, today), today) == UpdateStreak(s, today)
  {
  }

  /** Appending an entry dated after every existing one keeps the order. */
  lemma AppendKeepsOrder(h: seq<HistoryEntry>, e: HistoryEntry)
    requires DatesIncreasing(h)
    requires forall i :: 0 <= i < |h| ==> h[i].date < e.date
    ensures DatesIncreasing(h + [e])
  {
    var g := h + [e];
    forall a, b | 0 <= a < b < |g|
      ensures g[a].date < g[b].date
    {
      assert g[a] == h[a];
      if b < |h| {
        assert g[b] == h[b];
      }
    }
  }

  /** With days that never go backwards, crediting xp keeps the entries in
      strictly increasing date order. */
  lemma CreditHistoryStaysOrdered(h: seq<HistoryEntry>, today: int, amount: int)
    requires DatesIncreasing(h)
    requires forall i :: 0 <= i < |h| ==> h[i].date <= today
    ensures DatesIncreasing(CreditHistory(h, today, amount))
  {
    var r := CreditHistory(h, today, amount);
    if FindDate(h, today) >= 0 {
      assert forall j :: 0 <= j < |r| ==> r[j].date == h[j].date;
    } else {
      var g := h + [HistoryEntry(today, amount, 0)];
      AppendKeepsOrder(h, HistoryEntry(today, amount, 0));
      if |g| > HistoryCap {
        assert r == g[1..];
        assert forall j :: 0 <= j < |r| ==> r[j] == g[j + 1];
      } else {
        assert r == g;
      }
    }
  }

  /** With days that never go backwards, counting a question keeps the
      entries in strictly increasing date order. */
  lemma CountQuestionStaysOrdered(h: seq<HistoryEntry>, today: int)
    requires DatesIncreasing(h)
    requires forall i :: 0 <= i < |h| ==> h[i].date <= today
    ensures DatesIncreasing(CountQuestion(h, today))
  {
    var r := CountQuestion(h, today);
    if FindDate(h, today) >= 0 {
      assert forall j :: 0 <= j < |r| ==> r[j].date == h[j].date;
    } else {
      AppendKeepsOrder(h, HistoryEntry(today, 0, 1));
    }
  }

  /** `recordAnswer` alone lets the history grow past 30 entries: the cap is
      applied only by `addXP`. */
  lemma RecordAnswerHistoryUncapped()
    ensures var h := seq(HistoryCap, i => HistoryEntry(i + 1, 0, 1));
            |CountQuestion(h, HistoryCap + 1)| == HistoryCap + 1
  {
    var h := seq(HistoryCap, i => HistoryEntry(i + 1, 0, 1));
    assert FindDate(h, HistoryCap + 1) < 0;
  }
}
