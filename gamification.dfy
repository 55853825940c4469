/** The rules of the Gamification component (src/components/Gamification.tsx):
    levels from experience points, the progress bar, the achievement table,
    and the check that refreshes each achievement's progress from the user's
    statistics and reports those that have just been unlocked. */
module Gamification {
  import opened Collections

  datatype Rarity = Common | Rare | Epic | Legendary

  datatype AchievementCategory = Study | Streak | Quiz | Vocabulary | Special

  /** An achievement without its icon. */
  datatype Achievement = Achievement(
    id: string,
    name: string,
    description: string,
    progress: int,
    maxProgress: int,
    isUnlocked: bool,
    rarity: Rarity,
    xpReward: int,
    category: AchievementCategory)

  datatype UserStats = UserStats(
    level: int,
    xp: int,
    xpToNextLevel: int,
    studyStreak: int,
    maxStudyStreak: int,
    totalStudyTime: int,
    wordsLearned: int,
    quizzesCompleted: int,
    averageAccuracy: real,
    perfectQuizzes: int,
    dailyGoalStreak: int)

  const XpPerLevel: int := 1000

  /** getLevelFromXP: levels are 1000 XP wide and start at 1. */
  function LevelFromXP(xp: int): (level: int)
    ensures (level - 1) * XpPerLevel <= xp < level * XpPerLevel
    ensures xp >= 0 ==> level >= 1
    ensures xp < 0 ==> level <= 0
  {
    xp / XpPerLevel + 1
  }

  /** getXPToNextLevel: what is missing to reach the next level boundary. */
  function XPToNextLevel(xp: int): (r: int)
    ensures 1 <= r <= XpPerLevel
    ensures xp + r == LevelFromXP(xp) * XpPerLevel
    ensures LevelFromXP(xp + r) == LevelFromXP(xp) + 1
    ensures r > 1 ==> LevelFromXP(xp + r - 1) == LevelFromXP(xp)
  {
    LevelFromXP(xp) * XpPerLevel - xp
  }

  /** getProgressPercentage: `current / max` as a percentage, capped at 100. */
  function ProgressPercentage(current: real, max: real): (r: real)
    requires max > 0.0
    ensures r <= 100.0
    ensures r == 100.0 <==> current >= max
    ensures current < max ==> r * max == current * 100.0
    ensures current >= 0.0 ==> r >= 0.0
  {
    var pct := (current / max) * 100.0;
    assert pct * max == current * 100.0;
    if pct < 100.0 then pct else 100.0
  }

  /** The user statistic an achievement tracks; none for an id the check does not map. */
  function TrackedStat(id: string, s: UserStats): Option<int> {
    if id == "first_word" || id == "vocabulary_master" || id == "polyglot" then Some(s.wordsLearned)
    else if id == "streak_starter" || id == "week_warrior" || id == "dedication_legend" then Some(s.studyStreak)
    else if id == "quiz_novice" then Some(s.quizzesCompleted)
    else if id == "perfect_score" then Some(s.perfectQuizzes)
    else if id == "study_time_bronze" || id == "study_time_silver" || id == "study_time_gold" then Some(s.totalStudyTime)
    else if id == "daily_goal_master" then Some(s.dailyGoalStreak)
    else None
  }

  /** The map callback of checkAchievements: progress from the tracked
      statistic (or the stored progress), unlocked when it reaches the maximum. */
  function Checked(a: Achievement, s: UserStats): Achievement {
    var progress := match TrackedStat(a.id, s) case Some(v) => v case None => a.progress;
    a.(progress := progress, isUnlocked := progress >= a.maxProgress)
  }

  /** Was locked, and qualifies now. */
  predicate JustUnlocked(a: Achievement, s: UserStats) {
    !a.isUnlocked && Checked(a, s).isUnlocked
  }

  /** The achievements pushed onto `newlyUnlocked`, in list order. */
  function NewlyUnlocked(prev: seq<Achievement>, s: UserStats): seq<Achievement>
    decreases |prev|
  {
    if prev == [] then []
    else
      var init := prev[..|prev| - 1];
      var last := prev[|prev| - 1];
      NewlyUnlocked(init, s) + (if JustUnlocked(last, s) then [Checked(last, s)] else [])
  }

  /** The xp values passed to onUpdateStats, one per newly unlocked achievement,
      each computed from the xp the component was rendered with. */
  function XpRequests(prev: seq<Achievement>, s: UserStats): (r: seq<int>)
    decreases |prev|
  {
    if prev == [] then []
    else
      var init := prev[..|prev| - 1];
      var last := prev[|prev| - 1];
      XpRequests(init, s) + (if JustUnlocked(last, s) then [s.xp + last.xpReward] else [])
  }

  /** One request per reported achievement, for its reward on top of the rendered xp. */
  lemma {:induction false} XpRequestsMatch(prev: seq<Achievement>, s: UserStats)
    ensures |XpRequests(prev, s)| == |NewlyUnlocked(prev, s)|
    ensures forall k :: 0 <= k < |XpRequests(prev, s)| ==>
      XpRequests(prev, s)[k] == s.xp + NewlyUnlocked(prev, s)[k].xpReward
    decreases |prev|
  {
    if prev != [] {
      XpRequestsMatch(prev[..|prev| - 1], s);
    }
  }

  /** checkAchievements: map every achievement through the check, and collect
      the ones just unlocked together with the XP update each requests. */
  method CheckAchievements(prev: seq<Achievement>, stats: UserStats)
    returns (next: seq<Achievement>, newlyUnlocked: seq<Achievement>, xpRequests: seq<int>)
    ensures |next| == |prev|
    ensures forall i :: 0 <= i < |prev| ==> next[i] == Checked(prev[i], stats)
    ensures newlyUnlocked == NewlyUnlocked(prev, stats)
    ensures xpRequests == XpRequests(prev, stats)
  {
    next := [];
    newlyUnlocked := [];
    xpRequests := [];
    var i := 0;
    while i < |prev|
      invariant 0 <= i <= |prev|
      invariant next == MapSeq(CheckWith(stats), prev[..i])
      invariant newlyUnlocked == NewlyUnlocked(prev[..i], stats)
      invariant xpRequests == XpRequests(prev[..i], stats)
    {
      var checked, justUnlocked := CheckOne(prev[i], stats);
      NewlyUnlockedSnoc(prev, stats, i);
      MapSeqSnoc(CheckWith(stats), prev, i);
      if justUnlocked {
        newlyUnlocked := newlyUnlocked + [checked];
        xpRequests := xpRequests + [stats.xp + prev[i].xpReward];
      }
      next := next + [checked];
      i := i + 1;
    }
    assert prev[..i] == prev;
    MapSeqMeans(CheckWith(stats), prev);
  }

  /** The check as a value, for `prev.map`. */
  function CheckWith(s: UserStats): Achievement -> Achievement {
    (a: Achievement) => Checked(a, s)
  }

  /** The callback for one achievement: its progress from the tracked
      statistic, and whether it was locked and qualifies now. */
  method CheckOne(achievement: Achievement, stats: UserStats) returns (checked: Achievement, justUnlocked: bool)
    ensures checked == Checked(achievement, stats)
    ensures justUnlocked == JustUnlocked(achievement, stats)
    ensures justUnlocked ==> checked.isUnlocked
  {
    var wasUnlocked := achievement.isUnlocked;
    var progress := 0;
    var tracked := TrackedStat(achievement.id, stats);
    if tracked.Some? {
      progress := tracked.value;
    } else {
      progress := achievement.progress;
    }
    var isNowUnlocked := progress >= achievement.maxProgress;
    checked := achievement.(progress := progress, isUnlocked := isNowUnlocked);
    justUnlocked := !wasUnlocked && isNowUnlocked;
  }

  lemma NewlyUnlockedSnoc(prev: seq<Achievement>, s: UserStats, i: int)
    requires 0 <= i < |prev|
    ensures NewlyUnlocked(prev[..i + 1], s) ==
      NewlyUnlocked(prev[..i], s) + (if JustUnlocked(prev[i], s) then [Checked(prev[i], s)] else [])
    ensures XpRequests(prev[..i + 1], s) ==
      XpRequests(prev[..i], s) + (if JustUnlocked(prev[i], s) then [s.xp + prev[i].xpReward] else [])
  {
    assert prev[..i + 1][..i] == prev[..i];
  }

  /** The check keeps everything but progress and the unlocked flag; the flag
      is set exactly when progress reaches the maximum; an untracked id keeps
      its stored progress. */
  lemma CheckedFacts(a: Achievement, s: UserStats)
    ensures var c := Checked(a, s);
      && c.id == a.id && c.name == a.name && c.description == a.description
      && c.maxProgress == a.maxProgress && c.xpReward == a.xpReward
      && c.rarity == a.rarity && c.category == a.category
      && (c.isUnlocked <==> c.progress >= c.maxProgress)
      && (TrackedStat(a.id, s).None? ==> c.progress == a.progress)
      && (TrackedStat(a.id, s).Some? ==> c.progress == TrackedStat(a.id, s).value)
  {
  }

  /** An achievement is reported exactly when it was locked and now qualifies;
      what is reported is the checked achievement, unlocked. */
  lemma {:induction false} NewlyUnlockedMeans(prev: seq<Achievement>, s: UserStats)
    ensures forall i :: 0 <= i < |prev| && JustUnlocked(prev[i], s) ==> Checked(prev[i], s) in NewlyUnlocked(prev, s)
    ensures forall a :: a in NewlyUnlocked(prev, s) ==>
      a.isUnlocked && exists i :: 0 <= i < |prev| && JustUnlocked(prev[i], s) && a == Checked(prev[i], s)
    ensures |NewlyUnlocked(prev, s)| <= |prev|
    decreases |prev|
  {
    if prev != [] {
      var init := prev[..|prev| - 1];
      var last := prev[|prev| - 1];
      NewlyUnlockedMeans(init, s);
      forall i | 0 <= i < |prev| && JustUnlocked(prev[i], s) ensures Checked(prev[i], s) in NewlyUnlocked(prev, s) {
        if i < |init| { assert prev[i] == init[i]; }
      }
      forall a | a in NewlyUnlocked(prev, s)
        ensures a.isUnlocked && exists i :: 0 <= i < |prev| && JustUnlocked(prev[i], s) && a == Checked(prev[i], s)
      {
        if a in NewlyUnlocked(init, s) {
          var i :| 0 <= i < |init| && JustUnlocked(init[i], s) && a == Checked(init[i], s);
          assert prev[i] == init[i];
        } else {
          assert JustUnlocked(last, s) && a == Checked(last, s);
        }
      }
    }
  }

  /** A second check with the same statistics changes nothing and reports nothing. */
  lemma {:induction false} CheckIdempotent(prev: seq<Achievement>, s: UserStats)
    ensures forall i :: 0 <= i < |prev| ==> Checked(Checked(prev[i], s), s) == Checked(prev[i], s)
    ensures NewlyUnlocked(seq(|prev|, i requires 0 <= i < |prev| => Checked(prev[i], s)), s) == []
    decreases |prev|
  {
    var next := seq(|prev|, i requires 0 <= i < |prev| => Checked(prev[i], s));
    NothingNew(next, s);
  }

  lemma {:induction false} NothingNew(ps: seq<Achievement>, s: UserStats)
    requires forall i :: 0 <= i < |ps| ==> Checked(ps[i], s) == ps[i]
    ensures NewlyUnlocked(ps, s) == []
    decreases |ps|
  {
    if ps != [] {
      var init := ps[..|ps| - 1];
      assert forall i :: 0 <= i < |init| ==> init[i] == ps[i];
      NothingNew(init, s);
      assert !JustUnlocked(ps[|ps| - 1], s);
    }
  }

  /** The achievement table of initializeAchievements, filled in from the statistics. */
  function InitialAchievements(s: UserStats): seq<Achievement> {
    [ Achievement("first_word", "First Steps", "Learn your first word",
        s.wordsLearned, 1, s.wordsLearned >= 1, Common, 50, Vocabulary),
      Achievement("vocabulary_master", "Vocabulary Master", "Learn 100 words",
        s.wordsLearned, 100, s.wordsLearned >= 100, Epic, 500, Vocabulary),
      Achievement("polyglot", "Polyglot", "Learn 500 words",
        s.wordsLearned, 500, s.wordsLearned >= 500, Legendary, 1000, Vocabulary),
      Achievement("streak_starter", "Getting Started", "Study for 3 days in a row",
        s.studyStreak, 3, s.studyStreak >= 3, Common, 100, Streak),
      Achievement("week_warrior", "Week Warrior", "Study for 7 days in a row",
        s.studyStreak, 7, s.studyStreak >= 7, Rare, 250, Streak),
      Achievement("dedication_legend", "Dedication Legend", "Study for 30 days in a row",
        s.studyStreak, 30, s.studyStreak >= 30, Legendary, 1500, Streak),
      Achievement("quiz_novice", "Quiz Novice", "Complete your first quiz",
        s.quizzesCompleted, 1, s.quizzesCompleted >= 1, Common, 75, Quiz),
      Achievement("perfect_score", "Perfectionist", "Get 100% on a quiz",
        s.perfectQuizzes, 1, s.perfectQuizzes >= 1, Rare, 300, Quiz),
      Achievement("speed_demon", "Speed Demon", "Complete 10 speed quizzes",
        0, 10, false, Rare, 400, Quiz),
      Achievement("study_time_bronze", "Bronze Scholar", "Study for 1 hour total",
        s.totalStudyTime, 60, s.totalStudyTime >= 60, Common, 150, Study),
      Achievement("study_time_silver", "Silver Scholar", "Study for 10 hours total",
        s.totalStudyTime, 600, s.totalStudyTime >= 600, Rare, 500, Study),
      Achievement("study_time_gold", "Gold Scholar", "Study for 50 hours total",
        s.totalStudyTime, 3000, s.totalStudyTime >= 3000, Epic, 1200, Study),
      Achievement("daily_goal_master", "Goal Master", "Meet your daily goal 10 days in a row",
        s.dailyGoalStreak, 10, s.dailyGoalStreak >= 10, Epic, 750, Special) ]
  }

  /** The table is built consistently with the check: checking it against the
      statistics it was built from changes nothing and unlocks nothing. */
  lemma InitialIsChecked(s: UserStats)
    ensures forall i :: 0 <= i < |InitialAchievements(s)| ==>
      Checked(InitialAchievements(s)[i], s) == InitialAchievements(s)[i]
    ensures NewlyUnlocked(InitialAchievements(s), s) == []
  {
    var t := InitialAchievements(s);
    forall i | 0 <= i < |t| ensures Checked(t[i], s) == t[i] {
      InitialEntryChecked(s, i);
    }
    NothingNew(t, s);
  }

  lemma InitialEntryChecked(s: UserStats, i: int)
    requires 0 <= i < |InitialAchievements(s)|
    ensures Checked(InitialAchievements(s)[i], s) == InitialAchievements(s)[i]
  {
    var a := InitialAchievements(s)[i];
    if i < 3 {
      assert TrackedStat(a.id, s) == Some(s.wordsLearned);
    } else if i < 6 {
      assert TrackedStat(a.id, s) == Some(s.studyStreak);
    } else if i == 6 {
      assert TrackedStat(a.id, s) == Some(s.quizzesCompleted);
    } else if i == 7 {
      assert TrackedStat(a.id, s) == Some(s.perfectQuizzes);
    } else if i == 8 {
      assert a.id == "speed_demon";
      assert a.id[0] == 's' && a.id[1] == 'p';
      assert TrackedStat(a.id, s).None?;
    } else if i < 12 {
      assert TrackedStat(a.id, s) == Some(s.totalStudyTime);
    } else {
      assert TrackedStat(a.id, s) == Some(s.dailyGoalStreak);
    }
    CheckedFixed(a, s);
  }

  /** An achievement whose progress already is the tracked value and whose
      flag already agrees with it passes the check unchanged. */
  lemma CheckedFixed(a: Achievement, s: UserStats)
    requires TrackedStat(a.id, s).Some? ==> a.progress == TrackedStat(a.id, s).value
    requires a.isUnlocked == (a.progress >= a.maxProgress)
    ensures Checked(a, s) == a
  {
  }

  /** How the page merges the requested updates: each replaces xp, so the last one wins. */
  function MergedXp(xp: int, requests: seq<int>): int {
    if requests == [] then xp else requests[|requests| - 1]
  }

  function SumRewards(list: seq<Achievement>): int
    decreases |list|
  {
    if list == [] then 0 else SumRewards(list[..|list| - 1]) + list[|list| - 1].xpReward
  }

  /** The page keeps only the last requested xp: of everything unlocked in
      one check, only the last reward is added, and the others are lost. */
  lemma StaleXpLosesReward(prev: seq<Achievement>, s: UserStats)
    requires NewlyUnlocked(prev, s) != []
    ensures var newly := NewlyUnlocked(prev, s);
      && MergedXp(s.xp, XpRequests(prev, s)) == s.xp + newly[|newly| - 1].xpReward
      && s.xp + SumRewards(newly) == MergedXp(s.xp, XpRequests(prev, s)) + SumRewards(newly[..|newly| - 1])
  {
    XpRequestsMatch(prev, s);
  }

  /** A user who has just learned a first word and completed a first quiz
      unlocks first_word (50 XP) and quiz_novice (75 XP) in one check; the
      page then shows 75 XP where 125 were earned. */
  lemma FirstWordAndQuizNovice()
    ensures var s := UserStats(1, 0, 1000, 0, 0, 0, 1, 1, 0.0, 0, 0);
      var prev := [InitialAchievements(s)[0].(isUnlocked := false), InitialAchievements(s)[6].(isUnlocked := false)];
      && |NewlyUnlocked(prev, s)| == 2
      && MergedXp(s.xp, XpRequests(prev, s)) == 75
      && SumRewards(NewlyUnlocked(prev, s)) == 125
  {
    var s := UserStats(1, 0, 1000, 0, 0, 0, 1, 1, 0.0, 0, 0);
    var t := InitialAchievements(s);
    var a, b := t[0].(isUnlocked := false), t[6].(isUnlocked := false);
    assert a.id == "first_word" && b.id == "quiz_novice";
    assert b.id[0] == 'q';
    assert TrackedStat(a.id, s) == Some(1);
    assert TrackedStat(b.id, s) == Some(1);
    var prev := [a, b];
    NewlyUnlockedSnoc(prev, s, 0);
    NewlyUnlockedSnoc(prev, s, 1);
    assert prev[..0] == [] && prev[..2] == prev;
    StaleXpLosesReward(prev, s);
    var newly := NewlyUnlocked(prev, s);
    assert newly == [Checked(a, s), Checked(b, s)];
    assert newly[..1] == [Checked(a, s)];
    assert [Checked(a, s)][..0] == [];
  }

  /** Requests that carry the rewards forward: the k-th asks for the rendered
      xp plus every reward reported up to and including the k-th. */
  function CumulativeXpRequests(prev: seq<Achievement>, s: UserStats): (r: seq<int>)
    ensures |r| == |NewlyUnlocked(prev, s)|
    ensures forall k :: 0 <= k < |r| ==> r[k] == s.xp + SumRewards(NewlyUnlocked(prev, s)[..k + 1])
  {
    var newly := NewlyUnlocked(prev, s);
    seq(|newly|, k requires 0 <= k < |newly| => s.xp + SumRewards(newly[..k + 1]))
  }

  /** With cumulative requests the merged xp is the rendered xp plus every reward. */
  lemma CumulativeXpTotal(prev: seq<Achievement>, s: UserStats)
    ensures MergedXp(s.xp, CumulativeXpRequests(prev, s)) == s.xp + SumRewards(NewlyUnlocked(prev, s))
  {
    var newly := NewlyUnlocked(prev, s);
    if newly != [] {
      assert newly[..|newly|] == newly;
    }
  }
}
