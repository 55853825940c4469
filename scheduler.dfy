/** The SM-2 spaced-repetition scheduler of src/lib/spacedRepetition.ts.
    Dates are integer millisecond timestamps and the current time `now` is a
    parameter; a calendar day is the day number `t / MsPerDay`. */
module Scheduler {
  import opened Collections

  const MsPerDay: int := 86400000
  const MsPerHour: int := 3600000
  const MinEaseFactor: real := 1.3
  const DefaultEaseFactor: real := 2.5
  /** Upper bound of the due-card term in the suggested daily review count. */
  const DailyReviewCap: int := 50

  datatype Card = Card(
    id: string,
    word: string,
    translation: string,
    easeFactor: real,
    interval: int,        // days until the next review
    repetition: int,      // consecutive correct answers
    nextReviewDate: int,
    lastReviewDate: int,
    quality: real)        // last quality of response, 0-5

  datatype ReviewSession = ReviewSession(cardId: string, quality: real, responseTime: real, timestamp: int)

  /** Math.round: the nearest integer, halves rounded up. */
  function Round(x: real): int {
    (x + 0.5).Floor
  }

  /** The change SM-2 applies to the ease factor for a response of quality `q`. */
  function EaseDelta(q: real): real {
    0.1 - (5.0 - q) * (0.08 + (5.0 - q) * 0.02)
  }

  /** The ease factor after a review, never below the 1.3 floor. */
  function NextEaseFactor(ef: real, q: real): (r: real)
    ensures r >= MinEaseFactor && r >= ef + EaseDelta(q)
    ensures r == MinEaseFactor || r == ef + EaseDelta(q)
  {
    MaxReal(MinEaseFactor, ef + EaseDelta(q))
  }

  /** The new ease factor is at least 1.3; a quality of 4 leaves it unchanged
      (up to the floor), 5 raises it by 0.1, anything in (4, 5] raises it and
      anything below 4 lowers it unless the floor is reached. */
  lemma EaseFactorResponse(ef: real, q: real)
    ensures NextEaseFactor(ef, q) >= MinEaseFactor
    ensures q == 4.0 ==> NextEaseFactor(ef, q) == MaxReal(MinEaseFactor, ef)
    ensures q == 5.0 ==> NextEaseFactor(ef, q) == MaxReal(MinEaseFactor, ef + 0.1)
    ensures 4.0 < q <= 5.0 ==> NextEaseFactor(ef, q) > ef
    ensures q < 4.0 ==> NextEaseFactor(ef, q) <= MaxReal(MinEaseFactor, ef)
    ensures q < 4.0 && ef > MinEaseFactor ==> NextEaseFactor(ef, q) < ef
  {
    if q < 4.0 {
      EaseDeltaNegative(q);
    }
    if 4.0 < q <= 5.0 {
      EaseDeltaPositive(q);
    }
  }

  lemma Positive(a: real, b: real)
    requires a > 0.0 && b > 0.0
    ensures a * b > 0.0
  {
  }

  /** With d = 5 - q the change is 0.02 (1 - d)(d + 5), positive for 4 < q <= 5. */
  lemma EaseDeltaPositive(q: real)
    requires 4.0 < q <= 5.0
    ensures EaseDelta(q) > 0.0
  {
    var d := 5.0 - q;
    var a := 1.0 - d;
    var b := d + 5.0;
    Positive(a, b);
    assert EaseDelta(q) == 0.02 * (a * b);
  }

  lemma EaseDeltaNegative(q: real)
    requires q < 4.0
    ensures EaseDelta(q) < 0.0
  {
    var d := 5.0 - q;
    var a := d - 1.0;
    var b := d + 5.0;
    Positive(a, b);
    assert EaseDelta(q) == -0.02 * (a * b);
  }

  /** SM-2 update: new ease factor, then either a reset (quality below 3) or
      one more repetition with interval 1, 6, then round(interval * EF').
      `responseTime` is accepted and not used, as in the source. */
  function UpdateCardAfterReview(card: Card, quality: real, responseTime: real, now: int): (r: Card)
    ensures r.easeFactor == NextEaseFactor(card.easeFactor, quality) && r.easeFactor >= MinEaseFactor
    ensures quality < 3.0 ==> r.repetition == 0 && r.interval == 1
    ensures quality >= 3.0 ==> r.repetition == card.repetition + 1
    ensures quality >= 3.0 && r.repetition == 1 ==> r.interval == 1
    ensures quality >= 3.0 && r.repetition == 2 ==> r.interval == 6
    ensures quality >= 3.0 && r.repetition != 1 && r.repetition != 2 ==>
              r.interval == Round(card.interval as real * r.easeFactor)
    ensures r.nextReviewDate == now + r.interval * MsPerDay
    ensures r.lastReviewDate == now && r.quality == quality
    ensures r.id == card.id && r.word == card.word && r.translation == card.translation
  {
    EaseFactorResponse(card.easeFactor, quality);
    var ef := NextEaseFactor(card.easeFactor, quality);
    var repetition := if quality < 3.0 then 0 else card.repetition + 1;
    var interval :=
      if quality < 3.0 then 1
      else if repetition == 1 then 1
      else if repetition == 2 then 6
      else Round(card.interval as real * ef);
    card.(easeFactor := ef, interval := interval, repetition := repetition, quality := quality,
          nextReviewDate := now + interval * MsPerDay, lastReviewDate := now)
  }

  /** A fresh card: ease 2.5, interval 1, no repetitions, due now. */
  function CreateNewCard(id: string, word: string, translation: string, now: int): (r: Card)
    ensures r.id == id && r.word == word && r.translation == translation
    ensures r.easeFactor == DefaultEaseFactor && r.interval == 1 && r.repetition == 0
    ensures r.nextReviewDate == now && r.lastReviewDate == now && r.quality == 0.0
    ensures WellFormed(r) && IsDue(r, now)
  {
    Card(id, word, translation, DefaultEaseFactor, 1, 0, now, now, 0.0)
  }

  /** The states reachable from CreateNewCard by reviews: the ease factor floor,
      and the interval each repetition count leads to. */
  predicate WellFormed(c: Card) {
    && c.easeFactor >= MinEaseFactor
    && c.repetition >= 0
    && (c.repetition <= 1 ==> c.interval == 1)
    && (c.repetition == 2 ==> c.interval == 6)
    && (c.repetition >= 3 ==> c.interval >= 6)
  }

  lemma RoundAtLeast(n: int, f: real)
    requires n >= 0 && f >= 1.0
    ensures Round(n as real * f) >= n
  {
    assert n as real * f - n as real == n as real * (f - 1.0);
    assert n as real * (f - 1.0) >= 0.0;
  }

  /** Reviews keep a card well formed, and the interval is at least one day. */
  lemma ReviewPreservesWellFormed(card: Card, quality: real, responseTime: real, now: int)
    requires WellFormed(card)
    ensures WellFormed(UpdateCardAfterReview(card, quality, responseTime, now))
    ensures UpdateCardAfterReview(card, quality, responseTime, now).interval >= 1
  {
    var r := UpdateCardAfterReview(card, quality, responseTime, now);
    if quality >= 3.0 && card.repetition >= 2 {
      RoundAtLeast(card.interval, r.easeFactor);
    }
  }

  /** On a correct answer the interval of a well-formed card never shrinks:
      the "increasing intervals" of the scheduler's design. */
  lemma IntervalNeverShrinks(card: Card, quality: real, responseTime: real, now: int)
    requires WellFormed(card) && quality >= 3.0
    ensures UpdateCardAfterReview(card, quality, responseTime, now).interval >= card.interval
  {
    var r := UpdateCardAfterReview(card, quality, responseTime, now);
    if card.repetition >= 2 {
      RoundAtLeast(card.interval, r.easeFactor);
    }
  }

  /** Outside the reachable states the interval can shrink: a card claiming one
      repetition with a 10-day interval gets 6 days after a perfect answer. */
  lemma IntervalShrinksOffInvariant()
    ensures UpdateCardAfterReview(Card("c", "w", "t", 2.5, 10, 1, 0, 0, 0.0), 5.0, 0.0, 0).interval == 6
  {
  }

  /** A review of any card with a positive interval yields a positive interval. */
  lemma IntervalStaysPositive(card: Card, quality: real, responseTime: real, now: int)
    requires card.interval >= 1
    ensures UpdateCardAfterReview(card, quality, responseTime, now).interval >= 1
  {
    var r := UpdateCardAfterReview(card, quality, responseTime, now);
    if quality >= 3.0 && r.repetition != 1 && r.repetition != 2 {
      RoundAtLeast(card.interval, r.easeFactor);
    }
  }

  /** Three correct answers from a fresh card give intervals 1, 6 and
      round(6 * EF'''), each review dated from its own `now`. */
  lemma ThreeCorrectReviews(id: string, w: string, t: string, t0: int, q1: real, q2: real, q3: real, t1: int, t2: int, t3: int)
    requires q1 >= 3.0 && q2 >= 3.0 && q3 >= 3.0
    ensures var c1 := UpdateCardAfterReview(CreateNewCard(id, w, t, t0), q1, 0.0, t1);
            var c2 := UpdateCardAfterReview(c1, q2, 0.0, t2);
            var c3 := UpdateCardAfterReview(c2, q3, 0.0, t3);
            && c1.interval == 1 && c1.repetition == 1 && c1.nextReviewDate == t1 + MsPerDay
            && c2.interval == 6 && c2.repetition == 2 && c2.nextReviewDate == t2 + 6 * MsPerDay
            && c3.repetition == 3 && c3.interval == Round(6.0 * c3.easeFactor) && c3.interval >= 8
  {
    var c1 := UpdateCardAfterReview(CreateNewCard(id, w, t, t0), q1, 0.0, t1);
    var c2 := UpdateCardAfterReview(c1, q2, 0.0, t2);
    var c3 := UpdateCardAfterReview(c2, q3, 0.0, t3);
    assert 6.0 * c3.easeFactor >= 7.8;
  }

  /** The "Hola" scenario: two perfect answers a day apart, then a failure. */
  lemma HolaScenario(t0: int)
    ensures var c0 := CreateNewCard("hola", "Hola", "Hello", t0);
            var c1 := UpdateCardAfterReview(c0, 5.0, 0.0, t0);
            var c2 := UpdateCardAfterReview(c1, 5.0, 0.0, t0 + MsPerDay);
            var c3 := UpdateCardAfterReview(c2, 2.0, 0.0, t0 + 7 * MsPerDay);
            && c1.interval == 1 && c1.repetition == 1 && c1.nextReviewDate == t0 + MsPerDay
            && c2.interval == 6 && c2.repetition == 2 && c2.nextReviewDate == t0 + 7 * MsPerDay
            && c2.easeFactor == 2.7
            && c3.repetition == 0 && c3.interval == 1 && c3.nextReviewDate == t0 + 8 * MsPerDay
  {
  }

  predicate IsDue(c: Card, now: int) {
    c.nextReviewDate <= now
  }

  /** Cards whose next review date has passed, in collection order. */
  function GetDueCards(cards: seq<Card>, now: int): (r: seq<Card>)
    ensures forall i :: 0 <= i < |r| ==> IsDue(r[i], now) && r[i] in cards
    ensures forall i :: 0 <= i < |cards| && IsDue(cards[i], now) ==> cards[i] in r
    ensures IsSubseq(r, cards)
    ensures forall c :: multiset(r)[c] == if IsDue(c, now) then multiset(cards)[c] else 0
  {
    var p := (c: Card) => IsDue(c, now);
    FilterIsSubseq(p, cards);
    forall c ensures multiset(Filter(p, cards))[c] == if IsDue(c, now) then multiset(cards)[c] else 0 {
      FilterMultiset(p, cards, c);
    }
    Filter(p, cards)
  }

  /** Selecting due cards twice with the same `now` gives the first result. */
  lemma DueCardsIdempotent(cards: seq<Card>, now: int)
    ensures GetDueCards(GetDueCards(cards, now), now) == GetDueCards(cards, now)
  {
    FilterIdempotent((c: Card) => IsDue(c, now), cards);
  }

  /** The comparator of sortCardsByPriority, as "`a` may come before `b`":
      overdue before not yet due; among overdue, lower ease first; among the
      rest, earlier next review first. */
  predicate PriorityBefore(a: Card, b: Card, now: int) {
    if IsDue(a, now) != IsDue(b, now) then IsDue(a, now)
    else if IsDue(a, now) then a.easeFactor <= b.easeFactor
    else a.nextReviewDate <= b.nextReviewDate
  }

  lemma PriorityTotal(a: Card, b: Card, now: int)
    ensures PriorityBefore(a, b, now) || PriorityBefore(b, a, now)
  {
  }

  lemma PriorityTransitive(a: Card, b: Card, c: Card, now: int)
    requires PriorityBefore(a, b, now) && PriorityBefore(b, c, now)
    ensures PriorityBefore(a, c, now)
  {
  }

  predicate PrioritySorted(s: seq<Card>, now: int) {
    forall i, j :: 0 <= i < j < |s| ==> PriorityBefore(s[i], s[j], now)
  }

  /** What a priority-sorted sequence promises: every overdue card precedes
      every card not yet due, overdue cards by ascending ease factor, the others
      by ascending next review date. */
  lemma PrioritySortedMeans(s: seq<Card>, now: int, i: int, j: int)
    requires PrioritySorted(s, now) && 0 <= i < j < |s|
    ensures IsDue(s[j], now) ==> IsDue(s[i], now)
    ensures IsDue(s[i], now) && IsDue(s[j], now) ==> s[i].easeFactor <= s[j].easeFactor
    ensures !IsDue(s[i], now) && !IsDue(s[j], now) ==> s[i].nextReviewDate <= s[j].nextReviewDate
  {
  }

  /** The cards the comparator cannot tell apart from `c`. */
  function TiedWith(c: Card, now: int): Card -> bool {
    (x: Card) => PriorityBefore(c, x, now) && PriorityBefore(x, c, now)
  }

  /** Cards that tie under the comparator appear in `r` in the order they
      appear in `s`: what a stable sort promises. */
  ghost predicate TiesKept(r: seq<Card>, s: seq<Card>, now: int) {
    forall c :: Filter(TiedWith(c, now), r) == Filter(TiedWith(c, now), s)
  }

  /** Swapping neighbours the comparator orders strictly keeps every tie in order. */
  lemma SwapKeepsTies(s: seq<Card>, j: int, now: int)
    requires 0 < j < |s| && !PriorityBefore(s[j - 1], s[j], now)
    ensures TiesKept(s[j - 1 := s[j]][j := s[j - 1]], s, now)
  {
    forall c ensures Filter(TiedWith(c, now), s[j - 1 := s[j]][j := s[j - 1]]) == Filter(TiedWith(c, now), s) {
      if TiedWith(c, now)(s[j - 1]) && TiedWith(c, now)(s[j]) {
        PriorityTransitive(s[j - 1], c, s[j], now);
      }
      FilterSwapNeighbours(TiedWith(c, now), s, j);
    }
  }

  lemma TiesKeptTrans(r: seq<Card>, s: seq<Card>, t: seq<Card>, now: int)
    requires TiesKept(r, s, now) && TiesKept(s, t, now)
    ensures TiesKept(r, t, now)
  {
  }

  /** The first `n` cards of `s` are in priority order. */
  predicate SortedPrefix(s: seq<Card>, n: int, now: int)
    requires 0 <= n <= |s|
  {
    forall k, l :: 0 <= k < l < n ==> PriorityBefore(s[k], s[l], now)
  }

  /** The first `i + 1` cards are in order, except possibly for pairs ending at `j`:
      the invariant of one insertion step, with the moving card at `j`. */
  predicate SortedExcept(s: seq<Card>, i: int, j: int, now: int)
    requires 0 <= i < |s|
  {
    forall k, l :: 0 <= k < l <= i && l != j ==> PriorityBefore(s[k], s[l], now)
  }

  /** Sorts the caller's array in place by priority (cards.sort in the source). */
  method SortCardsByPriority(a: array<Card>, now: int)
    modifies a
    ensures multiset(a[..]) == old(multiset(a[..]))
    ensures PrioritySorted(a[..], now)
    ensures TiesKept(a[..], old(a[..]), now)
  {
    var i := 0;
    while i < a.Length
      invariant 0 <= i <= a.Length
      invariant multiset(a[..]) == old(multiset(a[..]))
      invariant SortedPrefix(a[..], i, now)
      invariant TiesKept(a[..], old(a[..]), now)
    {
      ghost var before := a[..];
      InsertCard(a, i, now);
      TiesKeptTrans(a[..], before, old(a[..]), now);
      i := i + 1;
    }
  }

  /** One insertion step: moves a[i] left, swapping it with each neighbour that
      may not precede it, until the first i + 1 cards are in order. */
  method InsertCard(a: array<Card>, i: int, now: int)
    requires 0 <= i < a.Length && SortedPrefix(a[..], i, now)
    modifies a
    ensures SortedPrefix(a[..], i + 1, now)
    ensures multiset(a[..]) == old(multiset(a[..]))
    ensures TiesKept(a[..], old(a[..]), now)
  {
    var j := i;
    while j > 0 && !PriorityBefore(a[j - 1], a[j], now)
      invariant 0 <= j <= i
      invariant multiset(a[..]) == old(multiset(a[..]))
      invariant SortedExcept(a[..], i, j, now)
      invariant TiesKept(a[..], old(a[..]), now)
    {
      ghost var s := a[..];
      SwapKeepsOrder(s, i, j, now);
      SwapKeepsTies(s, j, now);
      a[j - 1], a[j] := a[j], a[j - 1];
      assert a[..] == s[j - 1 := s[j]][j := s[j - 1]];
      TiesKeptTrans(a[..], s, old(a[..]), now);
      j := j - 1;
    }
    InsertionDone(a[..], i, j, now);
  }

  lemma SwapKeepsOrder(s: seq<Card>, i: int, j: int, now: int)
    requires 0 < j <= i < |s| && SortedExcept(s, i, j, now)
    requires !PriorityBefore(s[j - 1], s[j], now)
    ensures SortedExcept(s[j - 1 := s[j]][j := s[j - 1]], i, j - 1, now)
  {
    PriorityTotal(s[j - 1], s[j], now);
  }

  lemma InsertionDone(s: seq<Card>, i: int, j: int, now: int)
    requires 0 <= j <= i < |s| && SortedExcept(s, i, j, now)
    requires j == 0 || PriorityBefore(s[j - 1], s[j], now)
    ensures SortedPrefix(s, i + 1, now)
  {
    forall k | 0 <= k < j
      ensures PriorityBefore(s[k], s[j], now)
    {
      if k < j - 1 {
        PriorityTransitive(s[k], s[j - 1], s[j], now);
      }
    }
  }

  predicate IsCorrect(s: ReviewSession) {
    s.quality >= 3.0
  }

  function CorrectCount(sessions: seq<ReviewSession>): nat {
    |Filter(IsCorrect, sessions)|
  }

  /** Percentage of sessions answered with quality at least 3; 0 without sessions.
      `cards` is accepted and not used, as in the source. */
  function CalculateRetentionRate(cards: seq<Card>, sessions: seq<ReviewSession>): (r: real)
    ensures sessions == [] ==> r == 0.0
    ensures sessions != [] ==> r * |sessions| as real == 100.0 * CorrectCount(sessions) as real
    ensures 0.0 <= r <= 100.0
    ensures sessions != [] && (forall i :: 0 <= i < |sessions| ==> IsCorrect(sessions[i])) ==> r == 100.0
  {
    if sessions == [] then 0.0
    else
      var n := |sessions| as real;
      var c := CorrectCount(sessions) as real;
      Percent(c, n);
      AllCorrectCount(sessions);
      (c / n) * 100.0
  }

  /** The percentage `c` of `n` lies in [0, 100], scales back to `c`, and is
      100 when all count. */
  lemma Percent(c: real, n: real)
    requires n > 0.0 && 0.0 <= c <= n
    ensures 0.0 <= (c / n) * 100.0 <= 100.0
    ensures ((c / n) * 100.0) * n == 100.0 * c
    ensures c == n ==> (c / n) * 100.0 == 100.0
  {
    var x := c / n;
    assert x * n == c;
    assert (1.0 - x) * n == n - c;
    NonNegativeFactor(1.0 - x, n);
    NonNegativeFactor(x, n);
    assert (x * 100.0) * n == 100.0 * (x * n);
  }

  lemma NonNegativeFactor(a: real, n: real)
    requires n > 0.0 && a * n >= 0.0
    ensures a >= 0.0
  {
  }

  lemma AverageAtLeast(sum: real, n: real, m: real)
    requires n > 0.0 && sum >= m * n
    ensures sum / n >= m
  {
    var x := sum / n;
    assert x * n == sum;
    if x < m { assert x * n < m * n; }
  }

  lemma AllCorrectCount(sessions: seq<ReviewSession>)
    ensures (forall i :: 0 <= i < |sessions| ==> IsCorrect(sessions[i])) ==> CorrectCount(sessions) == |sessions|
  {
    if forall i :: 0 <= i < |sessions| ==> IsCorrect(sessions[i]) {
      FilterAll(IsCorrect, sessions);
    }
  }

  datatype StudyStatistics = StudyStatistics(
    totalCards: int,
    dueCards: int,
    masteredCards: int,
    averageEaseFactor: real,
    retentionRate: real,
    averageInterval: real)

  predicate IsMastered(c: Card) {
    c.repetition >= 3
  }

  function EaseOf(c: Card): real { c.easeFactor }
  function IntervalOf(c: Card): real { c.interval as real }

  /** sum / length, or 0 for an empty collection (the source's `x / 0 || 0`). */
  function Average(sum: real, n: int): (r: real)
    requires n >= 0
    ensures n == 0 ==> r == 0.0
    ensures n > 0 ==> r * n as real == sum
  {
    if n == 0 then 0.0
    else
      var x := sum / n as real;
      assert x * n as real == sum;
      x
  }

  function GetStudyStatistics(cards: seq<Card>, sessions: seq<ReviewSession>, now: int): (r: StudyStatistics)
    ensures r.totalCards == |cards|
    ensures r.dueCards == |GetDueCards(cards, now)| <= r.totalCards
    ensures r.masteredCards == |Filter(IsMastered, cards)| <= r.totalCards
    ensures r.retentionRate == CalculateRetentionRate(cards, sessions)
    ensures cards == [] ==> r.averageEaseFactor == 0.0 && r.averageInterval == 0.0
    ensures cards != [] ==> r.averageEaseFactor == SumReal(cards, EaseOf) / |cards| as real
    ensures cards != [] ==> r.averageInterval == SumReal(cards, IntervalOf) / |cards| as real
  {
    var due := GetDueCards(cards, now);
    var mastered := Filter(IsMastered, cards);
    var ease := Average(SumReal(cards, EaseOf), |cards|);
    var interval := Average(SumReal(cards, IntervalOf), |cards|);
    StudyStatistics(|cards|, |due|, |mastered|, ease, CalculateRetentionRate(cards, sessions), interval)
  }

  /** Over well-formed cards the averages respect the per-card floors. */
  lemma StatisticsRespectFloors(cards: seq<Card>, sessions: seq<ReviewSession>, now: int)
    requires cards != [] && forall i :: 0 <= i < |cards| ==> WellFormed(cards[i])
    ensures GetStudyStatistics(cards, sessions, now).averageEaseFactor >= MinEaseFactor
    ensures GetStudyStatistics(cards, sessions, now).averageInterval >= 1.0
  {
    var n := |cards| as real;
    SumRealLowerBound(cards, EaseOf, MinEaseFactor);
    SumRealLowerBound(cards, IntervalOf, 1.0);
    AverageAtLeast(SumReal(cards, EaseOf), n, MinEaseFactor);
    AverageAtLeast(SumReal(cards, IntervalOf), n, 1.0);
  }

  /** Calendar day number of a timestamp. */
  function DayOf(t: int): int {
    t / MsPerDay
  }

  /** Hour of the day of a timestamp, 0-23. */
  function HourOf(t: int): int {
    (t / MsPerHour) % 24
  }

  predicate DueOn(c: Card, day: int) {
    DayOf(c.nextReviewDate) == day
  }

  /** How many cards fall due on calendar day `day`. */
  function ReviewsOnDay(cards: seq<Card>, day: int): nat {
    |Filter(DueOnDay(day), cards)|
  }

  function DueOnDay(day: int): Card -> bool {
    (c: Card) => DueOn(c, day)
  }

  datatype DayLoad = DayLoad(day: int, count: int)

  /** One entry per day of the window that starts today, each counting the
      cards due on that calendar day. */
  method GetUpcomingReviews(cards: seq<Card>, days: int, today: int) returns (result: seq<DayLoad>)
    ensures |result| == Max(days, 0)
    ensures forall i :: 0 <= i < |result| ==>
              result[i].day == DayOf(today) + i && result[i].count == ReviewsOnDay(cards, DayOf(today) + i)
  {
    result := [];
    var i := 0;
    while i < days
      invariant 0 <= i == |result| <= Max(days, 0)
      invariant forall k :: 0 <= k < i ==>
                  result[k].day == DayOf(today) + k && result[k].count == ReviewsOnDay(cards, DayOf(today) + k)
    {
      var target := DayOf(today) + i;
      result := result + [DayLoad(target, ReviewsOnDay(cards, target))];
      i := i + 1;
    }
  }

  /** The total load over the `days` days starting at day `first`. */
  function WindowLoad(cards: seq<Card>, first: int, days: nat): nat
    decreases days
  {
    if days == 0 then 0 else ReviewsOnDay(cards, first) + WindowLoad(cards, first + 1, days - 1)
  }

  predicate DueWithin(c: Card, first: int, days: nat) {
    first <= DayOf(c.nextReviewDate) < first + days
  }

  function InWindow(first: int, days: nat): Card -> bool {
    (c: Card) => DueWithin(c, first, days)
  }

  /** The days of a window are disjoint, so the load over the window counts each
      card due in it once, and never exceeds the number of cards. */
  lemma WindowLoadCountsCards(cards: seq<Card>, first: int, days: nat)
    ensures WindowLoad(cards, first, days) == |Filter(InWindow(first, days), cards)|
    ensures WindowLoad(cards, first, days) <= |cards|
  {
    WindowLoadIsCount(cards, first, days);
    FilterCount(InWindow(first, days), cards);
  }

  lemma {:induction false} WindowLoadIsCount(cards: seq<Card>, first: int, days: nat)
    ensures WindowLoad(cards, first, days) == Count(InWindow(first, days), cards)
    decreases days
  {
    if days == 0 {
      EmptyWindow(cards, first);
      FilterCount(InWindow(first, 0), cards);
    } else {
      WindowLoadIsCount(cards, first + 1, days - 1);
      FilterCount(DueOnDay(first), cards);
      WindowSplitsAtFirst(first, days);
      CountUnion(DueOnDay(first), InWindow(first + 1, days - 1), InWindow(first, days), cards);
    }
  }

  /** No card is due in a window of no days. */
  lemma EmptyWindow(cards: seq<Card>, first: int)
    ensures Filter(InWindow(first, 0), cards) == []
  {
    forall i | 0 <= i < |cards| ensures !InWindow(first, 0)(cards[i]) {
      assert !DueWithin(cards[i], first, 0);
    }
    FilterNone(InWindow(first, 0), cards);
  }

  /** A card is due in a window exactly when it is due on the first day or in
      the rest of the window, and never both. */
  lemma WindowSplitsAtFirst(first: int, days: nat)
    requires days > 0
    ensures forall c :: InWindow(first, days)(c) == (DueOnDay(first)(c) || InWindow(first + 1, days - 1)(c))
    ensures forall c :: !(DueOnDay(first)(c) && InWindow(first + 1, days - 1)(c))
  {
    forall c ensures InWindow(first, days)(c) == (DueOnDay(first)(c) || InWindow(first + 1, days - 1)(c)) {
      assert InWindow(first, days)(c) == DueWithin(c, first, days);
    }
  }

  /** A single card is counted on the day it falls due and on no other day. */
  lemma UpcomingSingleCard(c: Card)
    ensures forall d :: ReviewsOnDay([c], d) == if DueOn(c, d) then 1 else 0
  {
    forall d
      ensures ReviewsOnDay([c], d) == if DueOn(c, d) then 1 else 0
    {
      FilterLengthSplit(DueOnDay(d), [c]);
    }
  }

  /** Responses much faster than average count half a point more (at most 5),
      much slower ones half a point less (at least 3); wrong answers are never adjusted. */
  function AdjustQualityByResponseTime(baseQuality: real, responseTime: real, averageResponseTime: real): (r: real)
    requires averageResponseTime > 0.0
    ensures baseQuality < 3.0 ==> r == baseQuality
    ensures 3.0 <= baseQuality <= 5.0 ==> 3.0 <= r <= 5.0
    ensures r > baseQuality ==> responseTime < averageResponseTime / 2.0 && r <= baseQuality + 0.5
    ensures r < baseQuality && baseQuality <= 5.0 ==> responseTime > 2.0 * averageResponseTime
    ensures baseQuality >= 3.0 && responseTime < averageResponseTime / 2.0 ==> r == MinReal(5.0, baseQuality + 0.5)
    ensures baseQuality >= 3.0 && responseTime > 2.0 * averageResponseTime ==> r == MaxReal(3.0, baseQuality - 0.5)
    ensures averageResponseTime / 2.0 <= responseTime <= 2.0 * averageResponseTime ==> r == baseQuality
  {
    if baseQuality < 3.0 then baseQuality
    else
      var timeRatio := responseTime / averageResponseTime;
      assert timeRatio < 0.5 <==> responseTime < averageResponseTime / 2.0;
      assert timeRatio > 2.0 <==> responseTime > 2.0 * averageResponseTime;
      if timeRatio < 0.5 then MinReal(5.0, baseQuality + 0.5)
      else if timeRatio > 2.0 then MaxReal(3.0, baseQuality - 0.5)
      else baseQuality
  }

  datatype DifficultyDistribution = DifficultyDistribution(easy: int, medium: int, hard: int)
  datatype DayProgress = DayProgress(correct: int, total: int)
  datatype LearningPatterns = LearningPatterns(
    difficultyDistribution: DifficultyDistribution,
    timeOfDayPerformance: map<int, int>,
    weeklyProgress: seq<DayProgress>,
    suggestedDailyReviews: int)

  predicate IsEasy(c: Card) { c.easeFactor > 2.8 }
  predicate IsMedium(c: Card) { 2.2 <= c.easeFactor <= 2.8 }
  predicate IsHard(c: Card) { c.easeFactor < 2.2 }

  /** Every card lands in exactly one difficulty bucket. */
  lemma {:induction false} BucketsPartition(cards: seq<Card>)
    ensures |Filter(IsEasy, cards)| + |Filter(IsMedium, cards)| + |Filter(IsHard, cards)| == |cards|
    decreases |cards|
  {
    if cards != [] {
      BucketsPartition(cards[1..]);
    }
  }

  /** The hour tally: for each hour in which some session took place, how many
      of that hour's sessions were correct (built in session order). */
  function HourTally(sessions: seq<ReviewSession>): (r: map<int, int>)
    ensures forall h :: h in r ==> 0 <= h < 24 && 0 <= r[h] <= |sessions|
    decreases |sessions|
  {
    if sessions == [] then map[]
    else
      var m := HourTally(sessions[..|sessions| - 1]);
      var last := sessions[|sessions| - 1];
      var h := HourOf(last.timestamp);
      m[h := (if h in m then m[h] else 0) + (if IsCorrect(last) then 1 else 0)]
  }

  predicate InHour(s: ReviewSession, h: int) { HourOf(s.timestamp) == h }

  /** The correct sessions of hour `h`. */
  function CorrectInHour(h: int): ReviewSession -> bool {
    (s: ReviewSession) => InHour(s, h) && IsCorrect(s)
  }

  /** The tally has a key for exactly the hours that occur, whose value is the
      number of correct sessions in that hour. */
  lemma HourTallyMeans(sessions: seq<ReviewSession>, h: int)
    ensures h in HourTally(sessions) <==> exists i :: 0 <= i < |sessions| && InHour(sessions[i], h)
    ensures h in HourTally(sessions) ==>
              HourTally(sessions)[h] == |Filter(CorrectInHour(h), sessions)|
  {
    HourTallyKeys(sessions, h);
    HourTallyCount(sessions, h);
  }

  /** An hour has a key exactly when some session falls in it. */
  lemma {:induction false} HourTallyKeys(sessions: seq<ReviewSession>, h: int)
    ensures h in HourTally(sessions) <==> exists i :: 0 <= i < |sessions| && InHour(sessions[i], h)
    decreases |sessions|
  {
    if sessions != [] {
      var n := |sessions|;
      var init := sessions[..n - 1];
      HourTallyKeys(init, h);
      if !InHour(sessions[n - 1], h) {
        if exists i :: 0 <= i < n && InHour(sessions[i], h) {
          var i :| 0 <= i < n && InHour(sessions[i], h);
          assert init[i] == sessions[i];
        }
        if exists i :: 0 <= i < |init| && InHour(init[i], h) {
          var i :| 0 <= i < |init| && InHour(init[i], h);
          assert sessions[i] == init[i];
        }
      }
    }
  }

  /** The value of an hour, 0 when absent, counts its correct sessions. */
  lemma {:induction false} HourTallyCount(sessions: seq<ReviewSession>, h: int)
    ensures (if h in HourTally(sessions) then HourTally(sessions)[h] else 0) == |Filter(CorrectInHour(h), sessions)|
    decreases |sessions|
  {
    if sessions != [] {
      var n := |sessions|;
      var init := sessions[..n - 1];
      var last := sessions[n - 1];
      HourTallyCount(init, h);
      assert sessions == init + [last];
      FilterAppend(CorrectInHour(h), init, [last]);
      assert |Filter(CorrectInHour(h), [last])| == if InHour(last, h) && IsCorrect(last) then 1 else 0;
    }
  }

  /** The sessions held on calendar day `day`. */
  function OnDay(day: int): ReviewSession -> bool {
    (s: ReviewSession) => DayOf(s.timestamp) == day
  }

  function DayTally(sessions: seq<ReviewSession>, day: int): DayProgress {
    var onDay := Filter(OnDay(day), sessions);
    DayProgress(|Filter(IsCorrect, onDay)|, |onDay|)
  }

  /** max(min(due, 50), round(1.2 * sessions / 7)). */
  function SuggestedDailyReviews(dueCount: int, sessionCount: int): int {
    Max(Min(dueCount, DailyReviewCap), Round(sessionCount as real / 7.0 * 1.2))
  }

  /** The suggestion is at least the capped due count, but the cap does not
      bound it: 350 sessions suggest 60 reviews. */
  lemma SuggestedIsNotCapped()
    ensures SuggestedDailyReviews(0, 350) == 60
    ensures forall d, n :: SuggestedDailyReviews(d, n) >= Min(d, DailyReviewCap)
  {
    assert 350 as real / 7.0 * 1.2 + 0.5 == 60.5;
  }

  /** The forEach over sessions that fills the hour table. */
  method TallyTimeOfDay(sessions: seq<ReviewSession>) returns (timeOfDay: map<int, int>)
    ensures timeOfDay == HourTally(sessions)
  {
    timeOfDay := map[];
    var j := 0;
    while j < |sessions|
      invariant 0 <= j <= |sessions|
      invariant timeOfDay == HourTally(sessions[..j])
    {
      var s := sessions[j];
      var hour := HourOf(s.timestamp);
      if hour !in timeOfDay {
        timeOfDay := timeOfDay[hour := 0];
      }
      timeOfDay := timeOfDay[hour := timeOfDay[hour] + (if IsCorrect(s) then 1 else 0)];
      assert sessions[..j + 1][..j] == sessions[..j];
      j := j + 1;
    }
    assert sessions[..|sessions|] == sessions;
  }

  /** The correct and total session counts of the last seven calendar days,
      oldest first and today last. */
  method WeeklyProgress(sessions: seq<ReviewSession>, now: int) returns (weekly: seq<DayProgress>)
    ensures |weekly| == 7
    ensures forall k :: 0 <= k < 7 ==> weekly[k] == DayTally(sessions, DayOf(now) - 6 + k)
  {
    weekly := WeekEnding(sessions, DayOf(now));
  }

  /** The loop of WeeklyProgress: one tally per day, from six days before
      `today` up to `today`. */
  method WeekEnding(sessions: seq<ReviewSession>, today: int) returns (weekly: seq<DayProgress>)
    ensures |weekly| == 7
    ensures forall k :: 0 <= k < 7 ==> weekly[k] == DayTally(sessions, today - 6 + k)
  {
    weekly := [];
    var i := 6;
    while i >= 0
      invariant -1 <= i <= 6
      invariant |weekly| == 6 - i
      invariant forall k :: 0 <= k < |weekly| ==> weekly[k] == DayTally(sessions, today - 6 + k)
    {
      var day := DayTally(sessions, today - i);
      var prev := weekly;
      weekly := weekly + [day];
      forall k | 0 <= k < |weekly| ensures weekly[k] == DayTally(sessions, today - 6 + k) {
        if k < |prev| {
          assert weekly[k] == prev[k];
        } else {
          assert k == |prev| && today - i == today - 6 + k;
        }
      }
      i := i - 1;
    }
  }

  method AnalyzeLearningPatterns(cards: seq<Card>, sessions: seq<ReviewSession>, now: int) returns (r: LearningPatterns)
    ensures r.difficultyDistribution ==
              DifficultyDistribution(|Filter(IsEasy, cards)|, |Filter(IsMedium, cards)|, |Filter(IsHard, cards)|)
    ensures r.difficultyDistribution.easy + r.difficultyDistribution.medium + r.difficultyDistribution.hard == |cards|
    ensures r.timeOfDayPerformance == HourTally(sessions)
    ensures |r.weeklyProgress| == 7
    ensures forall k :: 0 <= k < 7 ==> r.weeklyProgress[k] == DayTally(sessions, DayOf(now) - 6 + k)
    ensures forall k :: 0 <= k < 7 ==> 0 <= r.weeklyProgress[k].correct <= r.weeklyProgress[k].total
    ensures r.suggestedDailyReviews == SuggestedDailyReviews(|GetDueCards(cards, now)|, |sessions|)
    ensures r.suggestedDailyReviews >= Min(|GetDueCards(cards, now)|, DailyReviewCap)
  {
    BucketsPartition(cards);
    var distribution := DifficultyDistribution(|Filter(IsEasy, cards)|, |Filter(IsMedium, cards)|, |Filter(IsHard, cards)|);
    var timeOfDay := TallyTimeOfDay(sessions);
    var weekly := WeeklyProgress(sessions, now);
    var dueCards := GetDueCards(cards, now);
    r := LearningPatterns(distribution, timeOfDay, weekly, SuggestedDailyReviews(|dueCards|, |sessions|));
  }
}
