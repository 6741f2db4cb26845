/** The screening session and its per-question timers: creation, the one timer
    mutator, the wall-clock reconstruction of remaining time, the global expiry
    test, the forward-only navigation gate, the submission table, and the
    single storage slot the session lives in.

    Clock reads are parameters: `now` is `Date.now()` in milliseconds,
    `startDate` the epoch milliseconds of `new Date()`, `timestamp` the string
    `new Date().toISOString()`. */
module Api {
  import opened JsCore
  import opened JsString
  import opened Catalog

  datatype QuestionTimer = QuestionTimer(
    questionId: int,
    startTime: int,       // when the question was first accessed; 0 means not yet
    timeRemaining: int,   // seconds left at the last checkpoint
    isExpired: bool,
    lastUpdated: int,     // timestamp of the last checkpoint
    hasBeenAccessed: bool)

  datatype UserAnswer = UserAnswer(questionId: int, answer: string, timeSpent: int)

  datatype ScreeningSession = ScreeningSession(
    email: string,
    startTime: int,
    answers: seq<UserAnswer>,
    currentQuestionIndex: int,
    completed: bool,
    questionTimers: seq<QuestionTimer>,
    globalStartTime: int,
    highestQuestionAccessed: int)

  // ---------------------------------------------------------------------------
  // Session creation

  /** `createNewSession(email)`: one untouched timer per catalog question, in catalog order. */
  function CreateNewSession(email: string, now: int, startDate: int): (s: ScreeningSession)
    ensures |s.questionTimers| == |Questions|
    ensures forall i :: 0 <= i < |Questions| ==>
      var t := s.questionTimers[i];
      t.questionId == Questions[i].id && t.startTime == 0 &&
      t.timeRemaining == Questions[i].timeLimit && !t.isExpired &&
      t.lastUpdated == now && !t.hasBeenAccessed
    ensures s.email == email && s.startTime == startDate && s.globalStartTime == now
    ensures s.answers == [] && s.currentQuestionIndex == 0 && !s.completed
    ensures s.highestQuestionAccessed == 0
  {
    var timers := seq(|Questions|, i requires 0 <= i < |Questions| =>
      QuestionTimer(Questions[i].id, 0, Questions[i].timeLimit, false, now, false));
    ScreeningSession(email, startDate, [], 0, false, timers, now, 0)
  }

  /** The shape every session the program builds keeps: one timer per catalog
      question, id-aligned; untouched timers hold their catalog limit; a timer is
      expired exactly when it was accessed and ran down to 0; and no timer past
      the watermark has been accessed. */
  ghost predicate WellFormed(s: ScreeningSession) {
    && |s.questionTimers| == |Questions|
    && 0 <= s.highestQuestionAccessed <= |Questions|
    && forall i :: 0 <= i < |s.questionTimers| ==>
      var t := s.questionTimers[i];
      && t.questionId == i + 1
      && t.timeRemaining >= 0
      && (t.isExpired <==> t.hasBeenAccessed && t.timeRemaining == 0)
      && (!t.hasBeenAccessed ==> t.startTime == 0 && t.timeRemaining == Questions[i].timeLimit)
      && (t.hasBeenAccessed ==> i + 1 <= s.highestQuestionAccessed)
  }

  lemma NewSessionWellFormed(email: string, now: int, startDate: int)
    ensures WellFormed(CreateNewSession(email, now, startDate))
  {
    var s := CreateNewSession(email, now, startDate);
    IdsDense();
    forall i | 0 <= i < |Questions| ensures Questions[i].timeLimit > 0 {
      CategoriesAndLimits(i);
    }
  }

  // ---------------------------------------------------------------------------
  // The timer mutator

  /** One timer checkpointed: the clamped time, expired exactly when nothing
      was left, stamped `now`, accessed, and a start kept unless it was 0. */
  function TouchTimer(t: QuestionTimer, timeRemaining: int, now: int): (u: QuestionTimer)
    ensures u.questionId == t.questionId
    ensures u.timeRemaining >= 0 && (u.timeRemaining > 0 <==> timeRemaining > 0)
    ensures u.isExpired <==> u.timeRemaining == 0
    ensures timeRemaining >= 0 ==> u.timeRemaining == timeRemaining
    ensures u.lastUpdated == now && u.hasBeenAccessed
    ensures t.startTime != 0 ==> u.startTime == t.startTime
    ensures t.startTime == 0 ==> u.startTime == now
  {
    t.(timeRemaining := Max(0, timeRemaining),
       isExpired := timeRemaining <= 0,
       lastUpdated := now,
       startTime := if t.startTime != 0 then t.startTime else now,
       hasBeenAccessed := true)
  }

  /** The record `updateQuestionTimer(session, questionId, timeRemaining)` builds:
      every timer with that id is checkpointed, every other timer and every other
      field is kept, and the watermark is raised to the id. */
  function UpdatedSession(s: ScreeningSession, questionId: int, timeRemaining: int, now: int): (s': ScreeningSession)
    ensures |s'.questionTimers| == |s.questionTimers|
    ensures forall i :: 0 <= i < |s.questionTimers| && s.questionTimers[i].questionId != questionId ==>
      s'.questionTimers[i] == s.questionTimers[i]
    ensures forall i :: 0 <= i < |s.questionTimers| && s.questionTimers[i].questionId == questionId ==>
      var t, u := s.questionTimers[i], s'.questionTimers[i];
      && u.questionId == questionId
      && u.timeRemaining == Max(0, timeRemaining)
      && (u.isExpired <==> timeRemaining <= 0)
      && u.lastUpdated == now
      && u.hasBeenAccessed
      && (t.startTime != 0 ==> u.startTime == t.startTime)
      && (t.startTime == 0 ==> u.startTime == now)
    ensures s'.highestQuestionAccessed == Max(s.highestQuestionAccessed, questionId)
    ensures s' == s.(questionTimers := s'.questionTimers, highestQuestionAccessed := s'.highestQuestionAccessed)
  {
    var ts := s.questionTimers;
    var timers := seq(|ts|, i requires 0 <= i < |ts| =>
      if ts[i].questionId == questionId then TouchTimer(ts[i], timeRemaining, now) else ts[i]);
    s.(questionTimers := timers, highestQuestionAccessed := Max(s.highestQuestionAccessed, questionId))
  }

  /** Checkpointing twice with the same arguments is the same as checkpointing once. */
  lemma {:induction false} UpdateIdempotent(s: ScreeningSession, questionId: int, timeRemaining: int, now: int)
    ensures var once := UpdatedSession(s, questionId, timeRemaining, now);
      UpdatedSession(once, questionId, timeRemaining, now) == once
  {
    var once := UpdatedSession(s, questionId, timeRemaining, now);
    var twice := UpdatedSession(once, questionId, timeRemaining, now);
    forall i | 0 <= i < |s.questionTimers| ensures twice.questionTimers[i] == once.questionTimers[i] {
      if s.questionTimers[i].questionId == questionId {
        var u, w := once.questionTimers[i], twice.questionTimers[i];
        assert w.startTime == u.startTime;
        assert w == u;
      }
    }
    assert twice.questionTimers == once.questionTimers;
  }

  /** Expiry is not sticky in the mutator itself: checkpointing an expired timer
      with time left clears its flag. Its callers only checkpoint running timers. */
  lemma CheckpointClearsExpiry(s: ScreeningSession, questionId: int, timeRemaining: int, now: int, i: int)
    requires 0 <= i < |s.questionTimers| && s.questionTimers[i].questionId == questionId
    requires s.questionTimers[i].isExpired && timeRemaining > 0
    ensures !UpdatedSession(s, questionId, timeRemaining, now).questionTimers[i].isExpired
    ensures UpdatedSession(s, questionId, timeRemaining, now).questionTimers[i].timeRemaining == timeRemaining
  {
  }

  /** Checkpointing a question of the catalog keeps a session well formed. */
  lemma UpdatePreservesWellFormed(s: ScreeningSession, questionId: int, timeRemaining: int, now: int)
    requires WellFormed(s)
    requires 1 <= questionId <= |Questions|
    ensures WellFormed(UpdatedSession(s, questionId, timeRemaining, now))
  {
    var s' := UpdatedSession(s, questionId, timeRemaining, now);
    forall i | 0 <= i < |s'.questionTimers|
      ensures s'.questionTimers[i].hasBeenAccessed ==> i + 1 <= s'.highestQuestionAccessed
    {
      if s.questionTimers[i].questionId == questionId {
        assert i + 1 == questionId;
      }
    }
  }

  /** `getQuestionTimer(session, questionId)`. */
  function GetQuestionTimer(s: ScreeningSession, questionId: int): (r: Option<QuestionTimer>)
    ensures r.Some? ==> r.value in s.questionTimers && r.value.questionId == questionId
    ensures r.None? <==> forall i :: 0 <= i < |s.questionTimers| ==> s.questionTimers[i].questionId != questionId
  {
    Find(s.questionTimers, (t: QuestionTimer) => t.questionId == questionId)
  }

  /** In a well-formed session, question `id` of the catalog has a timer, the one at index id - 1. */
  lemma TimerLookup(s: ScreeningSession, questionId: int)
    requires WellFormed(s)
    ensures 1 <= questionId <= |Questions| ==> GetQuestionTimer(s, questionId) == Some(s.questionTimers[questionId - 1])
    ensures (questionId < 1 || questionId > |Questions|) ==> GetQuestionTimer(s, questionId) == None
  {
    if 1 <= questionId <= |Questions| {
      FindFirst(s.questionTimers, (t: QuestionTimer) => t.questionId == questionId, questionId - 1);
    }
  }

  // ---------------------------------------------------------------------------
  // Remaining time, rebuilt from the last checkpoint

  /** `Math.floor(ms / 1000)`: the whole seconds in a millisecond delta of either sign. */
  function ElapsedSeconds(ms: int): (k: int)
    ensures k * 1000 <= ms < k * 1000 + 1000
  {
    ms / 1000
  }

  lemma ElapsedSecondsMonotone(a: int, b: int)
    requires a <= b
    ensures ElapsedSeconds(a) <= ElapsedSeconds(b)
  {
  }

  /** `calculateActualTimeRemaining(timer)` at time `now`: an expired timer has
      nothing left, an untouched one has not started to run, and a running one
      has lost the whole seconds elapsed since its checkpoint, down to 0. */
  function CalculateActualTimeRemaining(t: QuestionTimer, now: int): (r: int)
    ensures t.isExpired ==> r == 0
    ensures !t.isExpired && !t.hasBeenAccessed ==> r == t.timeRemaining
    ensures !t.isExpired && t.hasBeenAccessed ==>
      var elapsed := now - t.lastUpdated;
      && r >= 0
      && (r > 0 ==> (t.timeRemaining - r) * 1000 <= elapsed < (t.timeRemaining - r) * 1000 + 1000)
      && (r == 0 ==> t.timeRemaining * 1000 <= elapsed)
  {
    if t.isExpired then 0
    else if !t.hasBeenAccessed then t.timeRemaining
    else Max(0, t.timeRemaining - ElapsedSeconds(now - t.lastUpdated))
  }

  /** The rebuilt remaining time never grows as the clock advances. */
  lemma ActualRemainingNonIncreasing(t: QuestionTimer, now1: int, now2: int)
    requires now1 <= now2
    ensures CalculateActualTimeRemaining(t, now2) <= CalculateActualTimeRemaining(t, now1)
  {
    ElapsedSecondsMonotone(now1 - t.lastUpdated, now2 - t.lastUpdated);
  }

  /** A running timer never reports more than its checkpoint once the clock is past it,
      and never less than 0; read at the checkpoint instant it reports the checkpoint. */
  lemma ActualRemainingBounds(t: QuestionTimer, now: int)
    requires t.timeRemaining >= 0
    ensures 0 <= CalculateActualTimeRemaining(t, now)
    ensures now >= t.lastUpdated ==> CalculateActualTimeRemaining(t, now) <= t.timeRemaining
    ensures !t.isExpired && now == t.lastUpdated ==> CalculateActualTimeRemaining(t, now) == t.timeRemaining
  {
    if now >= t.lastUpdated {
      ElapsedSecondsMonotone(0, now - t.lastUpdated);
    }
  }

  /** A checkpoint read back at the instant it was taken gives the clamped
      value that was stored. */
  lemma CheckpointReadBack(s: ScreeningSession, questionId: int, timeRemaining: int, now: int, i: int)
    requires 0 <= i < |s.questionTimers| && s.questionTimers[i].questionId == questionId
    ensures CalculateActualTimeRemaining(UpdatedSession(s, questionId, timeRemaining, now).questionTimers[i], now)
      == Max(0, timeRemaining)
  {
  }

  // ---------------------------------------------------------------------------
  // Global expiry and the navigation gate

  /** The per-timer test inside `areAllTimersExpired`: an accessed timer that is
      flagged, or whose stored seconds the clock has used up since its checkpoint. */
  predicate TimerDone(t: QuestionTimer, now: int)
    ensures TimerDone(t, now) <==>
      t.hasBeenAccessed && (t.isExpired || t.timeRemaining * 1000 <= now - t.lastUpdated)
  {
    t.hasBeenAccessed && (CalculateActualTimeRemaining(t, now) <= 0 || t.isExpired)
  }

  /** `timers.every(...)` over the per-timer test. */
  function AllDone(ts: seq<QuestionTimer>, now: int): (b: bool)
    ensures b <==> forall i :: 0 <= i < |ts| ==> TimerDone(ts[i], now)
  {
    if ts == [] then true
    else TimerDone(ts[0], now) && AllDone(ts[1..], now)
  }

  /** `areAllTimersExpired(session)`: every timer below the watermark was accessed and has run out. */
  function AreAllTimersExpired(s: ScreeningSession, now: int): (b: bool)
    ensures s.highestQuestionAccessed >= 0 ==>
      (b <==> forall i :: 0 <= i < |s.questionTimers| && i < s.highestQuestionAccessed ==>
        s.questionTimers[i].hasBeenAccessed &&
        (s.questionTimers[i].isExpired || CalculateActualTimeRemaining(s.questionTimers[i], now) <= 0))
  {
    AllDone(Take(s.questionTimers, s.highestQuestionAccessed), now)
  }

  /** With watermark 0 the test holds vacuously; an untouched timer below the watermark makes it fail. */
  lemma AllExpiredCases(s: ScreeningSession, now: int, i: int)
    ensures s.highestQuestionAccessed == 0 ==> AreAllTimersExpired(s, now)
    ensures 0 <= i < |s.questionTimers| && i < s.highestQuestionAccessed && !s.questionTimers[i].hasBeenAccessed ==>
      !AreAllTimersExpired(s, now)
  {
  }

  /** `canAccessQuestion(session, questionId)`: the question after the watermark,
      or any question at or below it. */
  predicate CanAccessQuestion(s: ScreeningSession, questionId: int)
    ensures s.highestQuestionAccessed >= 0 && questionId <= 1 ==> CanAccessQuestion(s, questionId)
  {
    questionId <= s.highestQuestionAccessed + 1
  }

  /** The frontier: with watermark h, questions 1 to h + 1 are open and h + 2 is not. */
  lemma AccessFrontier(s: ScreeningSession, q: int)
    ensures 1 <= q <= s.highestQuestionAccessed + 1 ==> CanAccessQuestion(s, q)
    ensures !CanAccessQuestion(s, s.highestQuestionAccessed + 2)
    ensures CanAccessQuestion(s, q) && !CanAccessQuestion(s, q + 1) ==> q == s.highestQuestionAccessed + 1
  {
  }

  /** After a checkpoint of question `id`, every question up to id + 1 is open,
      and whatever was open before stays open. */
  lemma AccessAfterUpdate(s: ScreeningSession, questionId: int, timeRemaining: int, now: int, q: int)
    requires q <= questionId + 1 || CanAccessQuestion(s, q)
    ensures CanAccessQuestion(UpdatedSession(s, questionId, timeRemaining, now), q)
  {
  }

  /** In a well-formed session every question that was accessed can be revisited. */
  lemma AccessedIsAccessible(s: ScreeningSession, i: int)
    requires WellFormed(s)
    requires 0 <= i < |s.questionTimers| && s.questionTimers[i].hasBeenAccessed
    ensures CanAccessQuestion(s, s.questionTimers[i].questionId)
  {
  }

  // ---------------------------------------------------------------------------
  // Time formatting and the submission table

  /** `formatTime(seconds)`: "<minutes>m <seconds>s". Under a minute the minutes
      read 0, and whole minutes read "0s". */
  function FormatTime(n: int): (text: string)
    ensures |text| >= 5 && text[|text| - 1] == 's'
    ensures n >= 0 ==> text[0] != '-'
    ensures 0 <= n < 60 ==> text == "0m " + IntToDecimal(n) + "s"
    ensures n >= 0 && n % 60 == 0 ==> text == IntToDecimal(n / 60) + "m 0s"
  {
    var d := SplitMinutes(n);
    IntToDecimal(d.minutes) + "m " + IntToDecimal(d.seconds) + "s"
  }

  /** Two texts that read "<a><c><x>" and "<b><c><y>", where c occurs in neither
      a nor b, split at their first c into equal parts. */
  lemma DigitsBeforeMarker(a: string, b: string, c: char, x: string, y: string)
    requires a + [c] + x == b + [c] + y
    requires (forall i :: 0 <= i < |a| ==> a[i] != c) && (forall i :: 0 <= i < |b| ==> b[i] != c)
    ensures a == b && x == y
  {
    var s := a + [c] + x;
    assert s[|a|] == c && s[|b|] == c;
    assert forall i :: 0 <= i < |a| ==> s[i] == a[i];
    assert forall i :: 0 <= i < |b| ==> s[i] == b[i];
    assert |a| == |b|;
    assert a == s[..|a|] && b == s[..|b|];
    assert x == s[|a| + 1..] && y == s[|b| + 1..];
  }

  /** Two "<m>m <s>s" texts whose minute parts contain no 'm' agree part by part. */
  lemma FormatPartsAgree(ma: string, sa: string, mb: string, sb: string)
    requires ma + "m " + sa + "s" == mb + "m " + sb + "s"
    requires (forall i :: 0 <= i < |ma| ==> ma[i] != 'm') && (forall i :: 0 <= i < |mb| ==> mb[i] != 'm')
    ensures ma == mb && sa == sb
  {
    assert ma + "m " + sa + "s" == ma + ['m'] + ([' '] + sa + "s");
    assert mb + "m " + sb + "s" == mb + ['m'] + ([' '] + sb + "s");
    DigitsBeforeMarker(ma, mb, 'm', [' '] + sa + "s", [' '] + sb + "s");
    assert sa + "s" == ([' '] + sa + "s")[1..];
    assert sb + "s" == ([' '] + sb + "s")[1..];
    assert sa == (sa + "s")[..|sa|];
    assert sb == (sb + "s")[..|sb|];
  }

  /** Two non-negative durations that format alike are equal: the text determines the time. */
  lemma FormatTimeInjective(a: int, b: int)
    requires a >= 0 && b >= 0
    requires FormatTime(a) == FormatTime(b)
    ensures a == b
  {
    var da, db := SplitMinutes(a), SplitMinutes(b);
    DecimalAlphabet(da.minutes, 'm');
    DecimalAlphabet(db.minutes, 'm');
    FormatPartsAgree(IntToDecimal(da.minutes), IntToDecimal(da.seconds),
                     IntToDecimal(db.minutes), IntToDecimal(db.seconds));
    IntToDecimalInjective(da.minutes, db.minutes);
    IntToDecimalInjective(da.seconds, db.seconds);
  }

  /** The `reduce` in `calculateTotalTime`: the sum of the answers' time spent. */
  function TotalTimeSpent(answers: seq<UserAnswer>): (n: int)
    ensures (forall i :: 0 <= i < |answers| ==> answers[i].timeSpent >= 0) ==> n >= 0
    ensures (forall i :: 0 <= i < |answers| ==> answers[i].timeSpent == 0) ==> n == 0
  {
    if answers == [] then 0
    else TotalTimeSpent(answers[..|answers| - 1]) + answers[|answers| - 1].timeSpent
  }

  /** Recording one more answer adds its time to the total. */
  lemma TotalTimeAppend(answers: seq<UserAnswer>, a: UserAnswer)
    ensures TotalTimeSpent(answers + [a]) == TotalTimeSpent(answers) + a.timeSpent
  {
    assert (answers + [a])[..|answers|] == answers;
  }

  /** `calculateTotalTime(answers)`: the formatted sum; no answers, or none with
      time spent, read "0m 0s". */
  function CalculateTotalTime(answers: seq<UserAnswer>): (text: string)
    ensures (forall i :: 0 <= i < |answers| ==> answers[i].timeSpent == 0) ==> text == "0m 0s"
    ensures (forall i :: 0 <= i < |answers| ==> answers[i].timeSpent >= 0) ==> |text| > 0 && text[0] != '-'
  {
    FormatTime(TotalTimeSpent(answers))
  }

  type Row = seq<string>

  function IsAnswerTo(id: int): UserAnswer -> bool {
    (a: UserAnswer) => a.questionId == id
  }

  /** The row pushed for one catalog question: its text, the first answer given
      to it or "Not answered", and that answer's formatted time or "N/A". */
  function QuestionRow(q: Question, answers: seq<UserAnswer>): (row: Row)
    ensures |row| == 3 && row[0] == q.question
    ensures (forall i :: 0 <= i < |answers| ==> answers[i].questionId != q.id) ==>
      row[1] == "Not answered" && row[2] == "N/A"
    ensures forall i :: (0 <= i < |answers| && answers[i].questionId == q.id &&
      (forall j :: 0 <= j < i ==> answers[j].questionId != q.id)) ==>
      row[1] == answers[i].answer && row[2] == FormatTime(answers[i].timeSpent)
  {
    var found := Find(answers, IsAnswerTo(q.id));
    assert forall i :: (0 <= i < |answers| && answers[i].questionId == q.id &&
      (forall j :: 0 <= j < i ==> answers[j].questionId != q.id)) ==> found == Some(answers[i]) by {
      forall i | 0 <= i < |answers| && answers[i].questionId == q.id &&
        (forall j :: 0 <= j < i ==> answers[j].questionId != q.id)
        ensures found == Some(answers[i])
      {
        FindFirst(answers, IsAnswerTo(q.id), i);
      }
    }
    [q.question,
     if found.Some? then found.value.answer else "Not answered",
     if found.Some? then FormatTime(found.value.timeSpent) else "N/A"]
  }

  /** The `forEach`/`push` over the catalog: after the header, one row per
      question, in order. */
  method AppendQuestionRows(header: Row, qs: seq<Question>, answers: seq<UserAnswer>) returns (rows: seq<Row>)
    ensures |rows| == |qs| + 1 && rows[0] == header
    ensures forall i :: 0 <= i < |qs| ==> rows[i + 1] == QuestionRow(qs[i], answers)
  {
    rows := [header];
    for i := 0 to |qs|
      invariant |rows| == i + 1 && rows[0] == header
      invariant forall j :: 0 <= j < i ==> rows[j + 1] == QuestionRow(qs[j], answers)
    {
      rows := rows + [QuestionRow(qs[i], answers)];
    }
  }

  /** The table `submitToGoogleSheets` posts: a header row of email, timestamp
      and total time, then one row per catalog question, in catalog order. */
  method BuildSubmissionData(s: ScreeningSession, timestamp: string) returns (rows: seq<Row>)
    ensures |rows| == |Questions| + 1
    ensures rows[0] == [s.email, timestamp, CalculateTotalTime(s.answers)]
    ensures forall i :: 0 <= i < |Questions| ==> rows[i + 1] == QuestionRow(Questions[i], s.answers)
  {
    rows := AppendQuestionRows([s.email, timestamp, CalculateTotalTime(s.answers)], Questions, s.answers);
  }

  // ---------------------------------------------------------------------------
  // The storage slot

  /** The single durable slot (`localStorage` key `screening_session`). */
  class SessionStore {
    var slot: Option<ScreeningSession>

    constructor ()
      ensures slot == None
    {
      slot := None;
    }

    /** `saveSession`: overwrite the slot wholesale. */
    method Save(s: ScreeningSession)
      modifies this
      ensures slot == Some(s)
    {
      slot := Some(s);
    }

    /** `loadSession`: what was last saved, if anything. */
    method Load() returns (r: Option<ScreeningSession>)
      ensures r == slot
    {
      r := slot;
    }

    /** `clearSession`. */
    method Clear()
      modifies this
      ensures slot == None
    {
      slot := None;
    }
  }

  /** `updateQuestionTimer`: build the checkpointed session and save it. */
  method UpdateQuestionTimer(store: SessionStore, s: ScreeningSession, questionId: int, timeRemaining: int, now: int)
    returns (s': ScreeningSession)
    modifies store
    ensures s' == UpdatedSession(s, questionId, timeRemaining, now)
    ensures store.slot == Some(s')
  {
    s' := UpdatedSession(s, questionId, timeRemaining, now);
    store.Save(s');
  }

  // ---------------------------------------------------------------------------
  // Worked cases

  /** A fresh session opens question 1 only; checkpointing question 1 opens question 2. */
  lemma FirstQuestionScenario(now: int, startDate: int, later: int)
    ensures var s := CreateNewSession("a@b.com", now, startDate);
      && CanAccessQuestion(s, 1) && !CanAccessQuestion(s, 2)
      && var s' := UpdatedSession(s, 1, 239, later);
         s'.highestQuestionAccessed == 1 && CanAccessQuestion(s', 2)
  {
  }

  /** A running timer checkpointed at 50 seconds and read a minute later reports 0, not -10. */
  lemma ClampScenario(now: int)
    ensures CalculateActualTimeRemaining(QuestionTimer(6, now - 120000, 50, false, now - 60000, true), now) == 0
  {
  }
}
