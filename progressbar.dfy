/** The progress indicator: one dot per question, coloured by a four-way
    classification of that question's timer, with the current question's dot
    enlarged. */
module ProgressView {
  import opened JsCore
  import opened Api

  datatype Status = NotStarted | Expired | Warning | Active

  /** `timers[index]`, which is undefined when there are no timers or the index is out of range. */
  function TimerAt(timers: Option<seq<QuestionTimer>>, index: int): (r: Option<QuestionTimer>)
    ensures r.Some? <==> timers.Some? && 0 <= index < |timers.value|
    ensures r.Some? ==> r.value == timers.value[index]
  {
    if timers.Some? && 0 <= index < |timers.value| then Some(timers.value[index]) else None
  }

  /** `getQuestionStatus(index)`: untouched timers are not started whatever
      their time; an accessed timer is expired when flagged or at 0, which wins
      over the 30-second warning. */
  function GetQuestionStatus(timers: Option<seq<QuestionTimer>>, index: int): (st: Status)
    ensures st == NotStarted <==> TimerAt(timers, index).None? || !TimerAt(timers, index).value.hasBeenAccessed
    ensures st == Expired <==> (TimerAt(timers, index).Some? &&
      var t := TimerAt(timers, index).value;
      t.hasBeenAccessed && (t.isExpired || t.timeRemaining <= 0))
    ensures st == Warning <==> (TimerAt(timers, index).Some? &&
      var t := TimerAt(timers, index).value;
      t.hasBeenAccessed && !t.isExpired && 0 < t.timeRemaining <= 30)
    ensures st == Active <==> (TimerAt(timers, index).Some? &&
      var t := TimerAt(timers, index).value;
      t.hasBeenAccessed && !t.isExpired && t.timeRemaining > 30)
  {
    match TimerAt(timers, index)
    case None => NotStarted
    case Some(t) =>
      if !t.hasBeenAccessed then NotStarted
      else if t.isExpired || t.timeRemaining <= 0 then Expired
      else if t.timeRemaining <= 30 then Warning
      else Active
  }

  /** Over a well-formed session's timers, a catalog question's dot is not
      started exactly when it was never accessed and expired exactly when its
      timer is flagged expired. */
  lemma StatusInSession(s: ScreeningSession, i: int)
    requires WellFormed(s)
    requires 0 <= i < |s.questionTimers|
    ensures GetQuestionStatus(Some(s.questionTimers), i) == NotStarted <==> !s.questionTimers[i].hasBeenAccessed
    ensures GetQuestionStatus(Some(s.questionTimers), i) == Expired <==> s.questionTimers[i].isExpired
  {
  }

  /** `getStatusColor(status, isCurrent)`: red for expired, orange for warning,
      zinc otherwise; a current dot carries extra classes (scaled up, and pulsing
      on a warning), a non-current dot the colour alone. */
  function GetStatusColor(status: Status, isCurrent: bool): (c: string)
    ensures status == Expired ==> |c| >= 6 && c[..6] == "bg-red"
    ensures status == Warning ==> |c| >= 9 && c[..9] == "bg-orange"
    ensures status == Active || status == NotStarted ==> |c| >= 7 && c[..7] == "bg-zinc"
    ensures isCurrent <==> ' ' in c
    ensures c == "bg-orange-500 scale-125 animate-pulse" <==> status == Warning && isCurrent
  {
    if isCurrent then
      match status
      case Expired => "bg-red-500 scale-125"
      case Warning => "bg-orange-500 scale-125 animate-pulse"
      case Active => "bg-zinc-600 scale-125"
      case NotStarted => "bg-zinc-400 scale-125"
    else
      match status
      case Expired => "bg-red-400"
      case Warning => "bg-orange-400"
      case Active => "bg-zinc-700"
      case NotStarted => "bg-zinc-300"
  }

  /** Each status, current or not, gets its own colour class, so the dot shows both. */
  lemma StatusColorInjective(a: Status, ca: bool, b: Status, cb: bool)
    requires GetStatusColor(a, ca) == GetStatusColor(b, cb)
    ensures a == b && ca == cb
  {
    var x, y := GetStatusColor(a, ca), GetStatusColor(b, cb);
    assert x[3] == y[3] && x[7] == y[7] && |x| == |y|;
  }

  datatype Dot = Dot(status: Status, isCurrent: bool)

  /** The dots row: `Array.from({ length: total }, (_, i) => ...)`, dot i being current when i = current - 1. */
  function Dots(timers: Option<seq<QuestionTimer>>, total: int, current: int): (ds: seq<Dot>)
    ensures |ds| == Max(0, total)
    ensures forall i :: 0 <= i < |ds| ==> ds[i].status == GetQuestionStatus(timers, i)
    ensures forall i :: 0 <= i < |ds| ==> (ds[i].isCurrent <==> i == current - 1)
  {
    seq(Max(0, total), i => Dot(GetQuestionStatus(timers, i), i == current - 1))
  }

  function CountCurrent(ds: seq<Dot>): nat {
    if ds == [] then 0 else (if ds[0].isCurrent then 1 else 0) + CountCurrent(ds[1..])
  }

  lemma {:induction false} CountCurrentAt(ds: seq<Dot>, k: int)
    requires forall i :: 0 <= i < |ds| ==> (ds[i].isCurrent <==> i == k)
    ensures CountCurrent(ds) == if 0 <= k < |ds| then 1 else 0
  {
    if ds != [] {
      CountCurrentAt(ds[1..], k - 1);
    }
  }

  /** Exactly one dot is current when `current` is a question number in range, none otherwise. */
  lemma CurrentDotCount(timers: Option<seq<QuestionTimer>>, total: int, current: int)
    ensures CountCurrent(Dots(timers, total, current)) == if 1 <= current <= total then 1 else 0
  {
    CountCurrentAt(Dots(timers, total, current), current - 1);
  }
}
