/** One model call: the retry loop around single HTTP exchanges. */
module Completion {
  import opened Basics
  import opened Llm

  const MAX_RETRIES: nat := 4

  /** Reading a response body: the fields the pipeline records, or what is missing from it. */
  datatype Reading = Usable(response: Response) | Unusable(message: string)

  /** One HTTP exchange: a response body, a transient failure, or a final one. */
  datatype Post =
    | Delivered(body: string)
    | Busy(retryAfter: Option<Duration>, message: string)
    | Refused(message: string)
    | Oversized(message: string)

  /** Where an attempt finds the context cancelled, if it does. */
  datatype Moment = Calm | AtStart | AtGate | InBackoff

  datatype Completed = Completed(response: Response) | GaveUp(message: string) | Overloaded(message: string) | Interrupted

  /** What the caller and the endpoint do at each attempt, and how bodies are read. */
  datatype Setting = Setting(post: nat -> Post, moment: nat -> Moment, read: string -> Reading, model: string, interval: Duration)

  function ResultOf(s: Setting, p: Post): Completed {
    match p
    case Delivered(body) =>
      (match s.read(body)
       case Usable(r) => Completed(if r.model == "" then r.(model := s.model) else r)
       case Unusable(m) => GaveUp(m))
    case Busy(_, m) => GaveUp(m)
    case Refused(m) => GaveUp(m)
    case Oversized(m) => Overloaded(m)
  }

  /** Attempt i never gets to its request. */
  predicate Stopped(s: Setting, i: nat) {
    s.moment(i) == AtStart || s.moment(i) == AtGate
  }

  /** Attempt i meets a transient failure with attempts left, and so backs off. */
  predicate BacksOff(s: Setting, i: nat) {
    !Stopped(s, i) && s.post(i).Busy? && i < MAX_RETRIES
  }

  /** The first delay is at least a second. */
  function FirstDelay(interval: Duration): (d: Duration)
    ensures d > 0
  {
    if interval > 1_000_000_000 then interval else 1_000_000_000
  }

  /** The pause attempt i takes when it backs off. */
  function PauseOf(s: Setting, i: nat): int
    requires s.interval > 0 && s.post(i).Busy?
  {
    Pause(DelayAfter(FirstDelay(s.interval), i), s.post(i).retryAfter)
  }

  /** The pause of attempt i: the first delay doubled i times, or longer if the server asked so, and never over a minute. */
  ghost predicate PauseIs(s: Setting, i: nat, pause: int) {
    var first := if s.interval as int > 1_000_000_000 then s.interval as int else 1_000_000_000;
    var asked := if s.post(i).Busy? && s.post(i).retryAfter.Some? then s.post(i).retryAfter.value as int else 0;
    var wanted := if asked > first * PowerOfTwo(i) then asked else first * PowerOfTwo(i);
    pause == if wanted > 60_000_000_000 then 60_000_000_000 else wanted
  }

  lemma PauseExactly(s: Setting, i: nat)
    requires s.interval > 0 && s.post(i).Busy?
    ensures PauseIs(s, i, PauseOf(s, i))
  {
    PauseExact(FirstDelay(s.interval), i, s.post(i).retryAfter);
  }

  /** What the caller gets from the exchange that ended the attempts. */
  ghost predicate Answers(s: Setting, p: Post, result: Completed) {
    match p
    case Delivered(body) =>
      (match s.read(body)
       case Usable(r) =>
         result.Completed? && result.response.text == r.text && result.response.inputTokens == r.inputTokens
         && result.response.outputTokens == r.outputTokens
         && result.response.model == if r.model == "" then s.model else r.model
       case Unusable(m) => result == GaveUp(m))
    case Busy(_, m) => result == GaveUp(m)
    case Refused(m) => result == GaveUp(m)
    case Oversized(m) => result == Overloaded(m)
  }

  /** The attempts up to last: each busy and calm before it, at most five in all, and what the last one makes of them. */
  ghost predicate Attempted(s: Setting, result: Completed, last: nat, pauses: seq<int>) {
    && last <= 4
    && (forall i :: 0 <= i < last ==> s.moment(i) == Calm && s.post(i).Busy?)
    && (forall i :: 0 <= i < |pauses| ==> PauseIs(s, i, pauses[i]))
    && if s.moment(last) == AtStart || s.moment(last) == AtGate then
         result == Interrupted && |pauses| == last
       else if s.post(last).Busy? && last < 4 then
         s.moment(last) == InBackoff && result == Interrupted && |pauses| == last + 1
       else
         Answers(s, s.post(last), result) && |pauses| == last
  }

  /**
   * Complete: it goes on to another attempt exactly after an undisturbed backoff, so the
   * last attempt is the first one that does not back off or is cancelled while it does;
   * that attempt alone decides the result, and every backoff paused as specified.
   */
  method Complete(s: Setting) returns (result: Completed, last: nat, pauses: seq<int>)
    requires s.interval > 0
    ensures Attempted(s, result, last, pauses)
    ensures last <= MAX_RETRIES && forall i :: 0 <= i < last ==> BacksOff(s, i) && s.moment(i) != InBackoff
    ensures BacksOff(s, last) ==> s.moment(last) == InBackoff
    ensures result == if Stopped(s, last) || BacksOff(s, last) then Interrupted else ResultOf(s, s.post(last))
    ensures |pauses| == last + if BacksOff(s, last) then 1 else 0
    ensures forall i :: 0 <= i < |pauses| ==> BacksOff(s, i) && pauses[i] == PauseOf(s, i)
  {
    hide PauseIs, Pause;
    var delay := FirstDelay(s.interval);
    pauses := [];
    for attempt := 0 to MAX_RETRIES + 1
      invariant attempt <= MAX_RETRIES && forall i :: 0 <= i < attempt ==> BacksOff(s, i) && s.moment(i) != InBackoff
      invariant |pauses| == attempt && delay == DelayAfter(FirstDelay(s.interval), attempt)
      invariant forall i :: 0 <= i < attempt ==> BacksOff(s, i) && pauses[i] == PauseOf(s, i)
      invariant forall i :: 0 <= i < attempt ==> PauseIs(s, i, pauses[i])
    {
      if s.moment(attempt) == AtStart || s.moment(attempt) == AtGate {
        return Interrupted, attempt, pauses;
      }
      if !s.post(attempt).Busy? || attempt == MAX_RETRIES {
        return ResultOf(s, s.post(attempt)), attempt, pauses;
      }
      pauses := pauses + [Pause(delay, s.post(attempt).retryAfter)];
      PauseExactly(s, attempt);
      if s.moment(attempt) == InBackoff {
        return Interrupted, attempt, pauses;
      }
      NextDelayCaps(delay);
      delay := NextDelay(delay) as Duration;
    }
    assert false;
  }
}
