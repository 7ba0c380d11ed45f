/** What a worker's retry loop can produce, and that every outcome in a run was produced by it. */
module RunnerOutcomes {
  import opened Basics
  import opened Units
  import opened Wire
  import opened Llm
  import opened Ledger
  import opened Runner
  import opened RunnerFrames
  import opened RunnerPool

  // ---------------------------------------------------------- the retry loop

  function Answers(rs: seq<Reply>): seq<Response> {
    if rs == [] then [] else (if rs[0].Answered? then [rs[0].response] else []) + Answers(rs[1..])
  }

  function Garbles(cfg: Config, rs: seq<Reply>): nat {
    if rs == [] then 0 else (if Garbled(cfg, rs[0]) then 1 else 0) + Garbles(cfg, rs[1..])
  }

  predicate Parses(cfg: Config, r: Reply) {
    r.Answered? && cfg.decode(r.response.text).Parsed?
  }

  function PayloadIn(cfg: Config, r: Reply): RawPayload
    requires Parses(cfg, r)
  {
    cfg.decode(r.response.text).payload
  }

  /** An overload, or an answer whose text decodes to a payload. */
  ghost predicate Final(cfg: Config, r: Reply) {
    r.TooLarge? || (r.Answered? && cfg.decode(r.response.text).Parsed?)
  }

  /** k replies were used: none before the last is final, and the last is unless there are no more. */
  ghost predicate Used(cfg: Config, replies: seq<Reply>, k: nat) {
    && 1 <= k <= |replies|
    && (forall i :: 0 <= i < k - 1 ==> !Final(cfg, replies[i]))
    && (k < |replies| ==> Final(cfg, replies[k - 1]))
  }

  ghost predicate EndedBy(cfg: Config, o: Outcome, last: Reply) {
    && (o.wire.Some? <==> Parses(cfg, last))
    && (Parses(cfg, last) ==>
          && o.wire == Some(Payload(PayloadIn(cfg, last))) && o.problems == PayloadProblems(PayloadIn(cfg, last))
          && o.err == "" && o.responses != [] && Last(o.responses) == last.response)
    && (last.CallFailed? ==> o.err == last.message)
    && (last.TooLarge? ==> o.err == "input too large: " + last.message)
    && (Garbled(cfg, last) ==> o.err == "unparseable response: " + cfg.decode(last.response.text).error)
  }

  /** The outcome of the first attempts on the replies, up to the one that ended them. */
  ghost predicate AsReplied(cfg: Config, o: Outcome, replies: seq<Reply>) {
    Used(cfg, replies, o.attempts) && EndedBy(cfg, o, replies[o.attempts - 1])
  }

  lemma AttemptMoves(cfg: Config, o: Outcome, r: Reply, last: bool)
    requires o.wire.None? && o.problems == []
    ensures var t := Attempt(cfg, o, r, last);
            && t.attempts == o.attempts + 1
            && t.responses == o.responses + (if r.Answered? then [r.response] else [])
            && t.repairs == o.repairs + (if Garbled(cfg, r) && !last then 1 else 0)
            && (!Parses(cfg, r) ==> t.wire.None? && t.problems == [])
            && EndedBy(cfg, t, r)
  {
    hide Payload, PayloadProblems;
  }

  lemma {:induction false} CallFromExact(cfg: Config, o: Outcome, replies: seq<Reply>) returns (k: nat)
    requires replies != [] && o.wire.None? && o.problems == []
    ensures var r := CallFrom(cfg, o, replies);
            && Used(cfg, replies, k) && r.attempts == o.attempts + k
            && r.responses == o.responses + Answers(replies[..k])
            && r.repairs == o.repairs + Garbles(cfg, replies[..Min(k, |replies| - 1)])
            && EndedBy(cfg, r, replies[k - 1])
    decreases |replies|
  {
    hide Attempt, EndedBy, Garbled, Parses, Ends, Final;
    var r := replies[0];
    var tried := Attempt(cfg, o, r, |replies| == 1);
    AttemptMoves(cfg, o, r, |replies| == 1);
    EndsUngarbled(cfg, r);
    assert replies[..1] == [r] && replies[..0] == [];
    if Ends(cfg, r) || |replies| == 1 {
      k := 1;
      assert CallFrom(cfg, o, replies) == tried;
      assert Answers([r]) == if r.Answered? then [r.response] else [];
      assert Garbles(cfg, [r]) == if Garbled(cfg, r) then 1 else 0;
      assert Ends(cfg, r) ==> !Garbled(cfg, r) by { EndsUngarbled(cfg, r); }
    } else {
      assert !Parses(cfg, r) by { EndsUngarbled(cfg, r); }
      var rest := CallFromExact(cfg, tried, replies[1..]);
      k := rest + 1;
      Shifted(cfg, replies, rest);
      Shifted(cfg, replies, Min(rest, |replies| - 2));
    }
  }

  lemma EndsUngarbled(cfg: Config, r: Reply)
    ensures Ends(cfg, r) ==> !Garbled(cfg, r)
    ensures !Ends(cfg, r) ==> !Parses(cfg, r)
    ensures Ends(cfg, r) <==> Final(cfg, r)
  {
  }

  lemma Shifted(cfg: Config, replies: seq<Reply>, n: nat)
    requires n < |replies|
    ensures Answers(replies[..n + 1]) == (if replies[0].Answered? then [replies[0].response] else []) + Answers(replies[1..][..n])
    ensures Garbles(cfg, replies[..n + 1]) == (if Garbled(cfg, replies[0]) then 1 else 0) + Garbles(cfg, replies[1..][..n])
  {
    assert replies[..n + 1][1..] == replies[1..][..n];
  }

  /**
   * The retry loop, exactly: it uses replies up to the first parsed answer or overload, or
   * all of them; it keeps every answered response; it holds a payload if and only if the
   * last reply used parsed, and then that payload satisfies every required-field check;
   * and it repairs once per garbled answer that still left an attempt.
   */
  lemma CallUnitExact(cfg: Config, job: Job, replies: seq<Reply>)
    requires replies != []
    ensures var o := CallUnit(cfg, job, replies);
            && o.job == job && Used(cfg, replies, o.attempts)
            && o.responses == Answers(replies[..o.attempts])
            && o.repairs == Garbles(cfg, replies[..Min(o.attempts, |replies| - 1)])
            && EndedBy(cfg, o, replies[o.attempts - 1])
            && (o.wire.Some? ==> Required(o.wire.value))
  {
    hide CallFrom, Required, Payload;
    CallJob(cfg, job, replies);
    var k := CallFromExact(cfg, NoAttempt(job), replies);
    if Parses(cfg, replies[k - 1]) {
      ParsedIsRequired(PayloadIn(cfg, replies[k - 1]));
    }
  }

  // ------------------------------------------------------- produced outcomes

  ghost predicate Produced(cfg: Config, o: Outcome) {
    exists replies :: |replies| == MaxAttempts(cfg) && o == CallUnit(cfg, o.job, replies)
  }

  ghost predicate AllProduced(cfg: Config, os: seq<Outcome>) {
    forall o :: o in os ==> Produced(cfg, o)
  }

  ghost predicate ProducedInv(cfg: Config, s: State) {
    AllProduced(cfg, s.pool.buffer) && AllProduced(cfg, s.received) && AllProduced(cfg, s.lost) && AllProduced(cfg, s.drained)
  }

  /** A parsed payload has its text among the archived responses. */
  lemma ProducedParsed(cfg: Config, o: Outcome)
    requires Produced(cfg, o)
    ensures 1 <= o.attempts <= if cfg.maxAttempts < 1 then 1 else cfg.maxAttempts
    ensures o.wire.Some? ==>
              && Required(o.wire.value) && o.responses != []
              && cfg.decode(Last(o.responses).text).Parsed?
              && o.wire.value == Payload(cfg.decode(Last(o.responses).text).payload)
  {
    hide Required, Payload, CallUnit;
    var replies :| |replies| == MaxAttempts(cfg) && o == CallUnit(cfg, o.job, replies);
    CallUnitExact(cfg, o.job, replies);
  }

  lemma ProducedStep(cfg: Config, s: State, l: Label)
    requires ProducedInv(cfg, s) && Enabled(cfg, s, l)
    ensures ProducedInv(cfg, Apply(cfg, s, l))
  {
    hide Apply, Commit, MeterAfter, CallUnit, PendUnit, WithLedger, Produced, Affordable;
    if ByWorker(l) {
      WorkerFrame(cfg, s, l);
      if l.Answer? { AnswerProduced(cfg, l.job, l.replies); }
    } else if l.Submit? {
      SubmitMoves(cfg, s);
    } else if l.Receive? {
      ReceiveMoves(cfg, s, l.fault);
    } else {
      MainFrame(cfg, s, l);
    }
  }

  lemma AnswerProduced(cfg: Config, job: Job, replies: seq<Reply>)
    requires |replies| == MaxAttempts(cfg)
    ensures Produced(cfg, CallUnit(cfg, job, replies))
  {
    CallJob(cfg, job, replies);
  }

  lemma {:induction false} ProducedAlways(cfg: Config, store: Store, ls: seq<Label>)
    requires Valid(cfg, Init(cfg, store), ls)
    ensures ProducedInv(cfg, After(cfg, Init(cfg, store), ls))
    decreases |ls|
  {
    hide PlanUnits, OpenBooks, Apply, Enabled;
    if ls != [] {
      hide ProducedInv;
      ProducedAlways(cfg, store, Front(ls));
      ProducedStep(cfg, After(cfg, Init(cfg, store), Front(ls)), Last(ls));
    }
  }

  // --------------------------------------------------- jobs name their units

  lemma {:induction false} TimesIn(os: seq<Outcome>, o: Outcome)
    requires o in os
    ensures Times(os, o.job) > 0
  {
    if o != Last(os) { TimesIn(Front(os), o); }
  }

  /** Every received outcome belongs to a submitted unit, and no two to the same one. */
  lemma ReceivedKnown(cfg: Config, store: Store, ls: seq<Label>, o: Outcome)
    requires Valid(cfg, Init(cfg, store), ls)
    requires var s := After(cfg, Init(cfg, store), ls); o in s.received || o in s.lost || o in s.pool.buffer || o in s.drained
    ensures WasSubmitted(After(cfg, Init(cfg, store), ls), o.job)
    ensures var s := After(cfg, Init(cfg, store), ls); Held(s.pool, o.job) + Delivered(s, o.job) == 1
  {
    hide Init, Apply, Enabled, Times;
    var s := After(cfg, Init(cfg, store), ls);
    OnceAlways(cfg, store, ls, o.job);
    if o in s.received { TimesIn(s.received, o); }
    else if o in s.lost { TimesIn(s.lost, o); }
    else if o in s.drained { TimesIn(s.drained, o); }
    else { TimesIn(s.pool.buffer, o); }
  }
}
