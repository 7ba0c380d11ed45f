/** What each kind of step moves and what it leaves alone. */
module RunnerFrames {
  import opened Basics
  import opened Units
  import opened Ledger
  import opened Runner

  predicate ByWorker(l: Label) {
    l.Cancel? || l.Take? || l.Answer? || l.Exit?
  }

  /** A cancellation or a worker touches only the pool. */
  lemma WorkerFrame(cfg: Config, s: State, l: Label)
    requires Enabled(cfg, s, l) && ByWorker(l)
    ensures Apply(cfg, s, l) == s.(pool := Apply(cfg, s, l).pool, cancelled := s.cancelled || l.Cancel?)
    ensures l.Cancel? ==> Apply(cfg, s, l).pool == s.pool
    ensures Apply(cfg, s, l).pool.buffer == s.pool.buffer + if l.Answer? then [CallUnit(cfg, l.job, l.replies)] else []
  {
    hide CallUnit;
  }

  lemma TakeMoves(cfg: Config, s: State)
    requires s.pool.queue != [] && |s.pool.busy| < s.pool.alive
    ensures Enabled(cfg, s, Take)
    ensures Apply(cfg, s, Take) ==
            s.(pool := s.pool.(queue := s.pool.queue[1..], busy := s.pool.busy + multiset{s.pool.queue[0]}))
  {
  }

  lemma AnswerMoves(cfg: Config, s: State, job: Job, replies: seq<Reply>)
    requires job in s.pool.busy && |replies| == MaxAttempts(cfg) && |s.pool.buffer| < Window(cfg)
    ensures Enabled(cfg, s, Answer(job, replies))
    ensures Apply(cfg, s, Answer(job, replies)) ==
            s.(pool := s.pool.(busy := s.pool.busy - multiset{job}, buffer := s.pool.buffer + [CallUnit(cfg, job, replies)]))
  {
    hide CallUnit;
  }

  lemma PollMoves(cfg: Config, s: State)
    requires s.pc == Select && s.cancelled
    ensures Enabled(cfg, s, Poll) && Apply(cfg, s, Poll) == s.(stop := true, pc := Fill)
  {
  }

  lemma SubmitMoves(cfg: Config, s: State)
    requires Enabled(cfg, s, Submit)
    ensures var t, u := Apply(cfg, s, Submit), s.plan.pending[s.next];
            && t.books == WithLedger(s.books, PendUnit(cfg, s.books.store.ledger, u))
            && t == s.(books := t.books, pool := s.pool.(queue := s.pool.queue + [Job(s.next, u)]),
                       next := s.next + 1, inflight := s.inflight + 1, submitted := s.submitted + 1)
  {
    hide PendUnit, WithLedger;
  }

  /** Receiving moves one outcome from the channel to the received or the lost ones. */
  lemma ReceiveMoves(cfg: Config, s: State, fault: Fault)
    requires Enabled(cfg, s, Receive(fault))
    ensures var t, o := Apply(cfg, s, Receive(fault)), s.pool.buffer[0];
            && t.pool == s.pool.(buffer := s.pool.buffer[1..])
            && t.plan == s.plan && t.submitted == s.submitted && t.next == s.next && t.drained == s.drained && t.report == s.report
            && t.meter == MeterAfter(s.meter, o, fault) && t.deferred == s.deferred && t.stop == s.stop
            && t.cancelled == s.cancelled && t.inflight == (if s.inflight > 0 then s.inflight - 1 else 0)
            && if fault.NoFault? && Commit(cfg, s.books, o).Some?
               then t.received == s.received + [o] && t.lost == s.lost && t.pc == Fill
                    && t.books == Commit(cfg, s.books, o).value && t.aborted == s.aborted
               else t.received == s.received && t.lost == s.lost + [o] && t.pc == Closing && t.books == s.books && t.aborted
  {
    hide Commit, MeterAfter;
  }

  /** The same as one equation, when the commit went through. */
  lemma AcceptMoves(cfg: Config, s: State, books: Books)
    requires Enabled(cfg, s, Receive(NoFault)) && s.inflight > 0 && Commit(cfg, s.books, s.pool.buffer[0]) == Some(books)
    ensures var o := s.pool.buffer[0];
            Apply(cfg, s, Receive(NoFault)) ==
            s.(books := books, meter := MeterAfter(s.meter, o, NoFault), pool := s.pool.(buffer := s.pool.buffer[1..]),
               inflight := s.inflight - 1, received := s.received + [o], pc := Fill)
  {
    hide Commit, MeterAfter;
  }

  /** The same as one equation, when it did not. */
  lemma AbortMoves(cfg: Config, s: State, fault: Fault)
    requires Enabled(cfg, s, Receive(fault)) && s.inflight > 0 && !fault.NoFault?
    ensures var o := s.pool.buffer[0];
            Apply(cfg, s, Receive(fault)) ==
            s.(meter := MeterAfter(s.meter, o, fault), pool := s.pool.(buffer := s.pool.buffer[1..]),
               inflight := s.inflight - 1, lost := s.lost + [o], pc := Closing, aborted := true)
  {
    hide Commit, MeterAfter;
  }

  /** The main goroutine's other steps change neither books nor meter nor what was received. */
  lemma MainFrame(cfg: Config, s: State, l: Label)
    requires Enabled(cfg, s, l) && !ByWorker(l) && !l.Submit? && !l.Receive?
    ensures var t := Apply(cfg, s, l);
            && t == s.(pool := t.pool, deferred := t.deferred, report := t.report, stop := t.stop, aborted := t.aborted,
                       pc := t.pc, drained := t.drained)
            && t.pool == s.pool.(closed := t.pool.closed, buffer := t.pool.buffer)
            && (t.stop == (s.stop || l.SeeCancelled? || l.OverBudget? || l.Poll?))
            && (t.aborted == (s.aborted || l.PendFails?))
            && (if l.Discard? then s.pool.buffer != [] && t.pool.buffer == s.pool.buffer[1..]
                                   && t.drained == s.drained + [s.pool.buffer[0]]
                else t.pool.buffer == s.pool.buffer && t.drained == s.drained)
  {
    hide Affordable, FinalReport;
  }

  // One equation for each remaining step.

  lemma CancelMoves(cfg: Config, s: State)
    requires !s.cancelled
    ensures Enabled(cfg, s, Cancel) && Apply(cfg, s, Cancel) == s.(cancelled := true)
  {
  }

  lemma ExitMoves(cfg: Config, s: State)
    requires s.pool.closed && s.pool.queue == [] && |s.pool.busy| < s.pool.alive
    ensures Enabled(cfg, s, Exit) && Apply(cfg, s, Exit) == s.(pool := s.pool.(alive := s.pool.alive - 1))
  {
  }

  lemma StopMoves(cfg: Config, s: State)
    requires Filling(cfg, s)
    ensures s.cancelled ==> Enabled(cfg, s, SeeCancelled) && Apply(cfg, s, SeeCancelled) == s.(stop := true)
    ensures !s.cancelled && !Affordable(cfg, s) ==> Enabled(cfg, s, OverBudget) && Apply(cfg, s, OverBudget) == s.(stop := true)
  {
    hide Affordable;
  }

  lemma PendFailsMoves(cfg: Config, s: State)
    requires Filling(cfg, s) && !s.cancelled && Affordable(cfg, s)
    ensures Enabled(cfg, s, PendFails) && Apply(cfg, s, PendFails) == s.(aborted := true, pc := Closing)
  {
    hide Affordable;
  }

  lemma EndFillMoves(cfg: Config, s: State)
    requires s.pc == Fill && !Filling(cfg, s)
    ensures Enabled(cfg, s, EndFill) && Apply(cfg, s, EndFill) == s.(pc := if s.inflight == 0 then Closing else Select)
  {
  }

  lemma CloseMoves(cfg: Config, s: State)
    requires s.pc == Closing
    ensures Enabled(cfg, s, Close) && Apply(cfg, s, Close) == s.(pool := s.pool.(closed := true), pc := Waiting)
  {
  }

  lemma WaitMoves(cfg: Config, s: State)
    requires s.pc == Waiting && s.pool.alive == 0
    ensures Enabled(cfg, s, Wait) && Apply(cfg, s, Wait) == s.(pc := Drain)
  {
  }

  lemma DiscardMoves(cfg: Config, s: State)
    requires s.pc == Drain && s.pool.buffer != []
    ensures Enabled(cfg, s, Discard)
    ensures Apply(cfg, s, Discard) ==
            s.(pool := s.pool.(buffer := s.pool.buffer[1..]), deferred := s.deferred + 1, drained := s.drained + [s.pool.buffer[0]])
  {
  }

  lemma ConcludeMoves(cfg: Config, s: State)
    requires s.pc == Drain && s.pool.buffer == [] && s.submitted <= |s.plan.pending|
    ensures Enabled(cfg, s, Conclude)
    ensures Apply(cfg, s, Conclude) ==
            if s.aborted then s.(pc := Finished)
            else s.(pc := Finished, report := Some(FinalReport(cfg, s.meter.usage)),
                    deferred := s.deferred + |s.plan.pending| - s.submitted)
  {
    hide FinalReport;
  }

  lemma RoomToSend(cfg: Config, s: State)
    requires |s.pool.queue| < Window(cfg) && Filling(cfg, s) && !s.cancelled && Affordable(cfg, s)
    ensures Enabled(cfg, s, Submit)
  {
    hide Affordable;
  }

  lemma Receivable(cfg: Config, s: State, fault: Fault)
    requires s.pc == Select && s.pool.buffer != [] && FaultFits(fault, s.pool.buffer[0])
    ensures Enabled(cfg, s, Receive(fault))
  {
  }
}
