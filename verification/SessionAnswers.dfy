/** What the arms of the session's loop do (internal/push/session.go), message by message: which request is admitted
    and how, why a session ends, and where an answer comes from. */
module SessionAnswers {
  import opened Common
  import opened SessionSpec

  // ---------- requests ----------

  /** The next message asks for a history. */
  predicate Asks(s: Session, m: Move) { m.SeeRequest? && s.incoming.Some? && s.incoming.value.History? }

  predicate GoodId(id: string) { 0 < |id| <= 64 }

  predicate GoodQuery(q: Query, timeout: nat) {
    && 1 <= q.vm <= 4294967295 && timeout > 0
    && (|| q.timeframe == "hour" || q.timeframe == "day" || q.timeframe == "week"
        || q.timeframe == "month" || q.timeframe == "year")
    && (q.consolidation == "AVERAGE" || q.consolidation == "MAX")
  }

  lemma GoodIsValid(q: Query, timeout: nat)
    ensures GoodQuery(q, timeout) <==> ValidQuery(q) && timeout > 0
  {}

  /** A good request with a new id. */
  predicate Sound(s: Session, m: Move) {
    && Asks(s, m) && GoodId(s.incoming.value.id) && GoodQuery(s.incoming.value.query, s.incoming.value.timeout)
    && s.incoming.value.id !in s.pending
  }

  /** A sound request is admitted exactly with fewer than 32 pending: it gets a task of its own and a context with the
      time it asks for, at most ten seconds. Nothing else starts a task or makes a query pending. */
  lemma AdmittedExactly(s: Session, m: Move)
    requires Enabled(s, m)
    ensures Sound(s, m) && |s.pending| < 32 ==>
              var r, s' := s.incoming.value, After(s, m);
              && s'.ended == s.ended && s'.outgoing == s.outgoing && s'.lastSeen == s.now
              && s'.pending == s.pending[r.id := Job(s.now + (if r.timeout < 10_000 then r.timeout else 10_000), false)]
              && s'.running == s.running + [Task(r.id, r.query, None)]
    ensures !(Sound(s, m) && |s.pending| < 32) ==>
              After(s, m).pending.Keys <= s.pending.Keys && |After(s, m).running| <= |s.running|
  {
    hide ValidQuery, GoodQuery, GoodId, Reply, Handled, Send;
    if Asks(s, m) {
      var r := s.incoming.value;
      GoodIsValid(r.query, r.timeout);
      QueryIsHandled(Heeding(s), r.id, r.query, r.timeout, m.stops);
      SendKeepsPending(Heeding(s), Result(r.id, "", "busy"), Refused(r.id), m.stops);
    } else if m.SeeRequest? {
      OtherIsHandled(Heeding(s), s.incoming.value, m.stops);
    } else if m.SeeCompleted? || m.SeeHeartbeat? {
      SendStartsNothing(s, m);
    }
  }

  lemma OtherIsHandled(s: Session, r: Request, stops: bool)
    requires !r.History?
    ensures var s' := Handled(s, r, stops);
            && s'.pending.Keys == s.pending.Keys && s'.running == s.running && s'.ended == s.ended
  {}

  lemma SendStartsNothing(s: Session, m: Move)
    requires Enabled(s, m) && (m.SeeCompleted? || m.SeeHeartbeat?)
    ensures After(s, m).pending.Keys <= s.pending.Keys && After(s, m).running == s.running
  {
    hide Reply;
  }

  lemma SendKeepsPending(s: Session, m: Message, e: Event, stops: bool)
    ensures Send(s, m, e, stops).pending == s.pending && Send(s, m, e, stops).running == s.running
  {}

  /** The arm for a query, in the order of its tests. */
  lemma QueryIsHandled(s: Session, id: string, q: Query, timeout: nat, stops: bool)
    ensures var s', good := Handled(s, History(id, q, timeout), stops), ValidQuery(q) && timeout > 0;
            && (!GoodId(id) ==> s' == Ended(s, InvalidId))
            && (GoodId(id) && !good ==> s' == Ended(s, InvalidQuery))
            && (GoodId(id) && good && id in s.pending ==> s' == Ended(s, DuplicateId))
            && (GoodId(id) && good && id !in s.pending && |s.pending| >= 32 ==>
                  s' == Send(s, Result(id, "", "busy"), Refused(id), stops))
            && (GoodId(id) && good && id !in s.pending && |s.pending| < 32 ==>
                  var deadline := s.now + (if timeout < 10_000 then timeout else 10_000);
                  s' == s.(pending := s.pending[id := Job(deadline, false)],
                           running := s.running + [Task(id, q, None)], log := s.log + [Admitted(id, q)]))
  {
    hide ValidQuery;
  }

  /** Any other message is taken as a sign of life: a cancellation of a pending query cancels its context, and what is
      no query changes nothing more. */
  lemma OthersAreHeard(s: Session, m: Move)
    requires Enabled(s, m) && m.SeeRequest? && !s.incoming.value.History?
    ensures var s' := After(s, m);
            && s'.ended == s.ended && s'.lastSeen == s.now && s'.running == s.running && s'.outgoing == s.outgoing
            && s'.pending.Keys == s.pending.Keys
            && forall id | id in s.pending ::
                 s'.pending[id] ==
                 if s.incoming.value == Cancel(id) then s.pending[id].(cancelled := true) else s.pending[id]
  {
    hide ValidQuery, Outstanding, Reply;
  }

  // ---------- the end ----------

  /** The arm puts a message on the queue to the stream. */
  predicate Speaks(s: Session, m: Move) {
    || m.SeeCompleted?
    || (Sound(s, m) && |s.pending| >= 32)
    || (m.SeeHeartbeat? && s.now - s.lastSeen <= 60_000)
  }

  predicate Stops(m: Move) { (m.SeeCompleted? || m.SeeRequest? || m.SeeHeartbeat?) && m.stops }

  lemma SendEnds(s: Session, m: Move)
    requires TasksInv(s) && Enabled(s, m) && s.ended.None? && (m.SeeCompleted? || m.SeeHeartbeat?)
    ensures After(s, m).ended ==
            if m.SeeHeartbeat? && s.now - s.lastSeen > 60_000 then Some(HeartbeatTimeout)
            else if Stops(m) then Some(Stopped)
            else if |s.outgoing| >= 64 then Some(QueueFull) else None
    ensures (Stops(m) ==> s.cancelled) && (!Stops(m) && |s.outgoing| >= 64 ==> !s.cancelled)
  {
    hide Reply, Matched;
    if m.SeeCompleted? { TakingIsSafe(s); }
  }

  lemma RequestEnds(s: Session, m: Move)
    requires Enabled(s, m) && s.ended.None? && m.SeeRequest?
    ensures After(s, m).ended ==
            if !Asks(s, m) then None
            else if !GoodId(s.incoming.value.id) then Some(InvalidId)
            else if !GoodQuery(s.incoming.value.query, s.incoming.value.timeout) then Some(InvalidQuery)
            else if s.incoming.value.id in s.pending then Some(DuplicateId)
            else if |s.pending| < 32 then None
            else if Stops(m) then Some(Stopped)
            else if |s.outgoing| >= 64 then Some(QueueFull) else None
    ensures (Stops(m) ==> s.cancelled) && (!Stops(m) && |s.outgoing| >= 64 ==> !s.cancelled)
  {
    hide ValidQuery, GoodQuery, GoodId, Handled;
    if Asks(s, m) {
      var r := s.incoming.value;
      GoodIsValid(r.query, r.timeout);
      QueryIsHandled(Heeding(s), r.id, r.query, r.timeout, m.stops);
    } else {
      OtherIsHandled(Heeding(s), s.incoming.value, m.stops);
    }
  }

  /** Why a session ends, reason by reason; no other move ends it. */
  lemma EndsExactly(s: Session, m: Move)
    requires SessionInv(s) && Enabled(s, m) && s.ended.None?
    ensures var end := After(s, m).ended;
            && (end == Some(StreamFailed) <==> m.SeeFailure?)
            && (end == Some(HeartbeatTimeout) <==> m.SeeHeartbeat? && s.now - s.lastSeen > 60_000)
            && (end == Some(CapabilitiesChanged) <==>
                  m.SeeCheck? && m.current.Some?
                  && (m.current.value.history != s.caps.history || m.current.value.version != s.caps.version))
            && (end == Some(InvalidId) <==> Asks(s, m) && !GoodId(s.incoming.value.id))
            && (end == Some(InvalidQuery) <==>
                  Asks(s, m) && GoodId(s.incoming.value.id)
                  && !GoodQuery(s.incoming.value.query, s.incoming.value.timeout))
            && (end == Some(DuplicateId) <==>
                  Asks(s, m) && GoodId(s.incoming.value.id)
                  && GoodQuery(s.incoming.value.query, s.incoming.value.timeout) && s.incoming.value.id in s.pending)
            && (end == Some(QueueFull) <==> Speaks(s, m) && !Stops(m) && |s.outgoing| >= 64)
            && (end == Some(Stopped) <==> m.SeeStop? || (Speaks(s, m) && Stops(m)))
            && end != Some(Panicked)
            && (end == Some(Stopped) ==> s.cancelled) && (end == Some(QueueFull) ==> !s.cancelled)
  {
    hide ValidQuery, GoodQuery, GoodId, Reply, Handled, Send, Stops, TasksInv, ChannelsInv, LogInv;
    if m.SeeRequest? {
      RequestEnds(s, m);
    } else if m.SeeCompleted? || m.SeeHeartbeat? {
      SendEnds(s, m);
    }
  }

  /** The stream fails when a receive or a send does: that goroutine ends, and its error waits for the loop. */
  lemma FailuresAreTold(s: Session, m: Move)
    requires Enabled(s, m)
    ensures var s' := After(s, m);
            && s'.failures == s.failures + (if m.ReceiveFails? || (m.Write? && !m.ok) then 1 else 0)
            && (s.reader && !s'.reader <==> m.ReceiveFails? || m.ReaderStops?)
            && (s.writer && !s'.writer <==> (m.Write? && !m.ok) || (m.WriterStops? && s.writer))
            && (m.Write? ==>
                  s.outgoing != [] && s'.taken == s.taken + [s.outgoing[0]] && s'.outgoing == s.outgoing[1..])
  {
    hide ValidQuery, Reply, Handled, Send;
    if m.SeeRequest? { HandledKeepsStream(Heeding(s), s.incoming.value, m.stops); }
    if m.SeeCompleted? || m.SeeHeartbeat? { SendKeepsStream(s, m); }
  }

  lemma HandledKeepsStream(s: Session, r: Request, stops: bool)
    ensures var s' := Handled(s, r, stops); s'.failures == s.failures && s'.reader == s.reader && s'.writer == s.writer
  {
    hide ValidQuery;
  }

  lemma SendKeepsStream(s: Session, m: Move)
    requires Enabled(s, m) && (m.SeeCompleted? || m.SeeHeartbeat?)
    ensures var s' := After(s, m); s'.failures == s.failures && s'.reader == s.reader && s'.writer == s.writer
  {
    hide Reply;
  }

  // ---------- where an answer comes from ----------

  /** At step `m` task `j` put this result on the channel. */
  predicate Delivers(ss: seq<Session>, moves: seq<Move>, m: nat, t: Task) {
    && m < |moves| && m < |ss| && moves[m].Deliver? && moves[m].k < |ss[m].running|
    && ss[m].running[moves[m].k].id == t.id && ss[m].running[moves[m].k].query == t.query
    && t.outcome == Some(moves[m].outcome)
  }

  lemma MoveCompletes(s: Session, m: Move, i: nat)
    requires Enabled(s, m) && i < |After(s, m).completed|
    ensures var t := After(s, m).completed[i];
            t in s.completed || (m.Deliver? && m.k < |s.running| && t == s.running[m.k].(outcome := Some(m.outcome)))
  {
    hide ValidQuery, Outstanding, Reply, Handled, Send;
    if m.SeeRequest? { HandledRest(Heeding(s), s.incoming.value, m.stops); }
    if m.SeeCompleted? || m.SeeHeartbeat? { SendRest(s, m); }
  }

  /** Handling a request completes nothing, and no answer comes of it. */
  lemma HandledRest(s: Session, r: Request, stops: bool)
    ensures var s' := Handled(s, r, stops);
            && s'.completed == s.completed && s.log <= s'.log && |s'.log| <= |s.log| + 1
            && (|s'.log| > |s.log| ==> !s'.log[|s.log|].Answered?)
  {
    hide ValidQuery;
  }

  lemma SendRest(s: Session, m: Move)
    requires Enabled(s, m) && (m.SeeCompleted? || m.SeeHeartbeat?)
    ensures var s' := After(s, m);
            && (forall i | 0 <= i < |s'.completed| :: s'.completed[i] in s.completed)
            && s.log <= s'.log && |s'.log| <= |s.log| + 1
            && (|s'.log| > |s.log| && s'.log[|s.log|].Answered? ==>
                  && m.SeeCompleted? && s.completed != [] && s.completed[0].outcome.Some?
                  && s'.log[|s.log|] == Answered(s.completed[0].id, s.completed[0].query, s.completed[0].outcome.value))
  {
    hide Reply;
  }


  lemma {:induction false} CompletedWasDelivered(ss: seq<Session>, moves: seq<Move>, k: nat, i: nat) returns (m: nat)
    requires Run(ss, moves) && k < |ss| && i < |ss[k].completed|
    ensures m < k && Delivers(ss, moves, m, ss[k].completed[i])
  {
    hide After, Enabled;
    assert k > 0;
    assert ss[k] == After(ss[k - 1], moves[k - 1]);
    MoveCompletes(ss[k - 1], moves[k - 1], i);
    if ss[k].completed[i] in ss[k - 1].completed {
      var j :| 0 <= j < |ss[k - 1].completed| && ss[k - 1].completed[j] == ss[k].completed[i];
      m := CompletedWasDelivered(ss, moves, k - 1, j);
    } else {
      m := k - 1;
    }
  }

  lemma MoveLogs(s: Session, m: Move)
    requires Enabled(s, m)
    ensures s.log <= After(s, m).log && |After(s, m).log| <= |s.log| + 2
    ensures forall n | |s.log| <= n < |After(s, m).log| && After(s, m).log[n].Answered? ::
              m.SeeCompleted? && s.completed != [] && s.completed[0].outcome.Some?
              && After(s, m).log[n] == Answered(s.completed[0].id, s.completed[0].query, s.completed[0].outcome.value)
  {
    hide ValidQuery, Outstanding, Reply, Handled, Send;
    if m.SeeRequest? { HandledRest(Heeding(s), s.incoming.value, m.stops); }
    if m.SeeCompleted? || m.SeeHeartbeat? { SendRest(s, m); }
  }

  /** Every answer is the outcome that the helper gave for that id and query. */
  lemma {:induction false} AnswerWasDelivered(ss: seq<Session>, moves: seq<Move>, k: nat, n: nat) returns (m: nat)
    requires Run(ss, moves) && k < |ss| && n < |ss[k].log| && ss[k].log[n].Answered?
    ensures m < k && var e := ss[k].log[n]; Delivers(ss, moves, m, Task(e.id, e.query, Some(e.outcome)))
  {
    hide After, Enabled, Delivers;
    assert k > 0;
    assert ss[k] == After(ss[k - 1], moves[k - 1]);
    MoveLogs(ss[k - 1], moves[k - 1]);
    if n < |ss[k - 1].log| {
      m := AnswerWasDelivered(ss, moves, k - 1, n);
    } else {
      m := CompletedWasDelivered(ss, moves, k - 1, 0);
    }
  }
}
