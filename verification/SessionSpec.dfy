/** A node's query session (internal/push/session.go): one loop owns `pending`, and meets its reader, its
    writer and the admitted tasks only over bounded channels. */
module SessionSpec {
  import opened Common
  import HistorySpec

  type Query = HistorySpec.Query

  const MAX_PENDING := 32
  const COMPLETED_SLOTS := 32
  const OUTGOING_SLOTS := 64
  const FAILURE_SLOTS := 2
  const MAX_ID := 64
  const SILENCE: nat := 60 * SECOND
  const MAX_VM := 4294967295

  // ---------- messages ----------

  /** A message from the dashboard as its getters read it. An id is a sequence of bytes. */
  datatype Request = Cancel(id: string) | History(id: string, query: Query, timeout: nat) | Unknown

  datatype Capabilities = Capabilities(history: bool, version: string)

  datatype Message =
    | Hello(caps: Capabilities)
    | Result(id: string, json: string, error: string)
    | Heartbeat

  /** What the helper client returns, and the error `errors.Is` recognises in it. */
  datatype HelperError = NoError | ErrBusy | ErrUnsupported | ErrVMNotFound | DeadlineExceeded | OtherError

  datatype Outcome = Outcome(raw: string, err: HelperError)

  /** `historyResult`. */
  function Reply(id: string, o: Outcome): Message {
    Result(id, o.raw,
           match o.err
           case NoError => ""
           case ErrBusy => "busy"
           case ErrUnsupported => "unsupported"
           case ErrVMNotFound => "vm_not_found"
           case DeadlineExceeded => "deadline_exceeded"
           case OtherError => "source_unavailable")
  }

  predicate ValidQuery(q: Query) {
    && 1 <= q.vm <= MAX_VM
    && q.timeframe in {"hour", "day", "week", "month", "year"}
    && q.consolidation in {"AVERAGE", "MAX"}
  }

  // ---------- the session ----------

  /** A goroutine started for an admitted query, and its result once it has one. */
  datatype Task = Task(id: string, query: Query, outcome: Option<Outcome>)

  /** The context whose cancel function `pending` holds. */
  datatype Job = Job(deadline: Time, cancelled: bool)

  datatype End =
    | Stopped | StreamFailed | QueueFull | InvalidId | InvalidQuery | DuplicateId | HeartbeatTimeout
    | CapabilitiesChanged | Panicked

  /** What the loop has done so far. */
  datatype Event =
    | Heard(at: Time)
    | Admitted(id: string, query: Query)
    | Answered(id: string, query: Query, outcome: Outcome)
    | Refused(id: string)
    | Beat(at: Time)

  /** `running` and `completed` hold the goroutines that have not sent yet and the `completed` channel.
      `taken` is what the writer has handed to the stream. `cancelled`: the session's context is done. */
  datatype Session = Session(
    now: Time, start: Time, caps: Capabilities,
    pending: map<string, Job>, running: seq<Task>, completed: seq<Task>,
    incoming: Option<Request>, outgoing: seq<Message>, taken: seq<Message>,
    reader: bool, writer: bool, failures: nat,
    lastSeen: Time, cancelled: bool, ended: Option<End>, log: seq<Event>)

  function Opened(now: Time, caps: Capabilities): Session {
    Session(now, now, caps, map[], [], [], None, [], [Hello(caps)], true, true, 0, now, false, None, [])
  }

  datatype Move =
    // the surroundings
    | Tick(later: Time)
    | ParentStops
    // the reader, the writer and the admitted queries
    | Receive(m: Request)
    | ReceiveFails
    | ReaderStops
    | Write(ok: bool)
    | WriterStops
    | Deliver(k: nat, outcome: Outcome)
    | Abandon(k: nat)
    // the arms of the loop; `stops`: a send found the context done
    | SeeStop
    | SeeFailure
    | SeeCompleted(stops: bool)
    | SeeRequest(stops: bool)
    | SeeHeartbeat(stops: bool)
    | SeeCheck(current: Option<Capabilities>)

  function Ended(s: Session, why: End): Session { s.(ended := Some(why), cancelled := true) }

  /** `send`: never blocks. `e` is recorded if the message was queued. */
  function Send(s: Session, m: Message, e: Event, stops: bool): Session {
    if stops then Ended(s, Stopped)
    else if |s.outgoing| < OUTGOING_SLOTS then s.(outgoing := s.outgoing + [m], log := s.log + [e])
    else Ended(s, QueueFull)
  }

  /** Which of the ready cases `send` may take. */
  predicate MaySend(s: Session, stops: bool) {
    && (stops ==> s.cancelled)
    && (s.cancelled && |s.outgoing| >= OUTGOING_SLOTS ==> stops)
  }

  function Limit(timeout: nat): nat { if timeout < 10 * SECOND then timeout else 10 * SECOND }

  /** Lines 144-181 for a message already taken from `incoming`. */
  function Handled(s: Session, m: Request, stops: bool): Session {
    match m
    case Cancel(id) => if id in s.pending then s.(pending := s.pending[id := s.pending[id].(cancelled := true)]) else s
    case Unknown => s
    case History(id, query, timeout) =>
      if id == "" || |id| > MAX_ID then Ended(s, InvalidId)
      else if !ValidQuery(query) || timeout == 0 then Ended(s, InvalidQuery)
      else if id in s.pending then Ended(s, DuplicateId)
      else if |s.pending| >= MAX_PENDING then Send(s, Result(id, "", "busy"), Refused(id), stops)
      else s.(pending := s.pending[id := Job(s.now + Limit(timeout), false)],
              running := s.running + [Task(id, query, None)],
              log := s.log + [Admitted(id, query)])
  }

  /** The session once the loop has taken the first result off the channel. */
  function Popped(s: Session): Session
    requires s.completed != []
  {
    s.(completed := s.completed[1..], pending := s.pending - {s.completed[0].id})
  }

  /** The session once the loop has taken the request off `incoming`. */
  function Heeding(s: Session): Session { s.(incoming := None, lastSeen := s.now, log := s.log + [Heard(s.now)]) }

  predicate IsArm(m: Move) {
    m.SeeStop? || m.SeeFailure? || m.SeeCompleted? || m.SeeRequest? || m.SeeHeartbeat? || m.SeeCheck?
  }

  predicate Enabled(s: Session, m: Move) {
    && (IsArm(m) ==> s.ended.None?)
    && match m
       case Tick(later) => later >= s.now
       case ParentStops => true
       case Receive(_) => s.reader && s.incoming.None?
       case ReceiveFails => s.reader && s.failures < FAILURE_SLOTS
       case ReaderStops => s.reader && s.cancelled
       case Write(ok) => s.writer && s.outgoing != [] && (ok || s.failures < FAILURE_SLOTS)
       case WriterStops => s.writer && s.cancelled
       case Deliver(k, _) => k < |s.running| && |s.completed| < COMPLETED_SLOTS
       case Abandon(k) => k < |s.running| && s.cancelled
       case SeeStop => s.cancelled
       case SeeFailure => s.failures > 0
       case SeeCompleted(stops) => s.completed != [] && MaySend(s, stops)
       case SeeRequest(stops) => s.incoming.Some? && MaySend(s, stops)
       case SeeHeartbeat(stops) => MaySend(s, stops)
       case SeeCheck(_) => true
  }

  /** A completed message that is nil, or whose cancel function is, would panic. */
  function After(s: Session, m: Move): Session
    requires Enabled(s, m)
  {
    match m
    case Tick(later) => s.(now := later)
    case ParentStops => s.(cancelled := true)
    case Receive(r) => s.(incoming := Some(r))
    case ReceiveFails => s.(reader := false, failures := s.failures + 1)
    case ReaderStops => s.(reader := false)
    case Write(ok) =>
      var t := s.(outgoing := s.outgoing[1..], taken := s.taken + [s.outgoing[0]]);
      if ok then t else t.(writer := false, failures := s.failures + 1)
    case WriterStops => s.(writer := false)
    case Deliver(k, o) =>
      s.(running := s.running[..k] + s.running[k + 1..], completed := s.completed + [s.running[k].(outcome := Some(o))])
    case Abandon(k) => s.(running := s.running[..k] + s.running[k + 1..])
    case SeeStop => Ended(s, Stopped)
    case SeeFailure => Ended(s, StreamFailed)
    case SeeCompleted(stops) =>
      var t := s.completed[0];
      if t.id !in s.pending || t.outcome.None? then Ended(s, Panicked)
      else Send(Popped(s), Reply(t.id, t.outcome.value), Answered(t.id, t.query, t.outcome.value), stops)
    case SeeRequest(stops) =>
      Handled(Heeding(s), s.incoming.value, stops)
    case SeeHeartbeat(stops) =>
      if s.now - s.lastSeen > SILENCE then Ended(s, HeartbeatTimeout) else Send(s, Heartbeat, Beat(s.now), stops)
    case SeeCheck(current) =>
      if current.Some? && current.value != s.caps then Ended(s, CapabilitiesChanged) else s
  }

  // ---------- what a log should look like ----------

  /** The queries admitted and not answered yet. */
  ghost function Outstanding(log: seq<Event>): map<string, Query> {
    if log == [] then map[]
    else
      var rest := Outstanding(log[..|log| - 1]);
      match log[|log| - 1]
      case Admitted(id, query) => rest[id := query]
      case Answered(id, _, _) => rest - {id}
      case _ => rest
  }

  ghost function LastHeard(start: Time, log: seq<Event>): Time {
    if log == [] then start
    else match log[|log| - 1]
         case Heard(at) => at
         case _ => LastHeard(start, log[..|log| - 1])
  }

  /** May `e` follow `log`? */
  ghost predicate Follows(start: Time, log: seq<Event>, e: Event) {
    match e
    case Heard(_) => true
    case Admitted(id, query) =>
      id !in Outstanding(log) && |Outstanding(log)| < 32 && ValidQuery(query) && 1 <= |id| <= 64
    case Answered(id, query, _) => id in Outstanding(log) && Outstanding(log)[id] == query
    case Refused(id) => id !in Outstanding(log) && |Outstanding(log)| == 32
    case Beat(at) => at - LastHeard(start, log) <= 60 * SECOND
  }

  ghost predicate WellFormed(start: Time, log: seq<Event>) {
    forall j | 0 <= j < |log| :: Follows(start, log[..j], log[j])
  }

  /** What an event puts on the stream: an answer carries the helper's bytes and the code of its error. */
  ghost function Said(e: Event): seq<Message> {
    match e
    case Answered(id, _, o) =>
      [Result(id, o.raw,
              match o.err
              case NoError => ""
              case ErrBusy => "busy"
              case ErrUnsupported => "unsupported"
              case ErrVMNotFound => "vm_not_found"
              case DeadlineExceeded => "deadline_exceeded"
              case OtherError => "source_unavailable")]
    case Refused(id) => [Result(id, "", "busy")]
    case Beat(_) => [Heartbeat]
    case _ => []
  }

  /** The messages these events put on the stream, in order. */
  ghost function Messages(log: seq<Event>): seq<Message> {
    if log == [] then [] else Messages(log[..|log| - 1]) + Said(log[|log| - 1])
  }

  lemma SaidIs(e: Event)
    ensures Said(e) == match e
                       case Answered(id, _, outcome) => [Reply(id, outcome)]
                       case Refused(id) => [Result(id, "", "busy")]
                       case Beat(_) => [Heartbeat]
                       case _ => []
  {}

  lemma LogGrows(start: Time, log: seq<Event>, e: Event)
    requires WellFormed(start, log) && Follows(start, log, e)
    ensures WellFormed(start, log + [e]) && (log + [e])[..|log|] == log
  {
    var log' := log + [e];
    forall j | 0 <= j < |log'| ensures Follows(start, log'[..j], log'[j]) {
      assert log'[..j] == log[..j];
      if j == |log| { assert log[..j] == log; }
    }
    assert log'[..|log|] == log;
  }

  // ---------- the invariant ----------

  ghost function Ids(ts: seq<Task>): seq<string> { seq(|ts|, i requires 0 <= i < |ts| => ts[i].id) }

  /** The ids with a task still running or a result still queued. */
  ghost function InFlight(running: seq<Task>, completed: seq<Task>): multiset<string> {
    multiset(Ids(running)) + multiset(Ids(completed))
  }

  /** Every running task and every queued result belongs to a pending id of its own, and each pending id
      has one of the two, unless shutdown (`loose`) let tasks go without a result. */
  ghost predicate Matched(keys: set<string>, running: seq<Task>, completed: seq<Task>, loose: bool) {
    && InFlight(running, completed) <= multiset(keys)
    && (!loose ==> InFlight(running, completed) == multiset(keys))
  }

  ghost predicate TasksInv(s: Session) {
    && Matched(s.pending.Keys, s.running, s.completed, s.cancelled)
    && |s.pending.Keys| <= MAX_PENDING
    && (forall k | 0 <= k < |s.completed| :: s.completed[k].outcome.Some?)
  }

  ghost predicate ChannelsInv(s: Session) {
    && |s.outgoing| <= OUTGOING_SLOTS
    && s.failures + (if s.reader then 1 else 0) + (if s.writer then 1 else 0) <= FAILURE_SLOTS
    && (s.ended.Some? ==> s.cancelled && s.ended.value != Panicked)
    && s.lastSeen <= s.now
    && s.taken + s.outgoing == [Hello(s.caps)] + Messages(s.log)
  }

  /** The queries that tasks and results carry are those that were admitted. */
  ghost predicate Asked(ts: seq<Task>, open: map<string, Query>) {
    forall k | 0 <= k < |ts| :: ts[k].id in open && ts[k].query == open[ts[k].id]
  }

  ghost predicate LogInv(s: Session) {
    && WellFormed(s.start, s.log)
    && (s.ended.None? ==>
          && s.lastSeen == LastHeard(s.start, s.log)
          && Outstanding(s.log).Keys == s.pending.Keys
          && Asked(s.running, Outstanding(s.log)) && Asked(s.completed, Outstanding(s.log)))
  }

  ghost predicate SessionInv(s: Session) { TasksInv(s) && ChannelsInv(s) && LogInv(s) }

  lemma IdsSplit(a: seq<Task>, b: seq<Task>)
    ensures Ids(a + b) == Ids(a) + Ids(b)
  {}

  lemma IdsRemoved(ts: seq<Task>, k: nat)
    requires k < |ts|
    ensures multiset(Ids(ts)) == multiset(Ids(ts[..k] + ts[k + 1..])) + multiset{ts[k].id}
  {
    assert ts == ts[..k] + [ts[k]] + ts[k + 1..];
    IdsSplit(ts[..k] + [ts[k]], ts[k + 1..]);
    IdsSplit(ts[..k], [ts[k]]);
    IdsSplit(ts[..k], ts[k + 1..]);
    assert Ids([ts[k]]) == [ts[k].id];
  }

  lemma IdsAdded(ts: seq<Task>, t: Task)
    ensures multiset(Ids(ts + [t])) == multiset(Ids(ts)) + multiset{t.id}
  {
    IdsSplit(ts, [t]);
    assert Ids([t]) == [t.id];
  }

  // ---------- the counting ----------

  /** Tasks and results together are no more than the pending ids. */
  lemma InFlightBounded(keys: set<string>, running: seq<Task>, completed: seq<Task>, loose: bool)
    requires Matched(keys, running, completed, loose)
    ensures |running| + |completed| <= |keys|
  {
    var rest := multiset(keys) - InFlight(running, completed);
    assert multiset(keys) == InFlight(running, completed) + rest;
    assert |multiset(keys)| == |InFlight(running, completed)| + |rest|;
  }

  /** The cancel function the loop looks up on completion always exists. */
  lemma CompletionIsPending(keys: set<string>, running: seq<Task>, completed: seq<Task>, loose: bool, k: nat)
    requires Matched(keys, running, completed, loose) && k < |completed|
    ensures completed[k].id in keys
  {
    assert Ids(completed)[k] in multiset(Ids(completed));
    assert Ids(completed)[k] in InFlight(running, completed);
  }

  lemma Loosened(keys: set<string>, running: seq<Task>, completed: seq<Task>, loose: bool)
    requires Matched(keys, running, completed, loose)
    ensures Matched(keys, running, completed, true)
  {}

  lemma MatchedDelivery(keys: set<string>, running: seq<Task>, completed: seq<Task>, loose: bool, k: nat,
                        o: Option<Outcome>)
    requires Matched(keys, running, completed, loose) && k < |running|
    ensures Matched(keys, running[..k] + running[k + 1..], completed + [running[k].(outcome := o)], loose)
  {
    IdsRemoved(running, k);
    IdsAdded(completed, running[k].(outcome := o));
    hide Ids;
  }

  lemma MatchedAbandon(keys: set<string>, running: seq<Task>, completed: seq<Task>, k: nat)
    requires Matched(keys, running, completed, true) && k < |running|
    ensures Matched(keys, running[..k] + running[k + 1..], completed, true)
  {
    IdsRemoved(running, k);
    hide Ids;
  }

  lemma MatchedCompletion(keys: set<string>, running: seq<Task>, completed: seq<Task>, loose: bool)
    requires Matched(keys, running, completed, loose) && completed != []
    ensures Matched(keys - {completed[0].id}, running, completed[1..], loose)
  {
    hide Ids;
    CompletionIsPending(keys, running, completed, loose, 0);
    FirstRemoved(completed);
    KeyRemoved(keys, completed[0].id);
  }

  lemma KeyRemoved(keys: set<string>, id: string)
    requires id in keys
    ensures multiset(keys - {id}) == multiset(keys) - multiset{id}
  {}

  lemma FirstRemoved(completed: seq<Task>)
    requires completed != []
    ensures multiset(Ids(completed)) == multiset(Ids(completed[1..])) + multiset{completed[0].id}
  {
    IdsRemoved(completed, 0);
    assert completed[..0] + completed[1..] == completed[1..];
  }

  lemma MatchedAdmission(keys: set<string>, running: seq<Task>, completed: seq<Task>, loose: bool, t: Task)
    requires Matched(keys, running, completed, loose) && t.id !in keys
    ensures Matched(keys + {t.id}, running + [t], completed, loose)
  {
    IdsAdded(running, t);
    hide Ids;
    assert multiset(keys + {t.id}) == multiset(keys) + multiset{t.id};
  }

  lemma OnlyOne(keys: set<string>, running: seq<Task>, completed: seq<Task>, loose: bool, id: string)
    requires Matched(keys, running, completed, loose)
    ensures multiset(Ids(running))[id] + multiset(Ids(completed))[id] <= 1
  {
    hide Ids;
    assert InFlight(running, completed)[id] <= multiset(keys)[id] <= 1;
  }

  /** With its first entry taken off the queue nothing else in flight carries that id. */
  lemma OthersDiffer(keys: set<string>, running: seq<Task>, completed: seq<Task>, loose: bool)
    requires Matched(keys, running, completed, loose) && completed != []
    ensures forall k | 0 <= k < |running| :: running[k].id != completed[0].id
    ensures forall k | 1 <= k < |completed| :: completed[k].id != completed[0].id
  {
    var id := completed[0].id;
    OnlyOne(keys, running, completed, loose, id);
    FirstRemoved(completed);
    forall k | 0 <= k < |running| ensures running[k].id != id {
      assert Ids(running)[k] in multiset(Ids(running));
    }
    forall k | 1 <= k < |completed| ensures completed[k].id != id {
      assert Ids(completed[1..])[k - 1] in multiset(Ids(completed[1..]));
    }
  }

  // ---------- every move keeps it ----------

  lemma DeliverKeepsTasks(s: Session, m: Move)
    requires TasksInv(s) && Enabled(s, m) && (m.Deliver? || m.Abandon?)
    ensures TasksInv(After(s, m))
  {
    hide Matched, Send, Handled, MaySend;
    if m.Deliver? {
      MatchedDelivery(s.pending.Keys, s.running, s.completed, s.cancelled, m.k, Some(m.outcome));
    } else {
      MatchedAbandon(s.pending.Keys, s.running, s.completed, m.k);
    }
  }

  lemma DeliverKeepsLog(s: Session, m: Move)
    requires LogInv(s) && Enabled(s, m) && (m.Deliver? || m.Abandon?)
    ensures LogInv(After(s, m))
  {
    hide WellFormed, Outstanding, LastHeard;
  }

  lemma DeliverKeeps(s: Session, m: Move)
    requires SessionInv(s) && Enabled(s, m) && (m.Deliver? || m.Abandon?)
    ensures SessionInv(After(s, m))
  {
    hide TasksInv, LogInv, Messages;
    DeliverKeepsTasks(s, m);
    DeliverKeepsLog(s, m);
  }

  lemma SendKeepsTasks(s: Session, m: Message, e: Event, stops: bool)
    requires TasksInv(s) && MaySend(s, stops)
    ensures TasksInv(Send(s, m, e, stops))
  {
    hide Matched;
    Loosened(s.pending.Keys, s.running, s.completed, s.cancelled);
  }

  lemma SendKeepsChannels(s: Session, m: Message, e: Event, stops: bool)
    requires ChannelsInv(s) && s.ended.None? && MaySend(s, stops) && Messages(s.log + [e]) == Messages(s.log) + [m]
    ensures ChannelsInv(Send(s, m, e, stops))
  {
    hide Messages;
    assert s.taken + (s.outgoing + [m]) == (s.taken + s.outgoing) + [m];
  }

  /** What `e` must be for the log to go on saying the truth about the session. */
  ghost predicate Records(s: Session, e: Event) {
    && WellFormed(s.start, s.log) && Follows(s.start, s.log, e)
    && s.lastSeen == LastHeard(s.start, s.log + [e])
    && Outstanding(s.log + [e]).Keys == s.pending.Keys
    && Asked(s.running, Outstanding(s.log + [e])) && Asked(s.completed, Outstanding(s.log + [e]))
  }

  lemma SendKeepsLog(s: Session, m: Message, e: Event, stops: bool)
    requires s.ended.None? && MaySend(s, stops) && Records(s, e)
    ensures LogInv(Send(s, m, e, stops))
  {
    hide WellFormed, Follows, Outstanding, LastHeard, Asked;
    LogGrows(s.start, s.log, e);
  }

  lemma SendKeeps(s: Session, m: Message, e: Event, stops: bool)
    requires TasksInv(s) && ChannelsInv(s) && s.ended.None? && MaySend(s, stops)
    requires Messages(s.log + [e]) == Messages(s.log) + [m] && Records(s, e)
    ensures SessionInv(Send(s, m, e, stops))
  {
    hide TasksInv, ChannelsInv, LogInv, Messages, Records, Send;
    SendKeepsTasks(s, m, e, stops);
    SendKeepsChannels(s, m, e, stops);
    SendKeepsLog(s, m, e, stops);
  }

  lemma PoppedKeepsTasks(s: Session)
    requires TasksInv(s) && s.completed != []
    ensures TasksInv(Popped(s))
  {
    hide Matched;
    MatchedCompletion(s.pending.Keys, s.running, s.completed, s.cancelled);
    assert Popped(s).pending.Keys == s.pending.Keys - {s.completed[0].id};
  }

  lemma AnswerRecords(s: Session, e: Event)
    requires TasksInv(s) && LogInv(s) && s.ended.None? && s.completed != [] && s.completed[0].outcome.Some?
    requires e == Answered(s.completed[0].id, s.completed[0].query, s.completed[0].outcome.value)
    ensures Records(Popped(s), e)
  {
    hide Matched, WellFormed;
    OthersDiffer(s.pending.Keys, s.running, s.completed, s.cancelled);
    assert (s.log + [e])[..|s.log|] == s.log;
    assert Popped(s).pending.Keys == s.pending.Keys - {s.completed[0].id};
  }

  lemma MessagesGrow(log: seq<Event>, e: Event)
    ensures (log + [e])[..|log|] == log
    ensures Messages(log + [e]) == Messages(log) + match e
                                                   case Answered(id, _, outcome) => [Reply(id, outcome)]
                                                   case Refused(id) => [Result(id, "", "busy")]
                                                   case Beat(_) => [Heartbeat]
                                                   case _ => []
  {
    hide Said, Reply;
    SaidIs(e);
    assert (log + [e])[..|log|] == log;
  }

  lemma CompletedKeeps(s: Session, m: Move)
    requires SessionInv(s) && Enabled(s, m) && m.SeeCompleted?
    ensures SessionInv(After(s, m))
  {
    hide TasksInv, ChannelsInv, LogInv, Popped, Records, Reply, Send;
    TakingIsSafe(s);
    AnswerKeeps(s, m.stops);
  }

  lemma TakingIsSafe(s: Session)
    requires TasksInv(s) && s.completed != []
    ensures s.completed[0].id in s.pending && s.completed[0].outcome.Some?
  {
    hide Matched;
    CompletionIsPending(s.pending.Keys, s.running, s.completed, s.cancelled, 0);
  }

  lemma AnswerKeeps(s: Session, stops: bool)
    requires SessionInv(s) && s.ended.None? && s.completed != [] && s.completed[0].outcome.Some? && MaySend(s, stops)
    ensures var t := s.completed[0];
            SessionInv(Send(Popped(s), Reply(t.id, t.outcome.value), Answered(t.id, t.query, t.outcome.value), stops))
  {
    hide TasksInv, LogInv, Records, Messages, Reply, Send;
    var t := s.completed[0];
    var e := Answered(t.id, t.query, t.outcome.value);
    AnswerRecords(s, e);
    PoppedKeepsTasks(s);
    MessagesGrow(s.log, e);
    SendKeeps(Popped(s), Reply(t.id, t.outcome.value), e, stops);
  }

  lemma PendingIsOutstanding(s: Session)
    requires LogInv(s) && s.ended.None?
    ensures |s.pending| == |s.pending.Keys| == |Outstanding(s.log)|
    ensures forall id :: id in s.pending <==> id in Outstanding(s.log)
  {
    assert |Outstanding(s.log).Keys| == |Outstanding(s.log)|;
  }

  /** The session with one more query admitted. */
  function WithTask(s: Session, t: Task, job: Job): Session {
    s.(pending := s.pending[t.id := job], running := s.running + [t], log := s.log + [Admitted(t.id, t.query)])
  }

  lemma AdmissionKeepsTasks(s: Session, t: Task, job: Job)
    requires TasksInv(s) && t.id !in s.pending && |s.pending.Keys| < MAX_PENDING
    ensures TasksInv(WithTask(s, t, job))
  {
    hide Matched;
    MatchedAdmission(s.pending.Keys, s.running, s.completed, s.cancelled, t);
    assert s.pending[t.id := job].Keys == s.pending.Keys + {t.id};
  }

  lemma AdmissionKeepsLog(s: Session, t: Task, job: Job)
    requires LogInv(s) && s.ended.None? && Follows(s.start, s.log, Admitted(t.id, t.query))
    ensures LogInv(WithTask(s, t, job))
  {
    hide WellFormed, ValidQuery;
    LogGrows(s.start, s.log, Admitted(t.id, t.query));
    assert s.pending[t.id := job].Keys == s.pending.Keys + {t.id};
  }

  lemma AdmissionKeeps(s: Session, t: Task, job: Job)
    requires SessionInv(s) && s.ended.None? && t.id !in s.pending && |s.pending| < MAX_PENDING
    requires ValidQuery(t.query) && 1 <= |t.id| <= MAX_ID
    ensures SessionInv(WithTask(s, t, job))
  {
    PendingIsOutstanding(s);
    AdmissionKeepsTasks(s, t, job);
    AdmissionKeepsLog(s, t, job);
    MessagesGrow(s.log, Admitted(t.id, t.query));
    hide TasksInv, LogInv, Messages;
  }

  lemma RefusalRecords(s: Session, id: string)
    requires TasksInv(s) && LogInv(s) && s.ended.None? && id !in s.pending && |s.pending| >= MAX_PENDING
    ensures Records(s, Refused(id))
  {
    hide WellFormed, Asked, Matched;
    PendingIsOutstanding(s);
    assert (s.log + [Refused(id)])[..|s.log|] == s.log;
  }

  lemma RefusalKeeps(s: Session, id: string, stops: bool)
    requires SessionInv(s) && s.ended.None? && MaySend(s, stops) && id !in s.pending && |s.pending| >= MAX_PENDING
    ensures SessionInv(Send(s, Result(id, "", "busy"), Refused(id), stops))
  {
    hide TasksInv, ChannelsInv, LogInv, Records, Messages, Send;
    MessagesGrow(s.log, Refused(id));
    RefusalRecords(s, id);
    SendKeeps(s, Result(id, "", "busy"), Refused(id), stops);
  }

  lemma EndKeeps(s: Session, why: End)
    requires SessionInv(s) && why != Panicked
    ensures SessionInv(Ended(s, why))
  {
    hide Matched, WellFormed, Messages, Outstanding, LastHeard, Asked;
    Loosened(s.pending.Keys, s.running, s.completed, s.cancelled);
  }

  lemma CancelKeeps(s: Session, id: string)
    requires SessionInv(s) && id in s.pending
    ensures SessionInv(s.(pending := s.pending[id := s.pending[id].(cancelled := true)]))
  {
    hide Matched, WellFormed, Messages, Outstanding, LastHeard, Asked;
    assert s.pending[id := s.pending[id].(cancelled := true)].Keys == s.pending.Keys;
  }

  lemma HandledKeeps(s: Session, r: Request, stops: bool)
    requires SessionInv(s) && s.ended.None? && MaySend(s, stops)
    ensures SessionInv(Handled(s, r, stops))
  {
    hide SessionInv, ValidQuery, Send, Ended;
    match r
    case Cancel(id) => if id in s.pending { CancelKeeps(s, id); }
    case Unknown =>
    case History(id, query, timeout) =>
      if id == "" || |id| > MAX_ID { EndKeeps(s, InvalidId); }
      else if !ValidQuery(query) || timeout == 0 { EndKeeps(s, InvalidQuery); }
      else if id in s.pending { EndKeeps(s, DuplicateId); }
      else if |s.pending| >= MAX_PENDING { RefusalKeeps(s, id, stops); }
      else { AdmissionKeeps(s, Task(id, query, None), Job(s.now + Limit(timeout), false)); }
  }

  lemma HeardKeepsLog(s: Session)
    requires LogInv(s) && s.ended.None?
    ensures LogInv(Heeding(s))
  {
    hide WellFormed, Asked;
    LogGrows(s.start, s.log, Heard(s.now));
  }

  lemma HeardKeeps(s: Session)
    requires SessionInv(s) && s.ended.None?
    ensures SessionInv(Heeding(s))
  {
    hide LogInv, Matched, Messages;
    HeardKeepsLog(s);
    MessagesGrow(s.log, Heard(s.now));
  }

  lemma RequestKeeps(s: Session, m: Move)
    requires SessionInv(s) && Enabled(s, m) && m.SeeRequest?
    ensures SessionInv(After(s, m))
  {
    hide SessionInv, Handled;
    HeardKeeps(s);
    HandledKeeps(Heeding(s), s.incoming.value, m.stops);
  }

  lemma HeartbeatKeeps(s: Session, m: Move)
    requires SessionInv(s) && Enabled(s, m) && m.SeeHeartbeat?
    ensures SessionInv(After(s, m))
  {
    hide SessionInv, Send, Ended;
    if s.now - s.lastSeen > SILENCE {
      EndKeeps(s, HeartbeatTimeout);
    } else {
      BeatKeeps(s, m.stops);
    }
  }

  lemma BeatRecords(s: Session)
    requires LogInv(s) && s.ended.None? && s.now - s.lastSeen <= SILENCE
    ensures Records(s, Beat(s.now))
  {
    hide WellFormed, Asked;
    assert (s.log + [Beat(s.now)])[..|s.log|] == s.log;
  }

  lemma BeatKeeps(s: Session, stops: bool)
    requires SessionInv(s) && s.ended.None? && MaySend(s, stops) && s.now - s.lastSeen <= SILENCE
    ensures SessionInv(Send(s, Heartbeat, Beat(s.now), stops))
  {
    hide TasksInv, ChannelsInv, LogInv, Records, Messages, Send;
    MessagesGrow(s.log, Beat(s.now));
    BeatRecords(s);
    SendKeeps(s, Heartbeat, Beat(s.now), stops);
  }

  lemma WriteKeeps(s: Session, m: Move)
    requires SessionInv(s) && Enabled(s, m) && m.Write?
    ensures SessionInv(After(s, m))
  {
    hide WellFormed, Messages, Outstanding, LastHeard, Asked, Matched;
    assert s.outgoing == [s.outgoing[0]] + s.outgoing[1..];
    assert s.taken + [s.outgoing[0]] + s.outgoing[1..] == s.taken + s.outgoing;
  }

  lemma ArmKeeps(s: Session, m: Move)
    requires SessionInv(s) && Enabled(s, m) && (m.SeeStop? || m.SeeFailure? || m.SeeCheck?)
    ensures SessionInv(After(s, m))
  {
    hide SessionInv, Ended;
    match m
    case SeeStop => EndKeeps(s, Stopped);
    case SeeFailure => EndKeeps(s, StreamFailed);
    case SeeCheck(current) => if current.Some? && current.value != s.caps { EndKeeps(s, CapabilitiesChanged); }
  }

  lemma OtherKeeps(s: Session, m: Move)
    requires SessionInv(s) && Enabled(s, m)
    requires m.Tick? || m.ParentStops? || m.Receive? || m.ReceiveFails? || m.ReaderStops? || m.WriterStops?
    ensures SessionInv(After(s, m))
  {
    hide WellFormed, Messages, Outstanding, LastHeard, Asked, Matched, Send, Handled, Reply;
    Loosened(s.pending.Keys, s.running, s.completed, s.cancelled);
  }

  lemma MoveKeeps(s: Session, m: Move)
    requires SessionInv(s) && Enabled(s, m)
    ensures SessionInv(After(s, m))
  {
    hide TasksInv, ChannelsInv, LogInv;
    if m.Deliver? || m.Abandon? { DeliverKeeps(s, m); }
    else if m.SeeCompleted? { CompletedKeeps(s, m); }
    else if m.SeeRequest? { RequestKeeps(s, m); }
    else if m.SeeHeartbeat? { HeartbeatKeeps(s, m); }
    else if m.Write? { WriteKeeps(s, m); }
    else if m.SeeStop? || m.SeeFailure? || m.SeeCheck? { ArmKeeps(s, m); }
    else { OtherKeeps(s, m); }
  }

  // ---------- runs ----------

  ghost predicate Run(ss: seq<Session>, moves: seq<Move>) {
    && |ss| == |moves| + 1
    && ss[0] == Opened(ss[0].now, ss[0].caps)
    && forall k | 0 <= k < |moves| :: Enabled(ss[k], moves[k]) && ss[k + 1] == After(ss[k], moves[k])
  }

  lemma {:induction false} RunKeeps(ss: seq<Session>, moves: seq<Move>, k: nat)
    requires Run(ss, moves) && k < |ss|
    ensures SessionInv(ss[k])
  {
    if k > 0 {
      RunKeeps(ss, moves, k - 1);
      MoveKeeps(ss[k - 1], moves[k - 1]);
    } else {
      assert Ids([]) == [];
    }
  }

  /** Each pending id has one running task or one queued result, never both and never more, and they
      number at most 32; so a task always finds room on the 32-slot channel, the loop always finds the
      cancel function of a completed id, and no run panics. */
  lemma RunIsSafe(ss: seq<Session>, moves: seq<Move>, k: nat)
    requires Run(ss, moves) && k < |ss|
    ensures |ss[k].pending| <= 32
    ensures !ss[k].cancelled ==> InFlight(ss[k].running, ss[k].completed) == multiset(ss[k].pending.Keys)
    ensures ss[k].running != [] ==> |ss[k].completed| < 32
    ensures forall i | 0 <= i < |ss[k].completed| :: ss[k].completed[i].id in ss[k].pending
    ensures ss[k].ended != Some(Panicked)
    ensures (ss[k].reader || ss[k].writer) ==> ss[k].failures < 2
  {
    RunKeeps(ss, moves, k);
    var s := ss[k];
    InFlightBounded(s.pending.Keys, s.running, s.completed, s.cancelled);
    forall i | 0 <= i < |s.completed| ensures s.completed[i].id in s.pending {
      CompletionIsPending(s.pending.Keys, s.running, s.completed, s.cancelled, i);
    }
  }

  /** What the stream has been handed and what is still queued are, in order, the hello and one message
      per answer, refusal and heartbeat: none is lost, repeated or overtaken. */
  lemma MessagesAreConserved(ss: seq<Session>, moves: seq<Move>, k: nat)
    requires Run(ss, moves) && k < |ss|
    ensures ss[k].taken + ss[k].outgoing == [Hello(ss[k].caps)] + Messages(ss[k].log)
    ensures WellFormed(ss[k].start, ss[k].log)
    ensures ss[k].ended.None? ==> Outstanding(ss[k].log).Keys == ss[k].pending.Keys
  {
    RunKeeps(ss, moves, k);
  }

  // ---------- exactly one answer ----------

  lemma {:induction false} StaysOutstanding(start: Time, log: seq<Event>, i: nat, k: nat, id: string)
    requires WellFormed(start, log) && i < k <= |log| && log[i].Admitted? && log[i].id == id
    requires forall j | i < j < k :: !(log[j].Answered? && log[j].id == id)
    ensures id in Outstanding(log[..k])
    decreases k
  {
    assert log[..k][..k - 1] == log[..k - 1];
    if k > i + 1 { StaysOutstanding(start, log, i, k - 1, id); }
  }

  /** The query outstanding under an id is the one it was last admitted with. */
  lemma {:induction false} LastAdmission(start: Time, log: seq<Event>, k: nat, id: string) returns (i: nat)
    requires WellFormed(start, log) && k <= |log| && id in Outstanding(log[..k])
    ensures i < k && log[i] == Admitted(id, Outstanding(log[..k])[id])
    ensures forall j | i < j < k :: !(log[j].Answered? && log[j].id == id) && !(log[j].Admitted? && log[j].id == id)
    decreases k
  {
    assert k > 0;
    assert log[..k][..k - 1] == log[..k - 1];
    if log[k - 1].Admitted? && log[k - 1].id == id { i := k - 1; } else { i := LastAdmission(start, log, k - 1, id); }
  }

  /** In every run: an id is admitted again only after its last admission was answered. */
  lemma AdmittedThenAnswered(ss: seq<Session>, moves: seq<Move>, i: nat, k: nat, id: string)
    requires Run(ss, moves)
    requires var log := ss[|moves|].log;
             i < k < |log| && log[i].Admitted? && log[k].Admitted? && log[i].id == log[k].id == id
    ensures exists j | i < j < k :: ss[|moves|].log[j].Answered? && ss[|moves|].log[j].id == id
  {
    RunKeeps(ss, moves, |moves|);
    var s := ss[|moves|];
    assert id !in Outstanding(s.log[..k]) by { assert Follows(s.start, s.log[..k], s.log[k]); }
    if forall j | i < j < k :: !(s.log[j].Answered? && s.log[j].id == id) {
      StaysOutstanding(s.start, s.log, i, k, id);
    }
  }

  /** In every run: each answer belongs to one earlier admission of the same id and was worked out for the
      query of that admission, and no other answer to the id lies between them. */
  lemma AnsweredOnce(ss: seq<Session>, moves: seq<Move>, k: nat) returns (i: nat)
    requires Run(ss, moves) && k < |ss[|moves|].log| && ss[|moves|].log[k].Answered?
    ensures var log := ss[|moves|].log;
            && i < k && log[i] == Admitted(log[k].id, log[k].query)
            && forall j | i < j < k :: !(log[j].Answered? && log[j].id == log[k].id)
  {
    RunKeeps(ss, moves, |moves|);
    var s := ss[|moves|];
    assert Follows(s.start, s.log[..k], s.log[k]);
    i := LastAdmission(s.start, s.log, k, s.log[k].id);
  }

  // ---------- cancelling ----------

  /** The context of a pending query changes only when a cancellation of its own id is handled, and its
      deadline never; a newly admitted one has the time that was asked for, at most ten seconds. */
  lemma CancelledByRequestOnly(s: Session, m: Move, id: string)
    requires Enabled(s, m) && id in After(s, m).pending
    ensures var job := After(s, m).pending[id];
            if id in s.pending
            then && job.deadline == s.pending[id].deadline
                 && (job.cancelled <==> s.pending[id].cancelled || (m.SeeRequest? && s.incoming == Some(Cancel(id))))
            else && !job.cancelled && m.SeeRequest? && s.incoming.Some? && s.incoming.value.History?
                 && s.incoming.value.id == id
                 && s.incoming.value.timeout > 0
                 && job.deadline ==
                    s.now + (if s.incoming.value.timeout < 10_000 then s.incoming.value.timeout else 10_000)
  {
    hide ValidQuery, Reply, Handled;
    if m.SeeRequest? { JobsAfterRequest(Heeding(s), s.incoming.value, m.stops, id); }
  }

  lemma JobsAfterRequest(s: Session, r: Request, stops: bool, id: string)
    requires id in Handled(s, r, stops).pending
    ensures var job := Handled(s, r, stops).pending[id];
            if id in s.pending
            then job.deadline == s.pending[id].deadline
                 && (job.cancelled <==> s.pending[id].cancelled || r == Cancel(id))
            else && !job.cancelled && r.History? && r.id == id
                 && r.timeout > 0 && job.deadline == s.now + (if r.timeout < 10_000 then r.timeout else 10_000)
  {
    hide ValidQuery, Outstanding;
  }

  // ---------- the end of a session ----------

  function Alive(s: Session): nat { |s.running| + (if s.reader then 1 else 0) + (if s.writer then 1 else 0) }

  /** `tasks.Wait()` returns: once the session has ended no arm of the loop runs again, and a goroutine
      that is left can always finish. */
  lemma SessionDrains(ss: seq<Session>, moves: seq<Move>, k: nat) returns (m: Move)
    requires Run(ss, moves) && k < |ss| && ss[k].ended.Some? && Alive(ss[k]) > 0
    ensures Enabled(ss[k], m) && !IsArm(m) && Alive(After(ss[k], m)) == Alive(ss[k]) - 1
    ensures forall a: Move | IsArm(a) :: !Enabled(ss[k], a)
  {
    RunKeeps(ss, moves, k);
    if ss[k].reader { m := ReaderStops; } else if ss[k].writer { m := WriterStops; } else { m := Abandon(0); }
  }
}
