/** The variables of `querySession` and the arms of its loop, changed in place. Each arm is proved to make
    the move that `SessionSpec` describes, and so keeps what every run of the session keeps. */
module SessionLoop {
  import opened Common
  import opened SessionSpec

  lemma RoomToDeliver(s: Session, k: nat, outcome: Outcome)
    requires SessionInv(s) && k < |s.running|
    ensures Enabled(s, Move.Deliver(k, outcome))
    ensures After(s, Move.Deliver(k, outcome)) ==
            s.(running := s.running[..k] + s.running[k + 1..],
               completed := s.completed + [s.running[k].(outcome := Some(outcome))])
  {
    InFlightBounded(s.pending.Keys, s.running, s.completed, s.cancelled);
  }

  class QuerySession {
    const caps: Capabilities
    var clock: Time
    var pending: map<string, Job>
    var tasks: seq<Task>
    var completed: seq<Task>
    var incoming: Option<Request>
    var outgoing: seq<Message>
    var reader: bool
    var writer: bool
    var failures: nat
    var lastSeen: Time
    var cancelled: bool
    var ended: Option<End>
    ghost var start: Time
    ghost var taken: seq<Message>
    ghost var log: seq<Event>

    ghost function State(): Session
      reads this
    {
      Session(clock, start, caps, pending, tasks, completed, incoming, outgoing, taken,
                      reader, writer, failures, lastSeen, cancelled, ended, log)
    }

    /** Lines 73-131: the hello is sent before the goroutines start. */
    constructor (now: Time, caps: Capabilities)
      ensures State() == Opened(now, caps) && SessionInv(State())
    {
      this.caps, clock, lastSeen, start := caps, now, now, now;
      pending, tasks, completed, incoming, outgoing := map[], [], [], None, [];
      reader, writer, failures, cancelled, ended := true, true, 0, false, None;
      taken, log := [Hello(caps)], [];
      new;
      assert Ids([]) == [];
    }

    /** The deferred `cancel()` runs when the loop returns. */
    method Return(why: End)
      modifies this`cancelled, this`ended
      ensures State() == Ended(old(State()), why)
    {
      cancelled, ended := true, Some(why);
    }

    /** `send`, lines 112-121. `stops`: the runtime picked the done case. */
    method Send(m: Message, ghost e: Event, stops: bool)
      requires MaySend(State(), stops)
      modifies this
      ensures State() == SessionSpec.Send(old(State()), m, e, stops)
    {
      if stops {
        Return(Stopped);
      } else if |outgoing| < OUTGOING_SLOTS {
        outgoing, log := outgoing + [m], log + [e];
      } else {
        Return(QueueFull);
      }
    }

    /** Lines 139-140: the cancel function is found by the id of the result. */
    method Take() returns (t: Task)
      requires completed != [] && completed[0].id in pending
      modifies this`completed, this`pending
      ensures t == old(completed[0]) && State() == Popped(old(State()))
    {
      t := completed[0];
      completed := completed[1..];
      var stop := pending[t.id];
      pending := pending - {t.id};
    }

    /** Lines 138-143. */
    method OnCompleted(stops: bool)
      requires SessionInv(State()) && Enabled(State(), SeeCompleted(stops))
      modifies this
      ensures State() == After(old(State()), SeeCompleted(stops)) && SessionInv(State())
      ensures old(completed[0]).outcome.Some? && completed == old(completed)[1..] && old(completed[0]).id !in pending
      ensures !stops && |old(outgoing)| < 64 ==>
                var t := old(completed[0]);
                outgoing == old(outgoing) + Said(Answered(t.id, t.query, t.outcome.value)) && ended == old(ended)
    {
      SaidIs(Answered(completed[0].id, completed[0].query, completed[0].outcome.value));
      MoveKeeps(State(), SeeCompleted(stops));
      CompletionIsPending(pending.Keys, tasks, completed, cancelled, 0);
      hide SessionInv, Reply, SessionSpec.Send;
      var t := Take();
      Send(Reply(t.id, t.outcome.value), Answered(t.id, t.query, t.outcome.value), stops);
    }

    /** Lines 157-181. */
    method Admit(id: string, query: Query, timeout: nat, stops: bool)
      requires MaySend(State(), stops)
      modifies this
      ensures State() == Handled(old(State()), History(id, query, timeout), stops)
    {
      hide ValidQuery, MaySend;
      if id == "" || |id| > MAX_ID {
        Return(InvalidId);
      } else if !ValidQuery(query) || timeout == 0 {
        Return(InvalidQuery);
      } else if id in pending {
        Return(DuplicateId);
      } else if |pending| >= MAX_PENDING {
        Send(Result(id, "", "busy"), Refused(id), stops);
      } else {
        pending := pending[id := Job(clock + Limit(timeout), false)];
        tasks, log := tasks + [Task(id, query, None)], log + [Admitted(id, query)];
      }
    }

    /** Lines 146-181. */
    method Handle(message: Request, stops: bool)
      requires MaySend(State(), stops)
      modifies this
      ensures State() == Handled(old(State()), message, stops)
    {
      hide MaySend;
      match message {
        case Cancel(id) =>
          if id in pending { pending := pending[id := pending[id].(cancelled := true)]; }
        case Unknown =>
        case History(id, query, timeout) => Admit(id, query, timeout, stops);
      }
    }

    /** Lines 144-181. */
    method OnRequest(stops: bool)
      requires SessionInv(State()) && Enabled(State(), SeeRequest(stops))
      modifies this
      ensures State() == After(old(State()), SeeRequest(stops)) && SessionInv(State())
    {
      MoveKeeps(State(), SeeRequest(stops));
      hide SessionInv, Handled;
      var message := incoming.value;
      incoming, lastSeen, log := None, clock, log + [Heard(clock)];
      Handle(message, stops);
    }

    /** Lines 182-188. */
    method OnHeartbeat(stops: bool)
      requires SessionInv(State()) && Enabled(State(), SeeHeartbeat(stops))
      modifies this
      ensures State() == After(old(State()), SeeHeartbeat(stops)) && SessionInv(State())
    {
      MoveKeeps(State(), SeeHeartbeat(stops));
      hide SessionInv;
      if clock - lastSeen > SILENCE { Return(HeartbeatTimeout); } else { Send(Heartbeat, Beat(clock), stops); }
    }

    /** Lines 189-196. `current`: what the helper answered, if it did. */
    method OnCheck(current: Option<Capabilities>)
      requires SessionInv(State()) && Enabled(State(), SeeCheck(current))
      modifies this
      ensures State() == After(old(State()), SeeCheck(current)) && SessionInv(State())
    {
      MoveKeeps(State(), SeeCheck(current));
      hide SessionInv;
      if current.Some? && current.value != caps { Return(CapabilitiesChanged); }
    }

    /** Lines 176-180: task `k` puts its result on the channel, which never blocks it. */
    method Deliver(k: nat, outcome: Outcome)
      requires SessionInv(State()) && k < |tasks|
      modifies this
      ensures Enabled(old(State()), Move.Deliver(k, outcome))
      ensures State() == After(old(State()), Move.Deliver(k, outcome)) && SessionInv(State())
    {
      hide SessionInv, After, Enabled;
      RoomToDeliver(State(), k, outcome);
      MoveKeeps(State(), Move.Deliver(k, outcome));
      var t := tasks[k];
      completed := completed + [t.(outcome := Some(outcome))];
      tasks := tasks[..k] + tasks[k + 1..];
    }
  }
}
