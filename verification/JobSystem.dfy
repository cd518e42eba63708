/** The job queue and the job servers as one transition system.  A state holds the job table, the
    one Cargo.toml all jobs share, the queue process and the server processes with their mailboxes;
    an action is one uninterrupted step of one process, and actions of different processes follow
    one another in any order. */
module JobSystem {
  import opened Options

  type JobId = nat
  type Text = string

  // ------------------------------------------------------------------------ the job table

  datatype Status = Pending | Queued | Running | Completed | Failed | Cancelled

  predicate Waiting(s: Status) { s == Pending || s == Queued }

  predicate Terminal(s: Status) { s == Completed || s == Failed || s == Cancelled }

  /** A row, without the columns that only describe the request or its results. */
  datatype Row = Row(status: Status, insertedAt: nat, branch: Option<Text>)

  type Table = map<JobId, Row>

  function Mark(table: Table, id: JobId, status: Status): Table
    requires id in table
  {
    table[id := table[id].(status := status)]
  }

  /** The oldest waiting job, any of them if several are equally old; None if none is waiting. */
  ghost predicate NextQueued(table: Table, pick: Option<JobId>) {
    match pick
    case None => forall id :: id in table ==> !Waiting(table[id].status)
    case Some(id) =>
      && id in table && Waiting(table[id].status)
      && forall other :: other in table && Waiting(table[other].status) ==>
          table[id].insertedAt <= table[other].insertedAt
  }

  // ------------------------------------------------------------------------- the processes

  /** Where a server is.  original is the text of Cargo.toml to be put back, if it was changed. */
  datatype Phase =
    | Fresh                                                // :start_job not handled yet
    | Marked                                               // the row says running
    | ReadToml(text: Text)                                 // Cargo.toml read, not yet rewritten
    | Ready(original: Option<Text>)                        // override in place, if any
    | Serving(original: Option<Text>)                      // the port has been opened
    | Closing(original: Option<Text>, outcome: Status)     // done with the port
    | Restored(original: Option<Text>, outcome: Status)    // Cargo.toml put back
    | Settled(original: Option<Text>, outcome: Status)     // outcome in the table
    | Announced(original: Option<Text>)                    // job_finished sent; terminate still to run
    | Aborting(original: Option<Text>)                     // no command could be built
    | Aborted                                              // and Cargo.toml put back

  datatype ServerMsg = Exited(code: int) | PortDown | TimedOut | CancelRequest

  datatype Server = Server(phase: Phase, portOpen: bool, timer: bool, mailbox: seq<ServerMsg>)

  datatype QueueMsg = CheckQueue | JobCreated(id: JobId) | JobFinished(id: JobId)

  /** launching is the job whose server the queue process has started but not yet noted as current. */
  datatype Queue = Queue(current: Option<JobId>, launching: Option<JobId>, mailbox: seq<QueueMsg>)

  /** launched lists the jobs in the order their servers were started; silent collects the jobs
      whose server stopped without announcing it, and raised those among them whose server died of
      an exception. */
  datatype System = System(
    table: Table,
    toml: Text,
    clock: nat,
    queue: Queue,
    servers: map<JobId, Server>,
    launched: seq<JobId>,
    silent: set<JobId>,
    raised: set<JobId>)

  datatype Config = Config(pristine: Text, override: (Text, Text) -> Text)

  function Initial(cfg: Config): System {
    System(map[], cfg.pristine, 0, Queue(None, None, [CheckQueue]), map[], [], {}, {})
  }

  // -------------------------------------------------------------------------- the actions

  datatype Action =
    // the queue process, called by clients
    | Submit(id: JobId, branch: Option<Text>, now: nat)
    | Cancel(id: JobId)
    // the queue process, at its mailbox
    | Check(pick: Option<JobId>, starts: bool)
    | Adopt
    | NoteCreated
    | NoteFinished
    // a server process
    | ByServer(id: JobId, step: ServerStep)

  datatype ServerStep =
    | MarkRunning | RefuseStart
    | ReadCargo | WriteCargo | SkipOverride
    | OpenPort | FailBuild | AbortRestore | AbortMark
    | PortExits(code: int) | PortDies | TimerFires
    | HandleMessage | Restore | Settle | Announce | Terminate

  function Overrides(branch: Option<Text>): bool {
    branch.Some? && branch.value != ""
  }

  ghost predicate Enabled(s: System, a: Action) {
    match a
    case Submit(id, _, now) => s.queue.launching == None && id !in s.table && s.clock <= now
    case Cancel(_) => s.queue.launching == None
    case Check(pick, starts) =>
      && s.queue.launching == None && s.queue.mailbox != [] && s.queue.mailbox[0] == CheckQueue
      && (s.queue.current == None ==> NextQueued(s.table, pick))
      && (s.queue.current == None && pick.Some? && starts ==> pick.value !in s.servers)
    case Adopt => s.queue.launching != None
    case NoteCreated => s.queue.launching == None && s.queue.mailbox != [] && s.queue.mailbox[0].JobCreated?
    case NoteFinished => s.queue.launching == None && s.queue.mailbox != [] && s.queue.mailbox[0].JobFinished?
    case ByServer(id, step) => id in s.servers && id in s.table && StepEnabled(s.servers[id], s.table[id].branch, step)
  }

  predicate StepEnabled(v: Server, branch: Option<Text>, step: ServerStep) {
    match step
    case MarkRunning => v.phase.Fresh?
    case RefuseStart => v.phase.Fresh?
    case ReadCargo => v.phase.Marked? && Overrides(branch)
    case SkipOverride => v.phase.Marked? && !Overrides(branch)
    case WriteCargo => v.phase.ReadToml? && Overrides(branch)
    case OpenPort => v.phase.Ready?
    case FailBuild => v.phase.Ready?
    case AbortRestore => v.phase.Aborting?
    case AbortMark => v.phase.Aborted?
    case PortExits(_) => v.portOpen
    case PortDies => v.portOpen
    case TimerFires => v.timer
    case HandleMessage => v.phase.Serving? && v.mailbox != []
    case Restore => v.phase.Closing?
    case Settle => v.phase.Restored?
    case Announce => v.phase.Settled?
    case Terminate => v.phase.Announced?
  }

  function Outcome(msg: ServerMsg): Status {
    match msg
    case Exited(code) => if code == 0 then Completed else Failed
    case PortDown => Failed
    case TimedOut => Failed
    case CancelRequest => Cancelled
  }

  /** The clauses for a timeout and for a cancellation close the port; the others find it gone. */
  predicate ClosesPort(msg: ServerMsg) {
    msg == TimedOut || msg == CancelRequest
  }

  /** Closing a port that is not open is an error.  The server never forgets its port before its
      last message, so the error also strikes in terminate, before the restore there. */
  predicate Raises(v: Server) {
    v.phase.Serving? && !v.portOpen && v.mailbox != [] && ClosesPort(v.mailbox[0])
  }

  function PutBack(toml: Text, original: Option<Text>): Text {
    if original.Some? then original.value else toml
  }

  function Effect(cfg: Config, s: System, a: Action): System
    requires Enabled(s, a)
  {
    match a
    case Submit(id, branch, now) =>
      s.(table := s.table[id := Row(Pending, now, branch)],
         clock := now,
         queue := s.queue.(mailbox := s.queue.mailbox + [JobCreated(id), CheckQueue]))
    case Cancel(id) =>
      if s.queue.current == Some(id) then
        if id in s.servers then SetServer(s, id, Deliver(s.servers[id], CancelRequest)) else s
      else if id in s.table && Waiting(s.table[id].status) then s.(table := Mark(s.table, id, Cancelled))
      else s
    case Check(pick, starts) =>
      var popped := s.(queue := s.queue.(mailbox := s.queue.mailbox[1..]));
      if s.queue.current != None || pick == None then popped
      else if starts then
        popped.(servers := s.servers[pick.value := Server(Fresh, false, false, [])],
                queue := popped.queue.(launching := pick),
                launched := s.launched + [pick.value])
      else
        popped.(table := Mark(s.table, pick.value, Failed),
                queue := popped.queue.(mailbox := popped.queue.mailbox + [CheckQueue]))
    case Adopt => s.(queue := s.queue.(current := s.queue.launching, launching := None))
    case NoteCreated => s.(queue := s.queue.(mailbox := s.queue.mailbox[1..] + [CheckQueue]))
    case NoteFinished =>
      if s.queue.current == Some(s.queue.mailbox[0].id)
      then s.(queue := s.queue.(current := None, mailbox := s.queue.mailbox[1..] + [CheckQueue]))
      else s.(queue := s.queue.(mailbox := s.queue.mailbox[1..]))
    case ByServer(id, step) => ServerEffect(cfg, s, id, step)
  }

  function SetServer(s: System, id: JobId, v: Server): System {
    s.(servers := s.servers[id := v])
  }

  function Deliver(v: Server, msg: ServerMsg): Server {
    v.(mailbox := v.mailbox + [msg])
  }

  function SetPhase(s: System, id: JobId, phase: Phase): System
    requires id in s.servers
  {
    SetServer(s, id, s.servers[id].(phase := phase))
  }

  /** The server process is gone, and has not announced it. */
  function Silence(s: System, id: JobId): System {
    s.(servers := s.servers - {id}, silent := s.silent + {id})
  }

  function ServerEffect(cfg: Config, s: System, id: JobId, step: ServerStep): System
    requires id in s.servers && id in s.table && StepEnabled(s.servers[id], s.table[id].branch, step)
  {
    var v := s.servers[id];
    match step
    case MarkRunning => SetPhase(s, id, Marked).(table := Mark(s.table, id, Running))
    case RefuseStart => Silence(s, id)
    case ReadCargo => SetPhase(s, id, ReadToml(s.toml))
    case SkipOverride => SetPhase(s, id, Ready(None))
    case WriteCargo =>
      SetPhase(s, id, Ready(Some(v.phase.text))).(toml := cfg.override(v.phase.text, s.table[id].branch.value))
    case OpenPort => SetServer(s, id, v.(phase := Serving(v.phase.original), portOpen := true, timer := true))
    case FailBuild => SetPhase(s, id, Aborting(v.phase.original))
    case AbortRestore => SetPhase(s, id, Aborted).(toml := PutBack(s.toml, v.phase.original))
    case AbortMark => Silence(s.(table := Mark(s.table, id, Failed)), id)
    case PortExits(code) => SetServer(s, id, Deliver(v.(portOpen := false), Exited(code)))
    case PortDies => SetServer(s, id, Deliver(v.(portOpen := false), PortDown))
    case TimerFires => SetServer(s, id, Deliver(v.(timer := false), TimedOut))
    case HandleMessage =>
      if Raises(v) then Silence(s, id).(raised := s.raised + {id})
      else
        var closing := Closing(v.phase.original, Outcome(v.mailbox[0]));
        SetServer(s, id, v.(phase := closing, portOpen := false, mailbox := v.mailbox[1..]))
    case Restore =>
      SetPhase(s, id, Restored(v.phase.original, v.phase.outcome)).(toml := PutBack(s.toml, v.phase.original))
    case Settle =>
      SetPhase(s, id, Settled(v.phase.original, v.phase.outcome)).(table := Mark(s.table, id, v.phase.outcome))
    case Announce =>
      SetPhase(s, id, Announced(v.phase.original)).(queue := s.queue.(mailbox := s.queue.mailbox + [JobFinished(id)]))
    case Terminate => s.(servers := s.servers - {id}, toml := PutBack(s.toml, v.phase.original))
  }

  // ----------------------------------------------------------------------------- runs

  ghost predicate Legal(cfg: Config, s: System, run: seq<Action>)
    decreases |run|
  {
    run != [] ==> Enabled(s, run[0]) && Legal(cfg, Effect(cfg, s, run[0]), run[1..])
  }

  ghost function After(cfg: Config, s: System, run: seq<Action>): System
    requires Legal(cfg, s, run)
    decreases |run|
  {
    if run == [] then s else After(cfg, Effect(cfg, s, run[0]), run[1..])
  }

  lemma {:induction false} RunOne(cfg: Config, s: System, a: Action)
    requires Enabled(s, a)
    ensures Legal(cfg, s, [a]) && After(cfg, s, [a]) == Effect(cfg, s, a)
  {
    assert [a][1..] == [];
  }

  lemma {:induction false} RunOneMore(cfg: Config, s: System, run: seq<Action>, a: Action)
    requires Legal(cfg, s, run) && Enabled(After(cfg, s, run), a)
    ensures Legal(cfg, s, run + [a]) && After(cfg, s, run + [a]) == Effect(cfg, After(cfg, s, run), a)
    decreases |run|
  {
    if run == [] {
      assert run + [a] == [a];
      RunOne(cfg, s, a);
    } else {
      assert (run + [a])[1..] == run[1..] + [a];
      RunOneMore(cfg, Effect(cfg, s, run[0]), run[1..], a);
    }
  }
}
