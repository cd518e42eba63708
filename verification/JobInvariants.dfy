/** What every interleaving keeps. */
module JobInvariants {
  import opened Options
  import opened JobSystem

  /** The job the queue is committed to. */
  function Committed(s: System): Option<JobId> {
    if s.queue.launching.Some? then s.queue.launching else s.queue.current
  }

  /** A server that has something left to do besides terminating. */
  predicate Active(s: System, id: JobId) {
    id in s.servers && !s.servers[id].phase.Announced?
  }

  /** What the row of a job says while its server is in a given phase. */
  predicate StatusFits(status: Status, phase: Phase) {
    match phase
    case Fresh => Waiting(status)
    case Settled(_, outcome) => status == outcome && Terminal(status)
    case Announced(_) => Terminal(status)
    case Closing(_, outcome) => status == Running && Terminal(outcome)
    case Restored(_, outcome) => status == Running && Terminal(outcome)
    case _ => status == Running
  }

  /** One server at a time: every active server belongs to the committed job. */
  ghost predicate OneActive(s: System) {
    && (s.queue.launching.Some? ==> s.queue.current == None)
    && (forall id :: id in s.servers ==> id in s.table && StatusFits(s.table[id].status, s.servers[id].phase))
    && (forall id: JobId :: Active(s, id) ==> Committed(s) == Some(id))
    && (forall id :: id in s.servers && s.servers[id].portOpen ==> s.servers[id].phase.Serving?)
    && (forall id :: id in s.table && s.table[id].status == Running ==> id in s.servers || id in s.raised)
  }

  /** A job whose server stopped silently stays committed, with no end on the way; if the server died
      of an exception, its row is still running. */
  ghost predicate LostFits(s: System) {
    && s.raised <= s.silent
    && (forall id :: id in s.silent ==>
          Committed(s) == Some(id) && id !in s.servers && id in s.table && JobFinished(id) !in s.queue.mailbox)
    && (forall id :: id in s.raised ==> id in s.table && s.table[id].status == Running)
  }

  /** The text a server will put back. */
  function Saved(phase: Phase): Option<Text> {
    match phase
    case ReadToml(text) => Some(text)
    case Ready(original) => original
    case Serving(original) => original
    case Closing(original, _) => original
    case Restored(original, _) => original
    case Settled(original, _) => original
    case Announced(original) => original
    case Aborting(original) => original
    case _ => None
  }

  /** The server has rewritten Cargo.toml and not yet put it back. */
  predicate Overriding(phase: Phase) {
    (phase.Ready? || phase.Serving? || phase.Closing? || phase.Aborting?) && phase.original.Some?
  }

  predicate UsesOverride(phase: Phase) {
    Overriding(phase) || phase.ReadToml?
  }

  /** Cargo.toml carries the override that the job asks for. */
  predicate Carries(cfg: Config, s: System, id: JobId) {
    && id in s.table && Overrides(s.table[id].branch)
    && s.toml == cfg.override(cfg.pristine, s.table[id].branch.value)
  }

  predicate OverriddenBy(cfg: Config, s: System, id: JobId) {
    id in s.servers && Overriding(s.servers[id].phase) && Carries(cfg, s, id)
  }

  /** The override of a job whose server died of an exception. */
  predicate LeftBy(cfg: Config, s: System, id: JobId) {
    id in s.raised && Carries(cfg, s, id)
  }

  /** Cargo.toml is as shipped, or carries the override of an active job or of one whose server died
      of an exception; every text saved for restoring is the shipped one. */
  ghost predicate TomlSafe(cfg: Config, s: System) {
    && (forall id :: id in s.servers && Saved(s.servers[id].phase).Some? ==>
        Saved(s.servers[id].phase).value == cfg.pristine)
    && (s.toml == cfg.pristine ||
        (Committed(s).Some? && (OverriddenBy(cfg, s, Committed(s).value) || LeftBy(cfg, s, Committed(s).value))))
    && (forall id :: id in s.servers && id in s.table && UsesOverride(s.servers[id].phase) ==>
        Overrides(s.table[id].branch))
  }

  /** No server but the given one is going to put Cargo.toml back. */
  ghost predicate NoneElseRestores(s: System, id: JobId) {
    forall other :: other in s.servers && other != id ==> Saved(s.servers[other].phase) == None
  }

  /** The timeout of a job at work is still to come or has come, and if its port is closed there is a
      message about something. */
  predicate Expects(v: Server) {
    (v.timer || TimedOut in v.mailbox) && (v.portOpen || v.mailbox != [])
  }

  /** No wake-up is lost: a committed job has a live server, or its end is on the way, or its
      server has stopped silently; and if nothing is committed while a job waits, a queue check is
      on the way. */
  ghost predicate Awake(s: System) {
    && (forall id: JobId :: JobFinished(id) in s.queue.mailbox ==>
        id in s.table && Terminal(s.table[id].status) && !Active(s, id))
    && (Committed(s).Some? ==>
          Committed(s).value in s.table &&
          (Active(s, Committed(s).value) || JobFinished(Committed(s).value) in s.queue.mailbox ||
            Committed(s).value in s.silent))
    && (Committed(s) == None && (exists id :: id in s.table && Waiting(s.table[id].status)) ==>
        CheckQueue in s.queue.mailbox)
    && (forall id :: id in s.servers && s.servers[id].phase.Serving? ==> Expects(s.servers[id]))
  }

  /** Jobs are launched once, oldest first. */
  ghost predicate InOrder(s: System) {
    && (forall id :: id in s.table ==> s.table[id].insertedAt <= s.clock)
    && (forall id :: id in s.launched ==> id in s.table)
    && (forall id :: id in s.servers ==> id in s.launched)
    && (forall id :: id in s.launched && Waiting(s.table[id].status) ==> Committed(s) == Some(id))
    && (forall i, j :: 0 <= i < j < |s.launched| ==> s.launched[i] != s.launched[j])
    && (forall i, j :: 0 <= i < j < |s.launched| ==>
        s.table[s.launched[i]].insertedAt <= s.table[s.launched[j]].insertedAt)
    && (forall id, other :: id in s.launched && other in s.table && Waiting(s.table[other].status) ==>
          other in s.launched || s.table[id].insertedAt <= s.table[other].insertedAt)
  }

  ghost predicate Inv(cfg: Config, s: System) {
    OneActive(s) && LostFits(s) && TomlSafe(cfg, s) && Awake(s) && InOrder(s)
  }

  lemma {:induction false} SavedIsShipped(cfg: Config, s: System, id: JobId)
    requires TomlSafe(cfg, s) && id in s.servers
    ensures Saved(s.servers[id].phase) == None || Saved(s.servers[id].phase) == Some(cfg.pristine)
  {
  }

  lemma {:induction false} InitialInv(cfg: Config)
    ensures Inv(cfg, Initial(cfg))
  {
  }

  // --------------------------------------------------------------- steps of the servers

  /** A server's step changes its own process and row, and perhaps Cargo.toml, the queue's mailbox
      and the set of silent jobs. */
  ghost predicate OnlyAt(s: System, t: System, id: JobId) {
    && t.clock == s.clock && t.launched == s.launched
    && t.queue.current == s.queue.current && t.queue.launching == s.queue.launching
    && t.table.Keys == s.table.Keys && id in s.table && id in s.servers
    && (forall other :: other in s.table && other != id ==> t.table[other] == s.table[other])
    && t.table[id] == s.table[id].(status := t.table[id].status)
    && s.servers.Keys - {id} <= t.servers.Keys <= s.servers.Keys
    && (forall other :: other in s.servers && other != id ==> t.servers[other] == s.servers[other])
    && s.raised <= t.raised <= s.raised + {id} && s.silent <= t.silent <= s.silent + {id}
  }

  /** What a step does to its own server, its row and the queue's mailbox. */
  ghost predicate OwnStep(s: System, t: System, id: JobId)
    requires OnlyAt(s, t, id)
  {
    && (id in t.servers ==> StatusFits(t.table[id].status, t.servers[id].phase))
    && (id in t.servers && t.servers[id].portOpen ==> t.servers[id].phase.Serving?)
    && (id in t.servers && t.servers[id].phase.Serving? ==> Expects(t.servers[id]))
    && (t.table[id].status == Running ==> id in t.servers || id in t.raised)
    && (id in t.silent ==> id in s.silent || (Active(s, id) && id !in t.servers && t.queue == s.queue))
    && (id in t.raised ==> id in s.raised || (id in t.silent && t.table[id].status == Running))
    && (Terminal(s.table[id].status) ==> t.table[id].status == s.table[id].status)
    && (Waiting(t.table[id].status) ==> Waiting(s.table[id].status))
    && (Active(t, id) ==> Active(s, id))
    && (Active(s, id) ==> Active(t, id) || JobFinished(id) in t.queue.mailbox || id in t.silent)
    && (t.queue.mailbox == s.queue.mailbox ||
        (t.queue.mailbox == s.queue.mailbox + [JobFinished(id)] && Terminal(t.table[id].status) && !Active(t, id)))
  }

  lemma {:induction false} ServerLocal(cfg: Config, s: System, id: JobId, step: ServerStep)
    requires Enabled(s, ByServer(id, step))
    ensures OnlyAt(s, Effect(cfg, s, ByServer(id, step)), id)
  {
  }

  ghost predicate OwnFits(s: System, id: JobId)
    requires id in s.servers && id in s.table
  {
    var v := s.servers[id];
    && StatusFits(s.table[id].status, v.phase)
    && (v.portOpen ==> v.phase.Serving?)
    && (v.phase.Serving? ==> Expects(v))
  }

  /** Steps up to the opened port, and the silent stops. */
  predicate Starting(step: ServerStep) {
    || step.MarkRunning? || step.RefuseStart? || step.ReadCargo? || step.WriteCargo? || step.SkipOverride?
    || step.OpenPort? || step.FailBuild? || step.AbortRestore? || step.AbortMark?
  }

  lemma {:induction false} ServerOwnStarting(cfg: Config, s: System, id: JobId, step: ServerStep)
    requires Enabled(s, ByServer(id, step)) && OnlyAt(s, Effect(cfg, s, ByServer(id, step)), id)
    requires OwnFits(s, id) && Starting(step)
    ensures OwnStep(s, Effect(cfg, s, ByServer(id, step)), id)
  {
  }

  lemma {:induction false} ServerOwnFinishing(cfg: Config, s: System, id: JobId, step: ServerStep)
    requires Enabled(s, ByServer(id, step)) && OnlyAt(s, Effect(cfg, s, ByServer(id, step)), id)
    requires OwnFits(s, id) && !Starting(step)
    ensures OwnStep(s, Effect(cfg, s, ByServer(id, step)), id)
  {
  }

  lemma {:induction false} ServerOwn(cfg: Config, s: System, id: JobId, step: ServerStep)
    requires Enabled(s, ByServer(id, step)) && OnlyAt(s, Effect(cfg, s, ByServer(id, step)), id)
    requires OwnFits(s, id)
    ensures OwnStep(s, Effect(cfg, s, ByServer(id, step)), id)
  {
    if Starting(step) {
      ServerOwnStarting(cfg, s, id, step);
    } else {
      ServerOwnFinishing(cfg, s, id, step);
    }
  }

  lemma {:induction false} OwnStepKeepsOneActive(s: System, t: System, id: JobId)
    requires OneActive(s) && OnlyAt(s, t, id) && OwnStep(s, t, id)
    ensures OneActive(t)
  {
  }

  lemma {:induction false} OwnStepKeepsLost(s: System, t: System, id: JobId)
    requires OneActive(s) && LostFits(s) && Awake(s) && OnlyAt(s, t, id) && OwnStep(s, t, id)
    ensures LostFits(t)
  {
    assert id !in s.silent;
  }

  lemma {:induction false} OwnStepKeepsAwake(s: System, t: System, id: JobId)
    requires OneActive(s) && Awake(s) && OnlyAt(s, t, id) && OwnStep(s, t, id)
    ensures Awake(t)
  {
    if Committed(t) == None && exists other :: other in t.table && Waiting(t.table[other].status) {
      var other :| other in t.table && Waiting(t.table[other].status);
      assert Waiting(s.table[other].status);
    }
  }

  /** The order is kept by a step that launches nothing, submits nothing and makes no job wait. */
  lemma {:induction false} SameJobsInOrder(s: System, t: System)
    requires InOrder(s) && t.clock == s.clock && t.launched == s.launched
    requires t.servers.Keys <= s.servers.Keys && t.table.Keys == s.table.Keys
    requires forall id :: id in s.table ==> t.table[id].insertedAt == s.table[id].insertedAt
    requires forall id :: id in s.table && Waiting(t.table[id].status) ==> Waiting(s.table[id].status)
    requires forall id :: id in s.launched && Waiting(t.table[id].status) ==> Committed(t) == Committed(s)
    ensures InOrder(t)
  {
  }

  lemma {:induction false} OwnStepKeepsOrder(s: System, t: System, id: JobId)
    requires InOrder(s) && OnlyAt(s, t, id) && OwnStep(s, t, id)
    ensures InOrder(t)
  {
    SameJobsInOrder(s, t);
  }

  /** Cargo.toml across a server's step: the only write other than the shipped text is the override
      that the committed job asks for, and it replaces the shipped text. */
  lemma {:induction false} ServerKeepsToml(cfg: Config, s: System, id: JobId, step: ServerStep)
    requires OneActive(s) && LostFits(s) && TomlSafe(cfg, s) && Enabled(s, ByServer(id, step))
    requires OnlyAt(s, Effect(cfg, s, ByServer(id, step)), id)
    ensures var t := Effect(cfg, s, ByServer(id, step));
            && TomlSafe(cfg, t)
            && (t.toml == s.toml || t.toml == cfg.pristine ||
                (step.WriteCargo? && Committed(s) == Some(id) && s.toml == cfg.pristine && Carries(cfg, t, id)))
  {
    var t := Effect(cfg, s, ByServer(id, step));
    OwnToml(cfg, s, id, step);
    TomlByFrame(cfg, s, t, id);
    SavedIsShipped(cfg, s, id);
    ServerWrites(cfg, s, id, step);
  }

  lemma {:induction false} ServerWrites(cfg: Config, s: System, id: JobId, step: ServerStep)
    requires Enabled(s, ByServer(id, step))
    requires Saved(s.servers[id].phase) == None || Saved(s.servers[id].phase) == Some(cfg.pristine)
    ensures var t := Effect(cfg, s, ByServer(id, step));
            || t.toml == s.toml || t.toml == cfg.pristine
            || (step.WriteCargo? && t.toml == cfg.override(cfg.pristine, s.table[id].branch.value) &&
                t.table == s.table && Overrides(s.table[id].branch))
  {
  }

  ghost predicate OwnTomlStep(cfg: Config, s: System, t: System, id: JobId)
    requires OnlyAt(s, t, id)
  {
    && (id in t.servers && Saved(t.servers[id].phase).Some? ==> Saved(t.servers[id].phase).value == cfg.pristine)
    && (id in t.servers && UsesOverride(t.servers[id].phase) ==> Overrides(t.table[id].branch))
    && (|| t.toml == cfg.pristine
        || (t.toml == s.toml && (OverriddenBy(cfg, s, id) ==> OverriddenBy(cfg, t, id) || LeftBy(cfg, t, id)))
        || (Committed(s) == Some(id) && OverriddenBy(cfg, t, id)))
  }

  ghost predicate OwnTomlFits(cfg: Config, s: System, id: JobId)
    requires id in s.servers && id in s.table
  {
    var v := s.servers[id];
    && (Saved(v.phase).Some? ==> Saved(v.phase).value == cfg.pristine)
    && (UsesOverride(v.phase) ==> Overrides(s.table[id].branch))
    && (!v.phase.Announced? ==> Committed(s) == Some(id))
    && (v.phase.Marked? ==> s.toml == cfg.pristine)
  }

  lemma {:induction false} OwnTomlStarting(cfg: Config, s: System, id: JobId, step: ServerStep)
    requires Enabled(s, ByServer(id, step)) && OnlyAt(s, Effect(cfg, s, ByServer(id, step)), id)
    requires OwnTomlFits(cfg, s, id) && Starting(step)
    ensures OwnTomlStep(cfg, s, Effect(cfg, s, ByServer(id, step)), id)
  {
  }

  /** Steps that change nothing but the server's mailbox, its port and what it is about to do. */
  predicate Receiving(step: ServerStep) {
    step.PortExits? || step.PortDies? || step.TimerFires? || step.HandleMessage?
  }

  lemma {:induction false} OwnTomlReceiving(cfg: Config, s: System, id: JobId, step: ServerStep)
    requires Enabled(s, ByServer(id, step)) && OnlyAt(s, Effect(cfg, s, ByServer(id, step)), id)
    requires OwnTomlFits(cfg, s, id) && Receiving(step)
    ensures OwnTomlStep(cfg, s, Effect(cfg, s, ByServer(id, step)), id)
  {
  }

  lemma {:induction false} OwnTomlEnding(cfg: Config, s: System, id: JobId, step: ServerStep)
    requires Enabled(s, ByServer(id, step)) && OnlyAt(s, Effect(cfg, s, ByServer(id, step)), id)
    requires OwnTomlFits(cfg, s, id) && !Starting(step) && !Receiving(step)
    ensures OwnTomlStep(cfg, s, Effect(cfg, s, ByServer(id, step)), id)
  {
  }

  lemma {:induction false} OwnToml(cfg: Config, s: System, id: JobId, step: ServerStep)
    requires Enabled(s, ByServer(id, step)) && OnlyAt(s, Effect(cfg, s, ByServer(id, step)), id)
    requires OwnTomlFits(cfg, s, id)
    ensures OwnTomlStep(cfg, s, Effect(cfg, s, ByServer(id, step)), id)
  {
    if Starting(step) {
      OwnTomlStarting(cfg, s, id, step);
    } else if Receiving(step) {
      OwnTomlReceiving(cfg, s, id, step);
    } else {
      OwnTomlEnding(cfg, s, id, step);
    }
  }

  lemma {:induction false} TomlByFrame(cfg: Config, s: System, t: System, id: JobId)
    requires TomlSafe(cfg, s) && OnlyAt(s, t, id) && OwnTomlStep(cfg, s, t, id)
    ensures TomlSafe(cfg, t)
  {
  }

  // ---------------------------------------------------------------- steps of the queue

  lemma {:induction false} QueueKeepsLost(cfg: Config, s: System, a: Action)
    requires Inv(cfg, s) && Enabled(s, a) && !a.ByServer?
    ensures LostFits(Effect(cfg, s, a))
  {
  }

  lemma {:induction false} SubmitKeepsOneActive(cfg: Config, s: System, id: JobId, branch: Option<Text>, now: nat)
    requires Inv(cfg, s) && Enabled(s, Submit(id, branch, now))
    ensures var t := Effect(cfg, s, Submit(id, branch, now)); OneActive(t)
  {
  }

  lemma {:induction false} SubmitKeepsTomlSafe(cfg: Config, s: System, id: JobId, branch: Option<Text>, now: nat)
    requires Inv(cfg, s) && Enabled(s, Submit(id, branch, now))
    ensures var t := Effect(cfg, s, Submit(id, branch, now)); TomlSafe(cfg, t)
  {
  }

  lemma {:induction false} SubmitKeepsAwake(cfg: Config, s: System, id: JobId, branch: Option<Text>, now: nat)
    requires Inv(cfg, s) && Enabled(s, Submit(id, branch, now))
    ensures var t := Effect(cfg, s, Submit(id, branch, now)); Awake(t)
  {
  }

  lemma {:induction false} SubmitKeepsInOrder(cfg: Config, s: System, id: JobId, branch: Option<Text>, now: nat)
    requires Inv(cfg, s) && Enabled(s, Submit(id, branch, now))
    ensures var t := Effect(cfg, s, Submit(id, branch, now)); InOrder(t)
  {
  }

  /** A cancellation sent to a server is a step of that server as far as the invariant goes. */
  lemma {:induction false} CastKeepsInv(cfg: Config, s: System, id: JobId)
    requires Inv(cfg, s) && s.queue.launching == None && s.queue.current == Some(id) && id in s.servers
    ensures Inv(cfg, Effect(cfg, s, Cancel(id)))
  {
    var t := Effect(cfg, s, Cancel(id));
    assert OwnFits(s, id);
    CastIsOwn(s, t, id);
    OwnStepKeepsOneActive(s, t, id);
    OwnStepKeepsLost(s, t, id);
    OwnStepKeepsAwake(s, t, id);
    OwnStepKeepsOrder(s, t, id);
    CastIsOwnToml(cfg, s, t, id);
    TomlByFrame(cfg, s, t, id);
  }

  lemma {:induction false} CastIsOwn(s: System, t: System, id: JobId)
    requires id in s.servers && id in s.table && OwnFits(s, id) && id !in s.silent
    requires t == SetServer(s, id, Deliver(s.servers[id], CancelRequest)) && s.raised <= s.silent
    ensures OnlyAt(s, t, id) && OwnStep(s, t, id)
  {
    assert forall m :: m in s.servers[id].mailbox ==> m in t.servers[id].mailbox;
  }

  lemma {:induction false} CastIsOwnToml(cfg: Config, s: System, t: System, id: JobId)
    requires id in s.servers && id in s.table && TomlSafe(cfg, s)
    requires t == SetServer(s, id, Deliver(s.servers[id], CancelRequest)) && OnlyAt(s, t, id)
    ensures OwnTomlStep(cfg, s, t, id)
  {
    SavedIsShipped(cfg, s, id);
  }

  /** A waiting job that is not committed has no server, so its row can change by itself. */
  lemma {:induction false} WaitingHasNoServer(s: System, id: JobId)
    requires OneActive(s) && LostFits(s) && id in s.table && Waiting(s.table[id].status) && Committed(s) != Some(id)
    ensures id !in s.servers && id !in s.silent && id !in s.raised
  {
    assert !Active(s, id);
  }

  lemma {:induction false} CancelWaitingKeepsActive(s: System, id: JobId)
    requires OneActive(s) && LostFits(s) && id in s.table && Waiting(s.table[id].status) && Committed(s) != Some(id)
    ensures var t := s.(table := Mark(s.table, id, Cancelled)); OneActive(t) && LostFits(t)
  {
    WaitingHasNoServer(s, id);
  }

  lemma {:induction false} CancelWaitingKeepsToml(cfg: Config, s: System, id: JobId)
    requires TomlSafe(cfg, s) && id in s.table
    ensures TomlSafe(cfg, s.(table := Mark(s.table, id, Cancelled)))
  {
  }

  lemma {:induction false} CancelWaitingKeepsAwake(s: System, id: JobId)
    requires Awake(s) && id in s.table && Waiting(s.table[id].status)
    ensures Awake(s.(table := Mark(s.table, id, Cancelled)))
  {
    assert forall other :: other in s.table && other != id ==> s.table[other] == Mark(s.table, id, Cancelled)[other];
  }

  lemma {:induction false} CancelKeepsInv(cfg: Config, s: System, id: JobId)
    requires Inv(cfg, s) && Enabled(s, Cancel(id))
    ensures Inv(cfg, Effect(cfg, s, Cancel(id)))
  {
    if s.queue.current == Some(id) {
      if id in s.servers {
        CastKeepsInv(cfg, s, id);
      }
    } else if id in s.table && Waiting(s.table[id].status) {
      CancelWaitingKeepsActive(s, id);
      CancelWaitingKeepsToml(cfg, s, id);
      CancelWaitingKeepsAwake(s, id);
      SameJobsInOrder(s, s.(table := Mark(s.table, id, Cancelled)));
    }
  }

  lemma {:induction false} NoteFinishedKeepsOneActive(cfg: Config, s: System)
    requires Inv(cfg, s) && Enabled(s, NoteFinished)
    ensures var t := Effect(cfg, s, NoteFinished); OneActive(t)
  {
  }

  lemma {:induction false} NoteFinishedKeepsTomlSafe(cfg: Config, s: System)
    requires Inv(cfg, s) && Enabled(s, NoteFinished)
    ensures var t := Effect(cfg, s, NoteFinished); TomlSafe(cfg, t)
  {
  }

  lemma {:induction false} NoteFinishedKeepsAwake(cfg: Config, s: System)
    requires Inv(cfg, s) && Enabled(s, NoteFinished)
    ensures var t := Effect(cfg, s, NoteFinished); Awake(t)
  {
  }

  lemma {:induction false} NoteFinishedKeepsInOrder(cfg: Config, s: System)
    requires Inv(cfg, s) && Enabled(s, NoteFinished)
    ensures var t := Effect(cfg, s, NoteFinished); InOrder(t)
  {
    assert s.queue.mailbox[0] in s.queue.mailbox;
    SameJobsInOrder(s, Effect(cfg, s, NoteFinished));
  }

  lemma {:induction false} CheckKeepsOneActive(cfg: Config, s: System, pick: Option<JobId>, starts: bool)
    requires Inv(cfg, s) && Enabled(s, Check(pick, starts))
    ensures var t := Effect(cfg, s, Check(pick, starts)); OneActive(t)
  {
  }

  lemma {:induction false} CheckKeepsTomlSafe(cfg: Config, s: System, pick: Option<JobId>, starts: bool)
    requires Inv(cfg, s) && Enabled(s, Check(pick, starts))
    ensures var t := Effect(cfg, s, Check(pick, starts)); TomlSafe(cfg, t)
  {
  }

  lemma {:induction false} CheckKeepsAwake(cfg: Config, s: System, pick: Option<JobId>, starts: bool)
    requires Inv(cfg, s) && Enabled(s, Check(pick, starts))
    ensures var t := Effect(cfg, s, Check(pick, starts)); Awake(t)
  {
  }

  /** A change of the queue alone that keeps what it is committed to, who has finished, and any check
      on the way. */
  ghost predicate OnlyQueue(s: System, t: System) {
    && t == s.(queue := t.queue) && Committed(t) == Committed(s)
    && (t.queue.launching.Some? ==> t.queue.current == None)
    && (forall id: JobId :: JobFinished(id) in t.queue.mailbox <==> JobFinished(id) in s.queue.mailbox)
    && (CheckQueue in s.queue.mailbox ==> CheckQueue in t.queue.mailbox)
  }

  lemma {:induction false} OnlyQueueActive(s: System, t: System)
    requires OnlyQueue(s, t) && OneActive(s) && LostFits(s)
    ensures OneActive(t) && LostFits(t)
  {
  }

  lemma {:induction false} OnlyQueueAwake(s: System, t: System)
    requires OnlyQueue(s, t) && Awake(s)
    ensures Awake(t)
  {
  }

  lemma {:induction false} OnlyQueueToml(cfg: Config, s: System, t: System)
    requires OnlyQueue(s, t) && TomlSafe(cfg, s)
    ensures TomlSafe(cfg, t)
  {
  }

  lemma {:induction false} OnlyQueueKeepsInv(cfg: Config, s: System, t: System)
    requires OnlyQueue(s, t) && Inv(cfg, s)
    ensures Inv(cfg, t)
  {
    OnlyQueueActive(s, t);
    OnlyQueueAwake(s, t);
    OnlyQueueToml(cfg, s, t);
    SameJobsInOrder(s, t);
  }

  lemma {:induction false} AdoptKeepsInv(cfg: Config, s: System)
    requires Inv(cfg, s) && Enabled(s, Adopt)
    ensures Inv(cfg, Effect(cfg, s, Adopt))
  {
    OnlyQueueKeepsInv(cfg, s, Effect(cfg, s, Adopt));
  }

  lemma {:induction false} NoteCreatedKeepsInv(cfg: Config, s: System)
    requires Inv(cfg, s) && Enabled(s, NoteCreated)
    ensures Inv(cfg, Effect(cfg, s, NoteCreated))
  {
    assert s.queue.mailbox == [s.queue.mailbox[0]] + s.queue.mailbox[1..];
    OnlyQueueKeepsInv(cfg, s, Effect(cfg, s, NoteCreated));
  }

  /** A launch takes the oldest waiting job, which is younger than all launched before. */
  lemma {:induction false} LaunchKeepsOrder(s: System, t: System, id: JobId)
    requires InOrder(s) && Committed(s) == None && NextQueued(s.table, Some(id))
    requires t.table == s.table && t.clock == s.clock && t.launched == s.launched + [id]
    requires t.servers.Keys == s.servers.Keys + {id} && Committed(t) == Some(id)
    ensures InOrder(t)
  {
    assert id !in s.launched;
    assert forall i :: 0 <= i < |s.launched| ==> s.launched[i] in s.launched;
  }

  lemma {:induction false} CheckKeepsInOrder(cfg: Config, s: System, pick: Option<JobId>, starts: bool)
    requires Inv(cfg, s) && Enabled(s, Check(pick, starts))
    ensures InOrder(Effect(cfg, s, Check(pick, starts)))
  {
    if s.queue.current == None && pick.Some? && starts {
      LaunchKeepsOrder(s, Effect(cfg, s, Check(pick, starts)), pick.value);
    } else {
      SameJobsInOrder(s, Effect(cfg, s, Check(pick, starts)));
    }
  }

  // --------------------------------------------------------------------------- all steps

  lemma {:induction false} ServerKeepsInv(cfg: Config, s: System, id: JobId, step: ServerStep)
    requires Inv(cfg, s) && Enabled(s, ByServer(id, step))
    ensures Inv(cfg, Effect(cfg, s, ByServer(id, step)))
  {
    var t := Effect(cfg, s, ByServer(id, step));
    ServerLocal(cfg, s, id, step);
    ServerOwn(cfg, s, id, step);
    OwnStepKeepsOneActive(s, t, id);
    OwnStepKeepsLost(s, t, id);
    OwnStepKeepsAwake(s, t, id);
    OwnStepKeepsOrder(s, t, id);
    ServerKeepsToml(cfg, s, id, step);
  }

  lemma {:induction false} StepKeepsInv(cfg: Config, s: System, a: Action)
    requires Inv(cfg, s) && Enabled(s, a)
    ensures Inv(cfg, Effect(cfg, s, a))
  {
    if !a.ByServer? {
      QueueKeepsLost(cfg, s, a);
    }
    match a
    case Submit(id, branch, now) =>
      SubmitKeepsOneActive(cfg, s, id, branch, now);
      SubmitKeepsTomlSafe(cfg, s, id, branch, now);
      SubmitKeepsAwake(cfg, s, id, branch, now);
      SubmitKeepsInOrder(cfg, s, id, branch, now);
    case Cancel(id) => CancelKeepsInv(cfg, s, id);
    case Check(pick, starts) =>
      CheckKeepsOneActive(cfg, s, pick, starts);
      CheckKeepsTomlSafe(cfg, s, pick, starts);
      CheckKeepsAwake(cfg, s, pick, starts);
      CheckKeepsInOrder(cfg, s, pick, starts);
    case Adopt => AdoptKeepsInv(cfg, s);
    case NoteCreated => NoteCreatedKeepsInv(cfg, s);
    case NoteFinished =>
      NoteFinishedKeepsOneActive(cfg, s);
      NoteFinishedKeepsTomlSafe(cfg, s);
      NoteFinishedKeepsAwake(cfg, s);
      NoteFinishedKeepsInOrder(cfg, s);
    case ByServer(id, step) => ServerKeepsInv(cfg, s, id, step);
  }

  lemma {:induction false} RunKeepsInv(cfg: Config, s: System, run: seq<Action>)
    requires Inv(cfg, s) && Legal(cfg, s, run)
    ensures Inv(cfg, After(cfg, s, run))
    decreases |run|
  {
    if run != [] {
      StepKeepsInv(cfg, s, run[0]);
      RunKeepsInv(cfg, Effect(cfg, s, run[0]), run[1..]);
    }
  }

  lemma {:induction false} Reachable(cfg: Config, run: seq<Action>)
    requires Legal(cfg, Initial(cfg), run)
    ensures Inv(cfg, After(cfg, Initial(cfg), run))
  {
    InitialInv(cfg);
    RunKeepsInv(cfg, Initial(cfg), run);
  }

  // ------------------------------------------------------------------ what follows from it

  /** Mutual exclusion, in every state of every run: at most one job is marked running or has an
      open port, and it is the one the queue is committed to. */
  lemma {:induction false} MutualExclusion(cfg: Config, run: seq<Action>, id: JobId)
    requires Legal(cfg, Initial(cfg), run)
    ensures var s := After(cfg, Initial(cfg), run);
            (id in s.table && s.table[id].status == Running) || (id in s.servers && s.servers[id].portOpen) ==>
              Committed(s) == Some(id)
  {
    Reachable(cfg, run);
    ActiveExcludes(After(cfg, Initial(cfg), run), id);
  }

  predicate Busy(s: System, id: JobId) {
    (id in s.table && s.table[id].status == Running) || (id in s.servers && s.servers[id].portOpen)
  }

  /** So no two jobs are ever at work at the same time. */
  lemma {:induction false} OneAtATime(cfg: Config, run: seq<Action>, id: JobId, other: JobId)
    requires Legal(cfg, Initial(cfg), run)
    requires Busy(After(cfg, Initial(cfg), run), id) && Busy(After(cfg, Initial(cfg), run), other)
    ensures id == other
  {
    MutualExclusion(cfg, run, id);
    MutualExclusion(cfg, run, other);
  }

  lemma {:induction false} ActiveExcludes(s: System, id: JobId)
    requires OneActive(s) && LostFits(s)
    ensures (id in s.table && s.table[id].status == Running) || (id in s.servers && s.servers[id].portOpen) ==>
            Committed(s) == Some(id)
  {
  }

  /** Restoration, in every state of every run: every text saved for restoring is the shipped one,
      the file is the shipped one or the committed job's override of it, and the latter only while
      that job's server is between its override and its first restore or has died of an exception. */
  lemma {:induction false} CargoTomlRestored(cfg: Config, run: seq<Action>)
    requires Legal(cfg, Initial(cfg), run)
    ensures var s := After(cfg, Initial(cfg), run);
            && (forall id :: id in s.servers && Saved(s.servers[id].phase).Some? ==>
                Saved(s.servers[id].phase) == Some(cfg.pristine))
            && (s.toml != cfg.pristine ==>
                  Committed(s).Some? &&
                  (OverriddenBy(cfg, s, Committed(s).value) || LeftBy(cfg, s, Committed(s).value)))
            && (s.raised == {} && (forall id :: id in s.servers ==> !Overriding(s.servers[id].phase)) ==>
                s.toml == cfg.pristine)
  {
    Reachable(cfg, run);
    assert TomlSafe(cfg, After(cfg, Initial(cfg), run));
  }

  /** No lost wake-up, in every state of every run: the server of a committed job is at work, or its
      end is on the way, or it has stopped silently; and while nothing is committed and some job
      waits, a queue check is on the way. */
  lemma {:induction false} NoLostWakeUp(cfg: Config, run: seq<Action>)
    requires Legal(cfg, Initial(cfg), run)
    ensures var s := After(cfg, Initial(cfg), run);
            match Committed(s)
            case Some(id) => Active(s, id) || JobFinished(id) in s.queue.mailbox || id in s.silent
            case None => (exists id :: id in s.table && Waiting(s.table[id].status)) ==> CheckQueue in s.queue.mailbox
  {
    Reachable(cfg, run);
    assert Awake(After(cfg, Initial(cfg), run));
  }

  /** Each job is launched at most once, and jobs are launched in the order they were submitted. */
  lemma {:induction false} LaunchedOnceInOrder(cfg: Config, run: seq<Action>, i: nat, j: nat)
    requires Legal(cfg, Initial(cfg), run)
    requires i < j < |After(cfg, Initial(cfg), run).launched|
    ensures var s := After(cfg, Initial(cfg), run);
            && s.launched[i] != s.launched[j]
            && s.launched[i] in s.table && s.launched[j] in s.table
            && s.table[s.launched[i]].insertedAt <= s.table[s.launched[j]].insertedAt
  {
    Reachable(cfg, run);
    assert InOrder(After(cfg, Initial(cfg), run));
  }

  /** Completed, failed and cancelled are final. */
  lemma {:induction false} TerminalStep(cfg: Config, s: System, a: Action, id: JobId)
    requires Inv(cfg, s) && Enabled(s, a) && id in s.table
    ensures id in Effect(cfg, s, a).table
    ensures Terminal(s.table[id].status) ==> Effect(cfg, s, a).table[id] == s.table[id]
  {
    if a.ByServer? {
      ServerLocal(cfg, s, a.id, a.step);
      ServerOwn(cfg, s, a.id, a.step);
    }
  }

  lemma {:induction false} TerminalIsFinal(cfg: Config, s: System, run: seq<Action>, id: JobId)
    requires Inv(cfg, s) && Legal(cfg, s, run) && id in s.table && Terminal(s.table[id].status)
    ensures id in After(cfg, s, run).table && After(cfg, s, run).table[id] == s.table[id]
    decreases |run|
  {
    if run != [] {
      TerminalStep(cfg, s, run[0], id);
      StepKeepsInv(cfg, s, run[0]);
      TerminalIsFinal(cfg, Effect(cfg, s, run[0]), run[1..], id);
    }
  }
}
