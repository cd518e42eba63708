/** What the rows of the job table say about the run that led to them. */
module JobOutcomes {
  import opened Options
  import opened JobSystem
  import opened JobInvariants

  /** What may make a job fail: it could not be started, no command could be built for it, its command
      ended with a status other than zero, its port died, or its time was over. */
  predicate Fails(a: Action, id: JobId) {
    || a == Check(Some(id), false)
    || (a.ByServer? && a.id == id &&
        (a.step.AbortMark? || a.step.PortDies? || a.step.TimerFires? || (a.step.PortExits? && a.step.code != 0)))
  }

  /** The run has what a row with this status tells of. */
  ghost predicate Accounted(run: seq<Action>, id: JobId, status: Status) {
    match status
    case Completed => ByServer(id, PortExits(0)) in run
    case Cancelled => Cancel(id) in run
    case Failed => exists a :: a in run && Fails(a, id)
    case Running => ByServer(id, MarkRunning) in run
    case _ => true
  }

  ghost predicate Sent(run: seq<Action>, id: JobId, msg: ServerMsg) {
    match msg
    case Exited(code) => ByServer(id, PortExits(code)) in run
    case PortDown => ByServer(id, PortDies) in run
    case TimedOut => ByServer(id, TimerFires) in run
    case CancelRequest => Cancel(id) in run
  }

  ghost predicate ServerAccounted(run: seq<Action>, id: JobId, v: Server) {
    && (forall msg :: msg in v.mailbox ==> Sent(run, id, msg))
    && (v.phase.Closing? || v.phase.Restored? || v.phase.Settled? ==> Accounted(run, id, v.phase.outcome))
  }

  ghost predicate AllAccounted(run: seq<Action>, s: System) {
    && (forall id :: id in s.table ==> Accounted(run, id, s.table[id].status))
    && (forall id :: id in s.servers ==> ServerAccounted(run, id, s.servers[id]))
  }

  lemma {:induction false} StillAccounted(run: seq<Action>, a: Action, s: System)
    requires AllAccounted(run, s)
    ensures AllAccounted(run + [a], s)
  {
    forall id | id in s.table ensures Accounted(run + [a], id, s.table[id].status) {
      OneAccounted(run, a, id, s.table[id].status);
    }
    forall id | id in s.servers ensures ServerAccounted(run + [a], id, s.servers[id]) {
      var v := s.servers[id];
      if v.phase.Closing? || v.phase.Restored? || v.phase.Settled? {
        OneAccounted(run, a, id, v.phase.outcome);
      }
    }
  }

  lemma {:induction false} OneAccounted(run: seq<Action>, a: Action, id: JobId, status: Status)
    requires Accounted(run, id, status)
    ensures Accounted(run + [a], id, status)
  {
    if status == Failed {
      var b :| b in run && Fails(b, id);
      assert b in run + [a];
    }
  }

  /** A message leads to the status it stands for. */
  lemma {:induction false} MessageAccounted(run: seq<Action>, id: JobId, msg: ServerMsg)
    requires Sent(run, id, msg)
    ensures Accounted(run, id, Outcome(msg))
  {
    match msg
    case Exited(code) => assert code != 0 ==> Fails(ByServer(id, PortExits(code)), id);
    case PortDown => assert Fails(ByServer(id, PortDies), id);
    case TimedOut => assert Fails(ByServer(id, TimerFires), id);
    case CancelRequest =>
  }

  lemma {:induction false} QueueAccounted(cfg: Config, run: seq<Action>, s: System, a: Action)
    requires Enabled(s, a) && !a.ByServer? && AllAccounted(run, s) && a in run
    ensures AllAccounted(run, Effect(cfg, s, a))
  {
    assert a.Check? && a.pick.Some? && !a.starts ==> Fails(a, a.pick.value);
  }

  /** The server's own part after its step. */
  lemma {:induction false} OwnAccounted(cfg: Config, run: seq<Action>, s: System, id: JobId, step: ServerStep)
    requires Enabled(s, ByServer(id, step)) && ByServer(id, step) in run
    requires ServerAccounted(run, id, s.servers[id]) && Accounted(run, id, s.table[id].status)
    ensures var t := Effect(cfg, s, ByServer(id, step));
            && id in t.table && Accounted(run, id, t.table[id].status)
            && (id in t.servers ==> ServerAccounted(run, id, t.servers[id]))
  {
    var v := s.servers[id];
    if step.HandleMessage? {
      assert v.mailbox[0] in v.mailbox;
      MessageAccounted(run, id, v.mailbox[0]);
    } else if step.AbortMark? {
      assert Fails(ByServer(id, step), id);
    }
  }

  lemma {:induction false} OthersAsBefore(cfg: Config, s: System, id: JobId, step: ServerStep)
    requires Enabled(s, ByServer(id, step))
    ensures var t := Effect(cfg, s, ByServer(id, step));
            && t.table.Keys == s.table.Keys && t.servers.Keys <= s.servers.Keys
            && (forall other :: other in s.table && other != id ==> t.table[other] == s.table[other])
            && (forall other :: other in t.servers && other != id ==> t.servers[other] == s.servers[other])
  {
  }

  lemma {:induction false} StepAccounted(cfg: Config, run: seq<Action>, s: System, a: Action)
    requires Enabled(s, a) && AllAccounted(run, s)
    ensures AllAccounted(run + [a], Effect(cfg, s, a))
  {
    StillAccounted(run, a, s);
    assert a in run + [a];
    if a.ByServer? {
      OwnAccounted(cfg, run + [a], s, a.id, a.step);
      OthersAsBefore(cfg, s, a.id, a.step);
    } else {
      QueueAccounted(cfg, run + [a], s, a);
    }
  }

  lemma {:induction false} RunAccounted(cfg: Config, s: System, done: seq<Action>, run: seq<Action>)
    requires AllAccounted(done, s) && Legal(cfg, s, run)
    ensures AllAccounted(done + run, After(cfg, s, run))
    decreases |run|
  {
    if run == [] {
      assert done + run == done;
    } else {
      StepAccounted(cfg, done, s, run[0]);
      RunAccounted(cfg, Effect(cfg, s, run[0]), done + [run[0]], run[1..]);
      assert done + [run[0]] + run[1..] == done + run;
    }
  }

  /** In every state of every run: only a job whose command has exited with status zero is completed,
      only one that a client has cancelled is cancelled, only one that something has made fail has
      failed, and only one whose server has started it is running. */
  lemma {:induction false} RowsTellTrue(cfg: Config, run: seq<Action>, id: JobId)
    requires Legal(cfg, Initial(cfg), run) && id in After(cfg, Initial(cfg), run).table
    ensures var status := After(cfg, Initial(cfg), run).table[id].status;
            && (status == Completed ==> ByServer(id, PortExits(0)) in run)
            && (status == Cancelled ==> Cancel(id) in run)
            && (status == Failed ==> exists a :: a in run && Fails(a, id))
            && (status == Running ==> ByServer(id, MarkRunning) in run)
  {
    RunAccounted(cfg, Initial(cfg), [], run);
    assert [] + run == run;
  }

  // ------------------------------------------------------------- the first message decides

  /** The status that a job ends with when the message is the one it is ended by. */
  predicate StandsFor(msg: ServerMsg, status: Status) {
    match msg
    case Exited(code) => status == if code == 0 then Completed else Failed
    case PortDown => status == Failed
    case TimedOut => status == Failed
    case CancelRequest => status == Cancelled
  }

  /** The message is next, or its server is on its way to the status it stands for, or is there, or has
      died of it. */
  predicate Heading(s: System, id: JobId, msg: ServerMsg) {
    && id in s.table
    && (|| (id in s.servers && s.servers[id].phase.Serving? && s.servers[id].mailbox != [] &&
            s.servers[id].mailbox[0] == msg)
        || (id in s.servers && (s.servers[id].phase.Closing? || s.servers[id].phase.Restored?) &&
            StandsFor(msg, s.servers[id].phase.outcome))
        || StandsFor(msg, s.table[id].status)
        || id in s.raised)
  }

  lemma {:induction false} HeadingNotWaiting(s: System, id: JobId, msg: ServerMsg)
    requires OneActive(s) && LostFits(s) && Heading(s, id, msg)
    ensures !Waiting(s.table[id].status)
  {
  }

  /** A job's row is left alone, and its server at most gets another message. */
  ghost predicate LeftAlone(s: System, t: System, id: JobId)
    requires id in s.table
  {
    && id in t.table && t.table[id] == s.table[id] && (id in s.raised ==> id in t.raised)
    && (id in s.servers ==>
          && id in t.servers && t.servers[id].phase == s.servers[id].phase
          && s.servers[id].mailbox <= t.servers[id].mailbox)
  }

  lemma {:induction false} QueueLeavesAlone(cfg: Config, s: System, a: Action, id: JobId)
    requires Enabled(s, a) && !a.ByServer? && id in s.table && !Waiting(s.table[id].status)
    ensures LeftAlone(s, Effect(cfg, s, a), id)
  {
  }

  lemma {:induction false} AloneKeepsHeading(s: System, t: System, id: JobId, msg: ServerMsg)
    requires Heading(s, id, msg) && LeftAlone(s, t, id)
    ensures Heading(t, id, msg)
  {
  }

  lemma {:induction false} QueueKeepsHeading(cfg: Config, s: System, a: Action, id: JobId, msg: ServerMsg)
    requires Inv(cfg, s) && Enabled(s, a) && !a.ByServer? && Heading(s, id, msg)
    ensures Heading(Effect(cfg, s, a), id, msg)
  {
    HeadingNotWaiting(s, id, msg);
    QueueLeavesAlone(cfg, s, a, id);
    AloneKeepsHeading(s, Effect(cfg, s, a), id, msg);
  }

  lemma {:induction false} OtherKeepsHeading(cfg: Config, s: System, other: JobId, step: ServerStep, id: JobId,
      msg: ServerMsg)
    requires Enabled(s, ByServer(other, step)) && other != id && Heading(s, id, msg)
    ensures Heading(Effect(cfg, s, ByServer(other, step)), id, msg)
  {
    ServerLocal(cfg, s, other, step);
    AloneKeepsHeading(s, Effect(cfg, s, ByServer(other, step)), id, msg);
  }

  lemma {:induction false} OwnKeepsHeading(cfg: Config, s: System, id: JobId, step: ServerStep, msg: ServerMsg)
    requires Inv(cfg, s) && Enabled(s, ByServer(id, step)) && Heading(s, id, msg)
    ensures Heading(Effect(cfg, s, ByServer(id, step)), id, msg)
  {
    TerminalStep(cfg, s, ByServer(id, step), id);
  }

  lemma {:induction false} StepKeepsHeading(cfg: Config, s: System, a: Action, id: JobId, msg: ServerMsg)
    requires Inv(cfg, s) && Enabled(s, a) && Heading(s, id, msg)
    ensures Heading(Effect(cfg, s, a), id, msg)
  {
    if !a.ByServer? {
      QueueKeepsHeading(cfg, s, a, id, msg);
    } else if a.id == id {
      OwnKeepsHeading(cfg, s, id, a.step, msg);
    } else {
      OtherKeepsHeading(cfg, s, a.id, a.step, id, msg);
    }
  }

  /** The message that a server comes to first decides, whatever arrives after it: if the job is ever
      finished, then with the status that the message stands for. */
  lemma {:induction false} FirstMessageDecides(cfg: Config, s: System, run: seq<Action>, id: JobId, msg: ServerMsg)
    requires Inv(cfg, s) && Legal(cfg, s, run) && Heading(s, id, msg)
    ensures var t := After(cfg, s, run);
            id in t.table && (Terminal(t.table[id].status) ==> StandsFor(msg, t.table[id].status))
    decreases |run|
  {
    if run == [] {
      FinishedAsHeaded(s, id, msg);
    } else {
      StepKeepsHeading(cfg, s, run[0], id, msg);
      StepKeepsInv(cfg, s, run[0]);
      FirstMessageDecides(cfg, Effect(cfg, s, run[0]), run[1..], id, msg);
    }
  }

  lemma {:induction false} FinishedAsHeaded(s: System, id: JobId, msg: ServerMsg)
    requires OneActive(s) && LostFits(s) && Heading(s, id, msg)
    ensures Terminal(s.table[id].status) ==> StandsFor(msg, s.table[id].status)
  {
  }
}
