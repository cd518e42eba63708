/** The queue drains: between client calls every step makes progress, and there is always one to
    take until all jobs are finished, unless a server stops silently. */
module JobProgress {
  import opened Options
  import opened JobSystem
  import opened JobInvariants
  import opened MapSum

  /** Clients submit and cancel; everything else the processes do by themselves. */
  predicate Internal(a: Action) {
    !a.Submit? && !a.Cancel?
  }

  /** The command ends while a cancellation or a timeout is already waiting to be handled. */
  predicate Dooms(v: Server, step: ServerStep) {
    (step.PortExits? || step.PortDies?) && v.mailbox != [] && ClosesPort(v.mailbox[0])
  }

  /** A step on one of the paths that never announce completion: the job cannot be started, or it
      ends while a cancellation or a timeout is waiting, and then that message is handled. */
  predicate SilentStop(s: System, a: Action) {
    && a.ByServer? && a.id in s.servers
    && (|| a.step.RefuseStart? || a.step.FailBuild? || a.step.AbortRestore? || a.step.AbortMark?
        || Dooms(s.servers[a.id], a.step)
        || (a.step.HandleMessage? && Raises(s.servers[a.id])))
  }

  // ---------------------------------------------------------------------- the measure

  function MsgWeight(m: QueueMsg): nat {
    match m
    case CheckQueue => 1
    case JobCreated(_) => 2
    case JobFinished(_) => 2
  }

  function MailWeight(mailbox: seq<QueueMsg>): nat {
    if mailbox == [] then 0 else MsgWeight(mailbox[0]) + MailWeight(mailbox[1..])
  }

  lemma {:induction false} MailAppend(mailbox: seq<QueueMsg>, m: QueueMsg)
    ensures MailWeight(mailbox + [m]) == MailWeight(mailbox) + MsgWeight(m)
  {
    if mailbox == [] {
      assert [m][1..] == [];
    } else {
      assert (mailbox + [m])[1..] == mailbox[1..] + [m];
      MailAppend(mailbox[1..], m);
    }
  }

  function PhaseWeight(p: Phase): nat {
    match p
    case Fresh => 15
    case Marked => 14
    case ReadToml(_) => 13
    case Ready(_) => 12
    case Serving(_) => 7
    case Closing(_, _) => 6
    case Restored(_, _) => 5
    case Settled(_, _) => 4
    case Announced(_) => 1
    case Aborting(_) => 3
    case Aborted => 2
  }

  function Weight(v: Server): nat {
    PhaseWeight(v.phase) + (if v.portOpen then 2 else 0) + (if v.timer then 2 else 0) + |v.mailbox|
  }

  ghost function Weights(servers: map<JobId, Server>): map<JobId, nat> {
    map id | id in servers :: Weight(servers[id])
  }

  ghost function Unlaunched(s: System): set<JobId> {
    set id | id in s.table && Waiting(s.table[id].status) && id !in s.launched
  }

  ghost function Measure(s: System): nat {
    16 * |Unlaunched(s)| + Sum(Weights(s.servers)) + MailWeight(s.queue.mailbox) +
      (if s.queue.launching.Some? then 1 else 0)
  }

  lemma {:induction false} SetWeight(servers: map<JobId, Server>, id: JobId, v: Server)
    ensures Sum(Weights(servers[id := v])) + (if id in servers then Weight(servers[id]) else 0) ==
            Sum(Weights(servers)) + Weight(v)
  {
    assert Weights(servers[id := v]) == Weights(servers)[id := Weight(v)];
    SumUpdate(Weights(servers), id, Weight(v));
  }

  lemma {:induction false} DropWeight(servers: map<JobId, Server>, id: JobId)
    requires id in servers
    ensures Sum(Weights(servers)) == Weight(servers[id]) + Sum(Weights(servers - {id}))
  {
    assert Weights(servers - {id}) == Weights(servers) - {id};
    SumSplit(Weights(servers), id);
  }

  // ----------------------------------------------------------------- every step counts

  lemma {:induction false} ServerMail(cfg: Config, s: System, id: JobId, step: ServerStep)
    requires Enabled(s, ByServer(id, step))
    ensures MailWeight(Effect(cfg, s, ByServer(id, step)).queue.mailbox) ==
            MailWeight(s.queue.mailbox) + (if step.Announce? then 2 else 0)
  {
    MailAppend(s.queue.mailbox, JobFinished(id));
  }

  /** The server goes on, or is gone. */
  lemma {:induction false} ServerGoesOn(cfg: Config, s: System, id: JobId, step: ServerStep)
    requires Enabled(s, ByServer(id, step))
    ensures var t := Effect(cfg, s, ByServer(id, step));
            t.servers == if id in t.servers then s.servers[id := t.servers[id]] else s.servers - {id}
    ensures id !in Effect(cfg, s, ByServer(id, step)).servers ==> !step.Announce?
  {
  }

  lemma {:induction false} ServerStepShrinks(cfg: Config, s: System, id: JobId, step: ServerStep)
    requires Inv(cfg, s) && Enabled(s, ByServer(id, step))
    ensures var t := Effect(cfg, s, ByServer(id, step));
            Sum(Weights(t.servers)) + MailWeight(t.queue.mailbox) <
            Sum(Weights(s.servers)) + MailWeight(s.queue.mailbox)
  {
    ServerMail(cfg, s, id, step);
    ServerGoesOn(cfg, s, id, step);
    ghost var servers := Effect(cfg, s, ByServer(id, step)).servers;
    if id in servers {
      SetWeight(s.servers, id, servers[id]);
      OwnWeight(cfg, s, id, step);
    } else {
      DropWeight(s.servers, id);
    }
  }

  lemma {:induction false} WeightStarting(cfg: Config, s: System, id: JobId, step: ServerStep)
    requires OneActive(s) && Enabled(s, ByServer(id, step)) && id in Effect(cfg, s, ByServer(id, step)).servers
    requires Starting(step)
    ensures var t := Effect(cfg, s, ByServer(id, step));
            Weight(t.servers[id]) + (if step.Announce? then 2 else 0) < Weight(s.servers[id])
  {
  }

  lemma {:induction false} WeightFinishing(cfg: Config, s: System, id: JobId, step: ServerStep)
    requires OneActive(s) && Enabled(s, ByServer(id, step)) && id in Effect(cfg, s, ByServer(id, step)).servers
    requires !Starting(step)
    ensures var t := Effect(cfg, s, ByServer(id, step));
            Weight(t.servers[id]) + (if step.Announce? then 2 else 0) < Weight(s.servers[id])
  {
  }

  lemma {:induction false} OwnWeight(cfg: Config, s: System, id: JobId, step: ServerStep)
    requires OneActive(s) && Enabled(s, ByServer(id, step)) && id in Effect(cfg, s, ByServer(id, step)).servers
    ensures var t := Effect(cfg, s, ByServer(id, step));
            Weight(t.servers[id]) + (if step.Announce? then 2 else 0) < Weight(s.servers[id])
  {
    if Starting(step) {
      WeightStarting(cfg, s, id, step);
    } else {
      WeightFinishing(cfg, s, id, step);
    }
  }

  lemma {:induction false} ServerKeepsUnlaunched(cfg: Config, s: System, id: JobId, step: ServerStep)
    requires Inv(cfg, s) && Enabled(s, ByServer(id, step))
    ensures Unlaunched(Effect(cfg, s, ByServer(id, step))) == Unlaunched(s)
  {
    ServerLocal(cfg, s, id, step);
    assert id in s.launched;
  }

  lemma {:induction false} CheckShrinks(cfg: Config, s: System, pick: Option<JobId>, starts: bool)
    requires Inv(cfg, s) && Enabled(s, Check(pick, starts))
    ensures Measure(Effect(cfg, s, Check(pick, starts))) < Measure(s)
  {
    var t := Effect(cfg, s, Check(pick, starts));
    MailAppend(s.queue.mailbox[1..], CheckQueue);
    if s.queue.current == None && pick.Some? {
      var id := pick.value;
      assert id in Unlaunched(s);
      assert Unlaunched(t) == Unlaunched(s) - {id};
      assert |Unlaunched(t)| + 1 == |Unlaunched(s)|;
      if starts {
        SetWeight(s.servers, id, Server(Fresh, false, false, []));
      }
    } else {
      assert Unlaunched(t) == Unlaunched(s);
    }
  }

  lemma {:induction false} NoteShrinks(cfg: Config, s: System, a: Action)
    requires Enabled(s, a) && (a.Adopt? || a.NoteCreated? || a.NoteFinished?)
    ensures Measure(Effect(cfg, s, a)) < Measure(s)
  {
    assert Unlaunched(Effect(cfg, s, a)) == Unlaunched(s);
    if !a.Adopt? {
      MailAppend(s.queue.mailbox[1..], CheckQueue);
    }
  }

  /** Every step that no client asks for makes the measure smaller, so a run without client calls
      is no longer than the measure it starts with. */
  lemma {:induction false} InternalStepShrinks(cfg: Config, s: System, a: Action)
    requires Inv(cfg, s) && Enabled(s, a) && Internal(a)
    ensures Measure(Effect(cfg, s, a)) < Measure(s)
  {
    match a
    case Check(pick, starts) => CheckShrinks(cfg, s, pick, starts);
    case ByServer(id, step) =>
      ServerStepShrinks(cfg, s, id, step);
      ServerKeepsUnlaunched(cfg, s, id, step);
    case _ => NoteShrinks(cfg, s, a);
  }

  lemma {:induction false} InternalRunsEnd(cfg: Config, s: System, run: seq<Action>)
    requires Inv(cfg, s) && Legal(cfg, s, run) && forall a :: a in run ==> Internal(a)
    ensures |run| + Measure(After(cfg, s, run)) <= Measure(s)
    decreases |run|
  {
    if run != [] {
      assert run[0] in run;
      InternalStepShrinks(cfg, s, run[0]);
      StepKeepsInv(cfg, s, run[0]);
      InternalRunsEnd(cfg, Effect(cfg, s, run[0]), run[1..]);
    }
  }

  // --------------------------------------------------------------- there is a next step

  ghost predicate AllFinished(s: System) {
    forall id :: id in s.table ==> Terminal(s.table[id].status)
  }

  /** No server has stopped silently or is about to. */
  ghost predicate NoSilence(s: System) {
    s.silent == {} && forall id :: id in s.servers ==> Announces(s.servers[id])
  }

  predicate Announces(v: Server) {
    !v.phase.Aborting? && !v.phase.Aborted? && !Raises(v)
  }

  lemma {:induction false} ServerHasStep(cfg: Config, s: System, id: JobId) returns (a: Action)
    requires Inv(cfg, s) && NoSilence(s) && Active(s, id)
    ensures Enabled(s, a) && Internal(a) && !SilentStop(s, a)
  {
    var v := s.servers[id];
    var step :=
      match v.phase
      case Fresh => MarkRunning
      case Marked => if Overrides(s.table[id].branch) then ReadCargo else SkipOverride
      case ReadToml(_) => WriteCargo
      case Ready(_) => OpenPort
      case Serving(_) => if v.mailbox == [] then TimerFires else HandleMessage
      case Closing(_, _) => Restore
      case Restored(_, _) => Settle
      case Settled(_, _) => Announce
      case _ => Terminate;
    a := ByServer(id, step);
  }

  lemma {:induction false} Oldest(table: Table, ids: set<JobId>) returns (pick: Option<JobId>)
    requires ids <= table.Keys
    ensures pick.Some? <==> ids != {}
    ensures pick.Some? ==> pick.value in ids && forall id :: id in ids ==>
            table[pick.value].insertedAt <= table[id].insertedAt
    decreases |ids|
  {
    if ids == {} {
      pick := None;
    } else {
      var id :| id in ids;
      var rest := Oldest(table, ids - {id});
      pick := if rest.None? || table[id].insertedAt <= table[rest.value].insertedAt then Some(id) else rest;
    }
  }

  lemma {:induction false} QueueHasStep(cfg: Config, s: System) returns (a: Action)
    requires Inv(cfg, s) && s.queue.launching == None && s.queue.mailbox != []
    ensures Enabled(s, a) && Internal(a) && !SilentStop(s, a)
  {
    match s.queue.mailbox[0]
    case JobCreated(_) => a := NoteCreated;
    case JobFinished(_) => a := NoteFinished;
    case CheckQueue =>
      var waiting := set id | id in s.table && Waiting(s.table[id].status);
      var pick := Oldest(s.table, waiting);
      assert forall id :: id in s.table && Waiting(s.table[id].status) ==> id in waiting;
      if pick.Some? {
        assert Waiting(s.table[pick.value].status);
      }
      a := Check(pick, true);
  }

  /** With no message on the way, an unfinished job means a committed one, whose server is active. */
  lemma {:induction false} CommittedWhenQuiet(cfg: Config, s: System, id: JobId)
    requires Inv(cfg, s) && s.silent == {} && s.queue.launching == None && s.queue.mailbox == []
    requires id in s.table && !Terminal(s.table[id].status)
    ensures s.queue.current.Some? && Active(s, s.queue.current.value)
  {
    if Waiting(s.table[id].status) {
      assert CheckQueue !in s.queue.mailbox;
    } else {
      assert s.table[id].status == Running;
      assert Active(s, id);
    }
  }

  lemma {:induction false} QueueKeepsNoSilence(cfg: Config, s: System, a: Action)
    requires Inv(cfg, s) && Enabled(s, a) && NoSilence(s) && !a.ByServer?
    ensures NoSilence(Effect(cfg, s, a))
  {
  }

  lemma {:induction false} StartKeepsAnnouncing(cfg: Config, s: System, id: JobId, step: ServerStep)
    requires Enabled(s, ByServer(id, step)) && NoSilence(s) && !SilentStop(s, ByServer(id, step)) && Starting(step)
    ensures var t := Effect(cfg, s, ByServer(id, step));
            t.silent == {} && (id in t.servers ==> Announces(t.servers[id]))
  {
  }

  lemma {:induction false} EndKeepsAnnouncing(cfg: Config, s: System, id: JobId, step: ServerStep)
    requires Enabled(s, ByServer(id, step)) && NoSilence(s) && !SilentStop(s, ByServer(id, step)) && !Starting(step)
    requires s.servers[id].phase.Serving? ==> Expects(s.servers[id])
    ensures var t := Effect(cfg, s, ByServer(id, step));
            t.silent == {} && (id in t.servers ==> Announces(t.servers[id]))
  {
  }

  lemma {:induction false} StepKeepsNoSilence(cfg: Config, s: System, a: Action)
    requires Inv(cfg, s) && Enabled(s, a) && NoSilence(s) && !SilentStop(s, a)
    ensures NoSilence(Effect(cfg, s, a))
  {
    if a.ByServer? {
      ServerLocal(cfg, s, a.id, a.step);
      if Starting(a.step) {
        StartKeepsAnnouncing(cfg, s, a.id, a.step);
      } else {
        EndKeepsAnnouncing(cfg, s, a.id, a.step);
      }
    } else {
      QueueKeepsNoSilence(cfg, s, a);
    }
  }

  /** As long as some job is unfinished, some process has a step to take, and one that does not
      stop silently. */
  lemma {:induction false} ProgressPossible(cfg: Config, s: System) returns (a: Action)
    requires Inv(cfg, s) && NoSilence(s) && !AllFinished(s)
    ensures Enabled(s, a) && Internal(a) && !SilentStop(s, a)
  {
    if s.queue.launching.Some? {
      a := Adopt;
    } else if s.queue.mailbox != [] {
      a := QueueHasStep(cfg, s);
    } else {
      var id :| id in s.table && !Terminal(s.table[id].status);
      CommittedWhenQuiet(cfg, s, id);
      a := ServerHasStep(cfg, s, s.queue.current.value);
    }
  }

  /** No step of the run is a silent stop. */
  ghost predicate Unbroken(cfg: Config, s: System, run: seq<Action>)
    requires Legal(cfg, s, run)
    decreases |run|
  {
    run != [] ==> !SilentStop(s, run[0]) && Unbroken(cfg, Effect(cfg, s, run[0]), run[1..])
  }

  /** A run by which the processes finish all jobs on their own. */
  ghost predicate Finishes(cfg: Config, s: System, run: seq<Action>) {
    Legal(cfg, s, run) && (forall a :: a in run ==> Internal(a)) && AllFinished(After(cfg, s, run))
  }

  lemma {:induction false} PrependStep(cfg: Config, s: System, a: Action, rest: seq<Action>)
    requires Enabled(s, a) && Internal(a) && !SilentStop(s, a)
    requires Finishes(cfg, Effect(cfg, s, a), rest) && Unbroken(cfg, Effect(cfg, s, a), rest)
    ensures Finishes(cfg, s, [a] + rest) && Unbroken(cfg, s, [a] + rest)
  {
    assert ([a] + rest)[1..] == rest;
  }

  /** From every reachable state without silence the processes can finish every job on their own. */
  lemma {:induction false} Drains(cfg: Config, s: System) returns (run: seq<Action>)
    requires Inv(cfg, s) && NoSilence(s)
    ensures Finishes(cfg, s, run) && Unbroken(cfg, s, run) && |run| <= Measure(s)
    decreases Measure(s)
  {
    if AllFinished(s) {
      run := [];
    } else {
      var a := ProgressPossible(cfg, s);
      InternalStepShrinks(cfg, s, a);
      StepKeepsInv(cfg, s, a);
      StepKeepsNoSilence(cfg, s, a);
      var rest := Drains(cfg, Effect(cfg, s, a));
      PrependStep(cfg, s, a, rest);
      run := [a] + rest;
    }
  }

  lemma {:induction false} RunKeepsNoSilence(cfg: Config, s: System, run: seq<Action>)
    requires Inv(cfg, s) && NoSilence(s) && Legal(cfg, s, run) && Unbroken(cfg, s, run)
    ensures NoSilence(After(cfg, s, run))
    decreases |run|
  {
    if run != [] {
      StepKeepsNoSilence(cfg, s, run[0]);
      StepKeepsInv(cfg, s, run[0]);
      RunKeepsNoSilence(cfg, Effect(cfg, s, run[0]), run[1..]);
    }
  }

  /** Whatever order the processes take their steps in, and whatever clients do meanwhile, without
      silent stops they come to rest only when every job is finished. */
  lemma {:induction false} RestsOnlyWhenFinished(cfg: Config, run: seq<Action>)
    requires Legal(cfg, Initial(cfg), run) && Unbroken(cfg, Initial(cfg), run)
    requires var s := After(cfg, Initial(cfg), run); forall a :: Enabled(s, a) && Internal(a) ==> SilentStop(s, a)
    ensures AllFinished(After(cfg, Initial(cfg), run))
  {
    var s := After(cfg, Initial(cfg), run);
    Reachable(cfg, run);
    InitialInv(cfg);
    RunKeepsNoSilence(cfg, Initial(cfg), run);
    if !AllFinished(s) {
      var _ := ProgressPossible(cfg, s);
    }
  }
}
