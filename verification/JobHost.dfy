/** The callbacks of the queue and of the job servers, working on the state they share: the job
    table, Cargo.toml, and the processes' own states.  A callback that is not interrupted amounts
    to a few actions of the transition system, one after the other. */
module JobHost {
  import opened Options
  import opened JobSystem
  import opened JobInvariants

  datatype Reply = Done | InvalidStatus | NotFound

  /** What holds of every reachable state is kept by an action, by a run, and by a server's steps. */
  ghost predicate KeepsInv(cfg: Config, s: System, t: System) {
    Inv(cfg, s) ==> Inv(cfg, t)
  }

  lemma {:induction false} ActionKeepsInv(cfg: Config, s: System, a: Action)
    requires Enabled(s, a)
    ensures KeepsInv(cfg, s, Effect(cfg, s, a))
  {
    if Inv(cfg, s) {
      StepKeepsInv(cfg, s, a);
    }
  }

  lemma {:induction false} WholeRunKeepsInv(cfg: Config, s: System, run: seq<Action>)
    requires Legal(cfg, s, run)
    ensures KeepsInv(cfg, s, After(cfg, s, run))
  {
    if Inv(cfg, s) {
      RunKeepsInv(cfg, s, run);
    }
  }

  /** A job was tried: it has been launched, or has failed and the queue is to be checked again; or there
      was none. */
  ghost predicate Tried(s: System, t: System, pick: Option<JobId>, startable: bool)
    requires s.queue.mailbox != [] && (pick.Some? ==> pick.value in s.table)
  {
    var rest := s.queue.mailbox[1..];
    if pick == None then
      t.table == s.table && t.servers == s.servers && t.queue == Queue(None, None, rest) && t.launched == s.launched
    else if startable && pick.value !in s.servers then
      && t.table == s.table && t.servers == s.servers[pick.value := Server(Fresh, false, false, [])]
      && t.queue == Queue(pick, None, rest) && t.launched == s.launched + [pick.value]
    else
      && t.table == s.table[pick.value := s.table[pick.value].(status := Failed)] && t.servers == s.servers
      && t.queue == Queue(None, None, rest + [CheckQueue]) && t.launched == s.launched
  }

  class Host {
    const cfg: Config
    var rows: Table
    var toml: Text
    var clock: nat
    var currentJobId: Option<JobId>
    var launching: Option<JobId>
    var mailbox: seq<QueueMsg>
    var servers: map<JobId, Server>
    ghost var launched: seq<JobId>
    ghost var silent: set<JobId>
    ghost var raised: set<JobId>

    ghost function State(): System
      reads this
    {
      System(rows, toml, clock, Queue(currentJobId, launching, mailbox), servers, launched, silent, raised)
    }

    constructor (cfg: Config)
      ensures this.cfg == cfg && State() == Initial(cfg) && Inv(cfg, State())
      ensures rows == map[] && toml == cfg.pristine && servers == map[] && launched == []
      ensures currentJobId == None && launching == None && mailbox == [CheckQueue]
    {
      InitialInv(cfg);
      this.cfg := cfg;
      rows, toml, clock := map[], cfg.pristine, 0;
      currentJobId, launching, mailbox := None, None, [CheckQueue];
      servers, launched, silent, raised := map[], [], {}, {};
    }

    // ------------------------------------------------------------------ the job table

    method UpdateJob(id: JobId, status: Status)
      requires id in rows
      modifies this`rows
      ensures rows == Mark(old(rows), id, status)
    {
      rows := rows[id := rows[id].(status := status)];
    }

    method GetNextQueuedJob() returns (pick: Option<JobId>)
      ensures NextQueued(rows, pick)
      ensures pick == None ==> forall id :: id in rows ==> rows[id].status !in {Pending, Queued}
      ensures pick.Some? ==> pick.value in rows && rows[pick.value].status in {Pending, Queued}
      ensures pick.Some? ==> forall id :: id in rows && rows[id].status in {Pending, Queued} ==>
                rows[pick.value].insertedAt <= rows[id].insertedAt
    {
      pick := None;
      var pending := rows.Keys;
      while pending != {}
        invariant pending <= rows.Keys
        invariant pick.Some? ==> pick.value in rows && Waiting(rows[pick.value].status)
        invariant forall id :: id in rows && id !in pending && Waiting(rows[id].status) ==>
                    pick.Some? && rows[pick.value].insertedAt <= rows[id].insertedAt
        decreases pending
      {
        var id :| id in pending;
        if Waiting(rows[id].status) && (pick.None? || rows[id].insertedAt < rows[pick.value].insertedAt) {
          pick := Some(id);
        }
        pending := pending - {id};
      }
    }

    // --------------------------------------------------------------- the queue's callbacks

    method SubmitJob(id: JobId, branch: Option<Text>, now: nat)
      requires Enabled(State(), Submit(id, branch, now))
      modifies this
      ensures State() == Effect(cfg, old(State()), Submit(id, branch, now))
      ensures rows == old(rows)[id := Row(Pending, now, branch)] && servers == old(servers)
      ensures mailbox == old(mailbox) + [JobCreated(id), CheckQueue] && currentJobId == old(currentJobId)
      ensures KeepsInv(cfg, old(State()), State())
    {
      ActionKeepsInv(cfg, State(), Submit(id, branch, now));
      rows := rows[id := Row(Pending, now, branch)];
      clock := now;
      mailbox := mailbox + [JobCreated(id)];
      mailbox := mailbox + [CheckQueue];
      assert mailbox == old(mailbox) + [JobCreated(id), CheckQueue];
    }

    method CancelJob(id: JobId) returns (reply: Reply)
      requires Enabled(State(), Cancel(id))
      modifies this
      ensures State() == Effect(cfg, old(State()), Cancel(id))
      ensures mailbox == old(mailbox) && currentJobId == old(currentJobId)
      ensures old(currentJobId) == Some(id) ==>
                && reply == Done && rows == old(rows)
                && servers == if id in old(servers) then old(servers)[id := Deliver(old(servers)[id], CancelRequest)]
                              else old(servers)
      ensures old(currentJobId) != Some(id) ==> servers == old(servers)
      ensures old(currentJobId) != Some(id) && id in old(rows) && old(rows)[id].status in {Pending, Queued} ==>
                reply == Done && rows == old(rows)[id := old(rows)[id].(status := Cancelled)]
      ensures old(currentJobId) != Some(id) && id in old(rows) && old(rows)[id].status !in {Pending, Queued} ==>
                reply == InvalidStatus && rows == old(rows)
      ensures old(currentJobId) != Some(id) && id !in old(rows) ==> reply == NotFound && rows == old(rows)
      ensures KeepsInv(cfg, old(State()), State())
    {
      ActionKeepsInv(cfg, State(), Cancel(id));
      if currentJobId == Some(id) {
        CastCancel(id);
        reply := Done;
      } else if id in rows {
        if Waiting(rows[id].status) {
          UpdateJob(id, Cancelled);
          reply := Done;
        } else {
          reply := InvalidStatus;
        }
      } else {
        reply := NotFound;
      }
    }

    /** A cast to a server that is gone is dropped. */
    method CastCancel(id: JobId)
      modifies this`servers
      ensures servers == if id in old(servers) then old(servers)[id := Deliver(old(servers)[id], CancelRequest)]
              else old(servers)
    {
      if id in servers {
        servers := servers[id := Deliver(servers[id], CancelRequest)];
      }
    }

    /** Starting a server may fail, for one because its name is still taken; then the next job is
        tried. */
    method HandleCheckQueue(startable: bool) returns (ghost run: seq<Action>)
      requires launching == None && mailbox != [] && mailbox[0] == CheckQueue
      modifies this
      ensures Legal(cfg, old(State()), run) && State() == After(cfg, old(State()), run)
      ensures run != [] && run[0].Check? && (old(currentJobId) == None ==> NextQueued(old(rows), run[0].pick))
      ensures launching == None && toml == old(toml)
      ensures old(currentJobId) != None ==>
                && rows == old(rows) && servers == old(servers) && currentJobId == old(currentJobId)
                && mailbox == old(mailbox)[1..]
      ensures old(currentJobId) == None ==> Tried(old(State()), State(), run[0].pick, startable)
      ensures KeepsInv(cfg, old(State()), State())
    {
      if currentJobId != None {
        run := [Check(None, false)];
        RunOne(cfg, State(), run[0]);
        mailbox := mailbox[1..];
      } else {
        run := StartNext(startable);
      }
      WholeRunKeepsInv(cfg, old(State()), run);
    }

    /** No job is running: tries to start the next one. */
    method StartNext(startable: bool) returns (ghost run: seq<Action>)
      requires launching == None && currentJobId == None && mailbox != [] && mailbox[0] == CheckQueue
      modifies this
      ensures Legal(cfg, old(State()), run) && State() == After(cfg, old(State()), run)
      ensures run != [] && run[0].Check? && NextQueued(old(rows), run[0].pick)
      ensures launching == None && toml == old(toml)
      ensures Tried(old(State()), State(), run[0].pick, startable)
    {
      var pick := GetNextQueuedJob();
      var starts := startable && pick.Some? && pick.value !in servers;
      var check := Check(pick, starts);
      run := [check];
      RunOne(cfg, State(), check);
      if pick.Some? && starts {
        RunOneMore(cfg, State(), run, Adopt);
        run := run + [Adopt];
        LaunchServer(pick.value);
      } else if pick.Some? {
        mailbox := mailbox[1..] + [CheckQueue];
        UpdateJob(pick.value, Failed);
      } else {
        mailbox := mailbox[1..];
      }
    }

    method LaunchServer(id: JobId)
      requires mailbox != []
      modifies this
      ensures rows == old(rows) && toml == old(toml) && clock == old(clock)
      ensures silent == old(silent) && raised == old(raised)
      ensures mailbox == old(mailbox)[1..] && currentJobId == Some(id) && launching == old(launching)
      ensures servers == old(servers)[id := Server(Fresh, false, false, [])] && launched == old(launched) + [id]
    {
      mailbox := mailbox[1..];
      servers := servers[id := Server(Fresh, false, false, [])];
      launched := launched + [id];
      currentJobId := Some(id);
    }

    method HandleJobFinished()
      requires Enabled(State(), NoteFinished)
      modifies this
      ensures State() == Effect(cfg, old(State()), NoteFinished)
      ensures rows == old(rows) && servers == old(servers) && toml == old(toml)
      ensures old(currentJobId) == Some(old(mailbox)[0].id) ==>
                currentJobId == None && mailbox == old(mailbox)[1..] + [CheckQueue]
      ensures old(currentJobId) != Some(old(mailbox)[0].id) ==>
                currentJobId == old(currentJobId) && mailbox == old(mailbox)[1..]
      ensures KeepsInv(cfg, old(State()), State())
    {
      ActionKeepsInv(cfg, State(), NoteFinished);
      var id := mailbox[0].id;
      mailbox := mailbox[1..];
      if currentJobId == Some(id) {
        mailbox := mailbox + [CheckQueue];
        currentJobId := None;
      }
    }

    method HandleJobCreated()
      requires Enabled(State(), NoteCreated)
      modifies this
      ensures State() == Effect(cfg, old(State()), NoteCreated)
      ensures rows == old(rows) && servers == old(servers) && currentJobId == old(currentJobId)
      ensures mailbox == old(mailbox)[1..] + [CheckQueue]
      ensures KeepsInv(cfg, old(State()), State())
    {
      ActionKeepsInv(cfg, State(), NoteCreated);
      mailbox := mailbox[1..] + [CheckQueue];
    }

    // -------------------------------------------------------------- the server's callbacks

    method ApplyBranchOverride(id: JobId) returns (original: Option<Text>)
      requires id in rows
      modifies this`toml
      ensures original == if Overrides(rows[id].branch) then Some(old(toml)) else None
      ensures toml == if Overrides(rows[id].branch) then cfg.override(old(toml), rows[id].branch.value) else old(toml)
      ensures original == None <==> rows[id].branch == None || rows[id].branch == Some("")
    {
      match rows[id].branch {
        case None => original := None;
        case Some("") => original := None;
        case Some(branch) =>
          original := Some(toml);
          toml := cfg.override(toml, branch);
      }
    }

    method RestoreCargoToml(original: Option<Text>)
      modifies this`toml
      ensures toml == PutBack(old(toml), original)
    {
      if original.Some? {
        toml := original.value;
      }
    }

    method SetPhase(id: JobId, phase: Phase)
      requires id in servers
      modifies this`servers
      ensures servers == old(servers)[id := old(servers)[id].(phase := phase)]
    {
      servers := servers[id := servers[id].(phase := phase)];
    }

    method OpenPortFor(id: JobId, original: Option<Text>)
      requires id in servers
      modifies this`servers
      ensures servers == old(servers)[id := old(servers)[id].(phase := Serving(original), portOpen := true,
              timer := true)]
    {
      servers := servers[id := servers[id].(phase := Serving(original), portOpen := true, timer := true)];
    }

    /** No command could be built: the server stops without telling the queue. */
    method AbandonJob(id: JobId, original: Option<Text>)
      requires id in rows && id in servers
      modifies this
      ensures toml == PutBack(old(toml), original) && rows == Mark(old(rows), id, Failed)
      ensures servers == old(servers) - {id} && silent == old(silent) + {id}
      ensures clock == old(clock) && launched == old(launched) && raised == old(raised)
      ensures currentJobId == old(currentJobId) && launching == old(launching) && mailbox == old(mailbox)
    {
      RestoreCargoToml(original);
      UpdateJob(id, Failed);
      servers := servers - {id};
      silent := silent + {id};
    }

    /** The actions of :start_job, for a job with or without an override whose command can or cannot
        be built. */
    static function StartRun(id: JobId, overrides: bool, builds: bool): seq<ServerStep> {
      [MarkRunning] + (if overrides then [ReadCargo, WriteCargo] else [SkipOverride]) +
      (if builds then [OpenPort] else [FailBuild, AbortRestore, AbortMark])
    }

    /** Notes the start and puts the override in place, if one is asked for. */
    method MarkAndOverride(id: JobId) returns (original: Option<Text>)
      requires id in rows && id in servers
      modifies this`rows, this`servers, this`toml
      ensures rows == Mark(old(rows), id, Running)
      ensures servers == old(servers)[id := old(servers)[id].(phase := Marked)]
      ensures original == if Overrides(old(rows)[id].branch) then Some(old(toml)) else None
      ensures toml == if original.Some? then cfg.override(old(toml), old(rows)[id].branch.value) else old(toml)
    {
      UpdateJob(id, Running);
      SetPhase(id, Marked);
      original := ApplyBranchOverride(id);
    }

    method HandleStartJob(id: JobId, builds: bool)
      requires id in rows && id in servers && servers[id].phase == Fresh
      modifies this
      ensures Reached(cfg, old(State()), id, StartRun(id, Overrides(old(rows)[id].branch), builds)) == Some(State())
      ensures !builds ==> toml == old(toml) && id !in servers
      ensures builds && Overrides(old(rows)[id].branch) ==> toml == cfg.override(old(toml), old(rows)[id].branch.value)
      ensures builds && !Overrides(old(rows)[id].branch) ==> toml == old(toml)
      ensures rows == old(rows)[id := old(rows)[id].(status := if builds then Running else Failed)]
      ensures builds ==> id in servers && servers[id].portOpen && servers[id].timer
      ensures builds ==> Saved(servers[id].phase) == if Overrides(old(rows)[id].branch) then Some(old(toml)) else None
      ensures mailbox == old(mailbox) && currentJobId == old(currentJobId)
      ensures KeepsInv(cfg, old(State()), State())
    {
      ReachedKeepsInv(cfg, State(), id, StartRun(id, Overrides(rows[id].branch), builds));
      ghost var s0 := State();
      var original := MarkAndOverride(id);
      if builds {
        OpenPortFor(id, original);
        StartedReached(cfg, s0, id, State());
      } else {
        AbandonJob(id, original);
        AbandonedReached(cfg, s0, id, State());
      }
    }

    /** Closing a port fails if the port is not open. */
    method ClosePort(id: JobId) returns (ok: bool)
      requires id in servers
      modifies this`servers
      ensures ok == old(servers)[id].portOpen
      ensures servers == if ok then old(servers)[id := old(servers)[id].(portOpen := false)] else old(servers)
    {
      ok := servers[id].portOpen;
      if ok {
        servers := servers[id := servers[id].(portOpen := false)];
      }
    }

    /** An exception in a callback brings on terminate, which closes the port once more, fails in the
        same way, and so never comes to its restore. */
    method Die(id: JobId)
      requires id in servers && Raises(servers[id])
      modifies this`servers, this`silent, this`raised
      ensures State() == Silence(old(State()), id).(raised := old(raised) + {id})
    {
      var ok := ClosePort(id);
      assert !ok;
      servers := servers - {id};
      silent, raised := silent + {id}, raised + {id};
    }

    /** A timeout or a cancellation is next, and the port has closed. */
    static predicate FindsClosed(v: Server)
      requires v.mailbox != []
    {
      (v.mailbox[0] == TimedOut || v.mailbox[0] == CancelRequest) && !v.portOpen
    }

    /** The clauses for the exit status, the timeout, the port's death and cancellation: close the
        port, put Cargo.toml back, settle the row, tell the queue.  The clauses that close the port
        themselves fail at that if it is gone already, and then nothing of the rest happens. */
    method HandleEnd(id: JobId)
      requires id in rows && id in servers && servers[id].phase.Serving? && servers[id].mailbox != []
      modifies this
      ensures FindsClosed(old(servers)[id]) ==>
                && State() == Effect(cfg, old(State()), ByServer(id, HandleMessage))
                && id !in servers && rows == old(rows) && toml == old(toml) && mailbox == old(mailbox)
      ensures !FindsClosed(old(servers)[id]) ==>
                && Reached(cfg, old(State()), id, [HandleMessage, Restore, Settle, Announce]) == Some(State())
                && rows == old(rows)[id := old(rows)[id].(status := rows[id].status)]
                && toml == (match old(servers)[id].phase.original case Some(text) => text case None => old(toml))
                && mailbox == old(mailbox) + [JobFinished(id)]
      ensures !FindsClosed(old(servers)[id]) ==>
                match old(servers)[id].mailbox[0]
                case Exited(code) => rows[id].status == if code == 0 then Completed else Failed
                case PortDown => rows[id].status == Failed
                case TimedOut => rows[id].status == Failed
                case CancelRequest => rows[id].status == Cancelled
      ensures KeepsInv(cfg, old(State()), State())
    {
      ActionKeepsInv(cfg, State(), ByServer(id, HandleMessage));
      ReachedKeepsInv(cfg, State(), id, [HandleMessage, Restore, Settle, Announce]);
      var msg := servers[id].mailbox[0];
      if ClosesPort(msg) {
        var ok := ClosePort(id);
        if !ok {
          Die(id);
          return;
        }
      }
      FinishJob(id, old(State()));
    }

    /** What the clauses have in common once the port is closed. */
    method FinishJob(id: JobId, ghost s0: System)
      requires id in rows && id in servers && servers[id].phase.Serving? && servers[id].mailbox != []
      requires id in s0.servers && !Raises(s0.servers[id]) && State() == s0.(servers := servers)
      requires servers == s0.servers[id := s0.servers[id].(portOpen := servers[id].portOpen)]
      modifies this
      ensures Reached(cfg, s0, id, [HandleMessage, Restore, Settle, Announce]) == Some(State())
      ensures rows == Mark(old(rows), id, Outcome(old(servers)[id].mailbox[0]))
      ensures toml == PutBack(old(toml), old(servers)[id].phase.original)
      ensures mailbox == old(mailbox) + [JobFinished(id)]
    {
      var original, msg := servers[id].phase.original, servers[id].mailbox[0];
      RestoreCargoToml(original);
      var outcome;
      match msg {
        case Exited(code) => outcome := if code == 0 then Completed else Failed;
        case CancelRequest => outcome := Cancelled;
        case TimedOut => outcome := Failed;
        case PortDown => outcome := Failed;
      }
      UpdateJob(id, outcome);
      mailbox := mailbox + [JobFinished(id)];
      servers := servers[id := servers[id].(phase := Announced(original), portOpen := false,
        mailbox := servers[id].mailbox[1..])];
      assert servers == s0.servers[id := servers[id]];
      EndReached(cfg, s0, id, State());
    }

    method HandleTerminate(id: JobId)
      requires Enabled(State(), ByServer(id, Terminate))
      modifies this
      ensures State() == Effect(cfg, old(State()), ByServer(id, Terminate))
      ensures servers == old(servers) - {id} && rows == old(rows) && mailbox == old(mailbox)
      ensures toml == match Saved(old(servers)[id].phase) case Some(text) => text case None => old(toml)
      ensures KeepsInv(cfg, old(State()), State())
    {
      ActionKeepsInv(cfg, State(), ByServer(id, Terminate));
      RestoreCargoToml(servers[id].phase.original);
      servers := servers - {id};
    }
  }

  /** What s becomes when one server takes the given steps in a row, if it can. */
  ghost function Reached(cfg: Config, s: System, id: JobId, steps: seq<ServerStep>): Option<System> {
    if steps == [] then Some(s)
    else
      var before := Reached(cfg, s, id, steps[..|steps| - 1]);
      var a := ByServer(id, steps[|steps| - 1]);
      if before.Some? && Enabled(before.value, a) then Some(Effect(cfg, before.value, a)) else None
  }

  lemma {:induction false} ReachedKeepsInv(cfg: Config, s: System, id: JobId, steps: seq<ServerStep>)
    ensures Reached(cfg, s, id, steps).Some? ==> KeepsInv(cfg, s, Reached(cfg, s, id, steps).value)
  {
    if steps != [] && Reached(cfg, s, id, steps).Some? {
      var init := steps[..|steps| - 1];
      ReachedKeepsInv(cfg, s, id, init);
      ActionKeepsInv(cfg, Reached(cfg, s, id, init).value, ByServer(id, steps[|steps| - 1]));
    }
  }

  lemma {:induction false} OneMore(cfg: Config, s: System, id: JobId, steps: seq<ServerStep>, m: System,
      step: ServerStep)
    requires Reached(cfg, s, id, steps) == Some(m) && Enabled(m, ByServer(id, step))
    ensures Reached(cfg, s, id, steps + [step]) == Some(Effect(cfg, m, ByServer(id, step)))
  {
    assert (steps + [step])[..|steps|] == steps;
  }

  /** Up to the opened or refused port. */
  lemma {:induction false} ReadyReached(cfg: Config, s: System, id: JobId) returns (done: seq<ServerStep>, m: System)
    requires id in s.table && id in s.servers && s.servers[id].phase == Fresh
    ensures var branch := s.table[id].branch;
            && done == [MarkRunning] + (if Overrides(branch) then [ReadCargo, WriteCargo] else [SkipOverride])
            && Reached(cfg, s, id, done) == Some(m)
            && m == s.(table := Mark(s.table, id, Running),
                       toml := if Overrides(branch) then cfg.override(s.toml, branch.value) else s.toml,
                       servers := s.servers[id := s.servers[id].(phase :=
                         Ready(if Overrides(branch) then Some(s.toml) else None))])
  {
    var s1 := Effect(cfg, s, ByServer(id, MarkRunning));
    OneMore(cfg, s, id, [], s, MarkRunning);
    assert [] + [MarkRunning] == [MarkRunning];
    if Overrides(s.table[id].branch) {
      var s2 := Effect(cfg, s1, ByServer(id, ReadCargo));
      OneMore(cfg, s, id, [MarkRunning], s1, ReadCargo);
      OneMore(cfg, s, id, [MarkRunning] + [ReadCargo], s2, WriteCargo);
      done, m := [MarkRunning] + [ReadCargo] + [WriteCargo], Effect(cfg, s2, ByServer(id, WriteCargo));
    } else {
      OneMore(cfg, s, id, [MarkRunning], s1, SkipOverride);
      done, m := [MarkRunning] + [SkipOverride], Effect(cfg, s1, ByServer(id, SkipOverride));
    }
  }

  ghost predicate Started(cfg: Config, s: System, id: JobId, t: System)
    requires id in s.table && id in s.servers
  {
    var branch := s.table[id].branch;
    && t.clock == s.clock && t.queue == s.queue && t.launched == s.launched && t.silent == s.silent &&
        t.raised == s.raised
    && t.table == Mark(s.table, id, Running)
    && t.toml == (if Overrides(branch) then cfg.override(s.toml, branch.value) else s.toml)
    && t.servers == s.servers[id := Server(Serving(if Overrides(branch) then Some(s.toml) else None),
        true, true, s.servers[id].mailbox)]
  }

  lemma {:induction false} StartedReached(cfg: Config, s: System, id: JobId, t: System)
    requires id in s.table && id in s.servers && s.servers[id].phase == Fresh && Started(cfg, s, id, t)
    ensures Reached(cfg, s, id, Host.StartRun(id, Overrides(s.table[id].branch), true)) == Some(t)
  {
    var done, m := ReadyReached(cfg, s, id);
    OneMore(cfg, s, id, done, m, OpenPort);
    assert Effect(cfg, m, ByServer(id, OpenPort)).servers == t.servers;
  }

  ghost predicate Abandoned(s: System, id: JobId, t: System)
    requires id in s.table && id in s.servers
  {
    && t.clock == s.clock && t.queue == s.queue && t.launched == s.launched && t.silent == s.silent + {id} &&
        t.raised == s.raised
    && t.table == Mark(s.table, id, Failed) && t.toml == s.toml && t.servers == s.servers - {id}
  }

  lemma {:induction false} AbandonedReached(cfg: Config, s: System, id: JobId, t: System)
    requires id in s.table && id in s.servers && s.servers[id].phase == Fresh && Abandoned(s, id, t)
    ensures Reached(cfg, s, id, Host.StartRun(id, Overrides(s.table[id].branch), false)) == Some(t)
  {
    var done, m := ReadyReached(cfg, s, id);
    AbandonReached(cfg, s, id, done, m);
    assert m.table[id := m.table[id].(status := Failed)] == t.table;
    assert (m.servers - {id}) == t.servers;
    assert done + [FailBuild, AbortRestore, AbortMark] == Host.StartRun(id, Overrides(s.table[id].branch), false);
  }

  lemma {:induction false} AbandonReached(cfg: Config, s: System, id: JobId, done: seq<ServerStep>, m: System)
    requires Reached(cfg, s, id, done) == Some(m) && id in m.table && id in m.servers && m.servers[id].phase.Ready?
    ensures Reached(cfg, s, id, done + [FailBuild, AbortRestore, AbortMark]) ==
            Some(m.(table := Mark(m.table, id, Failed), toml := PutBack(m.toml, m.servers[id].phase.original),
                    servers := m.servers - {id}, silent := m.silent + {id}))
  {
    var m1 := Effect(cfg, m, ByServer(id, FailBuild));
    var m2 := Effect(cfg, m1, ByServer(id, AbortRestore));
    OneMore(cfg, s, id, done, m, FailBuild);
    OneMore(cfg, s, id, done + [FailBuild], m1, AbortRestore);
    OneMore(cfg, s, id, done + [FailBuild] + [AbortRestore], m2, AbortMark);
    assert done + [FailBuild] + [AbortRestore] + [AbortMark] == done + [FailBuild, AbortRestore, AbortMark];
    assert Effect(cfg, m2, ByServer(id, AbortMark)).servers == m.servers - {id};
  }

  /** A server is done with its port and Cargo.toml is put back. */
  lemma {:induction false} RestoredReached(cfg: Config, s: System, id: JobId)
    requires id in s.table && id in s.servers && s.servers[id].phase.Serving? && s.servers[id].mailbox != []
    requires !Raises(s.servers[id])
    ensures var v := s.servers[id];
            Reached(cfg, s, id, [HandleMessage, Restore]) ==
            Some(s.(toml := PutBack(s.toml, v.phase.original),
                    servers := s.servers[id := Server(Restored(v.phase.original, Outcome(v.mailbox[0])),
                      false, v.timer, v.mailbox[1..])]))
  {
    var s1 := Effect(cfg, s, ByServer(id, HandleMessage));
    OneMore(cfg, s, id, [], s, HandleMessage);
    assert [] + [HandleMessage] == [HandleMessage];
    OneMore(cfg, s, id, [HandleMessage], s1, Restore);
    assert [HandleMessage] + [Restore] == [HandleMessage, Restore];
    var t := Effect(cfg, s1, ByServer(id, Restore));
    assert t.servers == s.servers[id := t.servers[id]];
  }

  lemma {:induction false} AnnouncedReached(cfg: Config, s: System, id: JobId, m: System)
    requires id in m.table && id in m.servers && m.servers[id].phase.Restored?
    requires Reached(cfg, s, id, [HandleMessage, Restore]) == Some(m)
    ensures Reached(cfg, s, id, [HandleMessage, Restore, Settle, Announce]) ==
            Some(m.(table := Mark(m.table, id, m.servers[id].phase.outcome),
                    queue := m.queue.(mailbox := m.queue.mailbox + [JobFinished(id)]),
                    servers := m.servers[id := m.servers[id].(phase := Announced(m.servers[id].phase.original))]))
  {
    var m1 := Effect(cfg, m, ByServer(id, Settle));
    OneMore(cfg, s, id, [HandleMessage, Restore], m, Settle);
    OneMore(cfg, s, id, [HandleMessage, Restore] + [Settle], m1, Announce);
    assert [HandleMessage, Restore] + [Settle] + [Announce] == [HandleMessage, Restore, Settle, Announce];
    var t := Effect(cfg, m1, ByServer(id, Announce));
    assert t.servers == m.servers[id := t.servers[id]];
  }

  lemma {:induction false} EndReached(cfg: Config, s: System, id: JobId, t: System)
    requires id in s.table && id in s.servers && s.servers[id].phase.Serving? && s.servers[id].mailbox != []
    requires !Raises(s.servers[id])
    requires var v := s.servers[id];
             t == s.(table := Mark(s.table, id, Outcome(v.mailbox[0])),
                     toml := PutBack(s.toml, v.phase.original),
                     queue := s.queue.(mailbox := s.queue.mailbox + [JobFinished(id)]),
                     servers := s.servers[id := Server(Announced(v.phase.original), false, v.timer, v.mailbox[1..])])
    ensures Reached(cfg, s, id, [HandleMessage, Restore, Settle, Announce]) == Some(t)
  {
    RestoredReached(cfg, s, id);
    var m := Reached(cfg, s, id, [HandleMessage, Restore]).value;
    AnnouncedReached(cfg, s, id, m);
    assert m.servers[id := m.servers[id].(phase := Announced(m.servers[id].phase.original))] == t.servers;
  }
}
