/** The stop paths that never announce completion: exactly when the queue and Cargo.toml are left
    behind, and that nothing repairs them afterwards. */
module JobFailures {
  import opened Options
  import opened JobSystem
  import opened JobInvariants
  import opened JobProgress

  // ------------------------------------------------------------------------ the queue

  /** The queue waits for a job whose server is gone and whose end is not on the way. */
  ghost predicate Stuck(s: System, id: JobId) {
    Committed(s) == Some(id) && id !in s.servers && JobFinished(id) !in s.queue.mailbox
  }

  /** The last steps of the silent paths: the server could not note its start, or could build no
      command, or handles a cancellation or a timeout after its port has closed. */
  predicate StopsSilently(s: System, id: JobId, step: ServerStep) {
    id in s.servers && (step.RefuseStart? || step.AbortMark? || (step.HandleMessage? && Raises(s.servers[id])))
  }

  /** In reachable states the queue is stuck on a job exactly if its server has stopped silently. */
  lemma {:induction false} StuckIsSilent(cfg: Config, s: System, id: JobId)
    requires Inv(cfg, s)
    ensures Stuck(s, id) <==> id in s.silent
  {
  }

  /** The queue is left waiting exactly by the end of a silent path. */
  lemma {:induction false} StuckExactly(cfg: Config, s: System, a: Action, id: JobId)
    requires Inv(cfg, s) && Enabled(s, a) && !Stuck(s, id)
    ensures Stuck(Effect(cfg, s, a), id) <==> a.ByServer? && a.id == id && StopsSilently(s, id, a.step)
  {
    StepKeepsInv(cfg, s, a);
    StuckIsSilent(cfg, s, id);
    StuckIsSilent(cfg, Effect(cfg, s, a), id);
    SilentExactly(cfg, s, a, id);
  }

  lemma {:induction false} SilentExactly(cfg: Config, s: System, a: Action, id: JobId)
    requires Enabled(s, a)
    ensures id in Effect(cfg, s, a).silent <==>
            id in s.silent || (a.ByServer? && a.id == id && StopsSilently(s, id, a.step))
  {
  }

  lemma {:induction false} StuckStep(cfg: Config, s: System, a: Action, id: JobId)
    requires Stuck(s, id) && Enabled(s, a)
    ensures Stuck(Effect(cfg, s, a), id) && Effect(cfg, s, a).launched == s.launched
  {
  }

  /** From then on no job is ever launched again, whatever clients and processes do. */
  lemma {:induction false} StuckForever(cfg: Config, s: System, run: seq<Action>, id: JobId)
    requires Stuck(s, id) && Legal(cfg, s, run)
    ensures Stuck(After(cfg, s, run), id) && After(cfg, s, run).launched == s.launched
    decreases |run|
  {
    if run != [] {
      StuckStep(cfg, s, run[0], id);
      StuckForever(cfg, Effect(cfg, s, run[0]), run[1..], id);
    }
  }

  // ------------------------------------------------------------------------- the file

  /** Cargo.toml is not as shipped, and no server is going to put it back. */
  ghost predicate FileLeft(cfg: Config, s: System) {
    s.toml != cfg.pristine && forall id :: id in s.servers ==> Saved(s.servers[id].phase) == None
  }

  /** A timeout or a cancellation is handled after the port has closed, with the file overridden and
      no earlier server still to put it back. */
  ghost predicate LeavesFile(cfg: Config, s: System, a: Action) {
    && a.ByServer? && a.step.HandleMessage? && a.id in s.servers && Raises(s.servers[a.id])
    && s.toml != cfg.pristine && NoneElseRestores(s, a.id)
  }

  lemma {:induction false} QueueKeepsPhase(cfg: Config, s: System, a: Action, id: JobId)
    requires Enabled(s, a) && !a.ByServer? && id in s.servers
    ensures id in Effect(cfg, s, a).servers && Effect(cfg, s, a).servers[id].phase == s.servers[id].phase
  {
  }

  lemma {:induction false} QueueLeavesNoFile(cfg: Config, s: System, a: Action)
    requires Enabled(s, a) && !FileLeft(cfg, s) && !a.ByServer?
    ensures !FileLeft(cfg, Effect(cfg, s, a))
  {
    if s.toml != cfg.pristine {
      var id :| id in s.servers && Saved(s.servers[id].phase) != None;
      QueueKeepsPhase(cfg, s, a, id);
    }
  }

  /** With no active job to put the file back, all servers left have announced their ends. */
  lemma {:induction false} LeftMeansAnnounced(cfg: Config, s: System, id: JobId)
    requires Inv(cfg, s) && s.toml != cfg.pristine && id in s.servers
    requires Committed(s).Some? && Committed(s).value in s.raised
    ensures s.servers[id].phase.Announced? && !s.servers[id].portOpen
  {
  }

  /** A server that has announced its end puts its saved text back, or changes nothing. */
  lemma {:induction false} AnnouncedStep(cfg: Config, s: System, id: JobId, step: ServerStep)
    requires Enabled(s, ByServer(id, step)) && s.servers[id].phase.Announced? && !s.servers[id].portOpen
    ensures var t := Effect(cfg, s, ByServer(id, step));
            && t.toml == (if step.Terminate? then PutBack(s.toml, s.servers[id].phase.original) else s.toml)
            && (id in t.servers ==> t.servers[id].phase == s.servers[id].phase)
  {
  }

  /** Whoever holds the file overridden is committed, and either at work or dead of an exception. */
  lemma {:induction false} LeftByCommitted(cfg: Config, s: System)
    requires Inv(cfg, s) && FileLeft(cfg, s)
    ensures Committed(s).Some? && Committed(s).value in s.raised
  {
  }

  /** Any other step of a server leaves the file to somebody. */
  lemma {:induction false} OtherStepsRestore(cfg: Config, s: System, id: JobId, step: ServerStep)
    requires Inv(cfg, s) && Enabled(s, ByServer(id, step)) && !FileLeft(cfg, s)
    requires !(step.HandleMessage? && Raises(s.servers[id]))
    ensures !FileLeft(cfg, Effect(cfg, s, ByServer(id, step)))
  {
    var t := Effect(cfg, s, ByServer(id, step));
    ServerLocal(cfg, s, id, step);
    ServerKeepsInv(cfg, s, id, step);
    if FileLeft(cfg, t) {
      LeftByCommitted(cfg, t);
      RaisedOnlyByRaise(cfg, s, id, step);
      CommittedLeftBefore(cfg, s, t, id, step);
    }
  }

  lemma {:induction false} CommittedLeftBefore(cfg: Config, s: System, t: System, id: JobId, step: ServerStep)
    requires Inv(cfg, s) && Enabled(s, ByServer(id, step)) && t == Effect(cfg, s, ByServer(id, step))
    requires OnlyAt(s, t, id) && FileLeft(cfg, t)
    requires Committed(s).Some? && Committed(s).value in s.raised
    ensures FileLeft(cfg, s)
  {
    SavedIsShipped(cfg, s, id);
    assert !Active(s, id);
    assert s.servers[id].phase.Announced? && !s.servers[id].portOpen;
    AnnouncedStep(cfg, s, id, step);
    forall other | other in s.servers ensures Saved(s.servers[other].phase) == None {
      assert other != id ==> other in t.servers && t.servers[other] == s.servers[other];
    }
  }

  lemma {:induction false} RaisedOnlyByRaise(cfg: Config, s: System, id: JobId, step: ServerStep)
    requires Enabled(s, ByServer(id, step)) && !(step.HandleMessage? && Raises(s.servers[id]))
    ensures Effect(cfg, s, ByServer(id, step)).raised == s.raised
  {
  }

  lemma {:induction false} RaiseLeavesFile(cfg: Config, s: System, id: JobId)
    requires Enabled(s, ByServer(id, HandleMessage)) && Raises(s.servers[id])
    ensures FileLeft(cfg, Effect(cfg, s, ByServer(id, HandleMessage))) <==>
            s.toml != cfg.pristine && NoneElseRestores(s, id)
  {
    var t := Effect(cfg, s, ByServer(id, HandleMessage));
    assert t.toml == s.toml && t.servers == s.servers - {id};
    assert forall other :: other in s.servers && other != id ==>
      other in t.servers && t.servers[other] == s.servers[other];
  }

  lemma {:induction false} ServerLeavesFile(cfg: Config, s: System, id: JobId, step: ServerStep)
    requires Inv(cfg, s) && Enabled(s, ByServer(id, step)) && !FileLeft(cfg, s)
    ensures FileLeft(cfg, Effect(cfg, s, ByServer(id, step))) <==> LeavesFile(cfg, s, ByServer(id, step))
  {
    if step.HandleMessage? && Raises(s.servers[id]) {
      RaiseLeavesFile(cfg, s, id);
    } else {
      OtherStepsRestore(cfg, s, id, step);
    }
  }

  /** Cargo.toml is left overridden for good exactly by such a step. */
  lemma {:induction false} FileLeftExactly(cfg: Config, s: System, a: Action)
    requires Inv(cfg, s) && Enabled(s, a) && !FileLeft(cfg, s)
    ensures FileLeft(cfg, Effect(cfg, s, a)) <==> LeavesFile(cfg, s, a)
  {
    if a.ByServer? {
      ServerLocal(cfg, s, a.id, a.step);
      ServerLeavesFile(cfg, s, a.id, a.step);
    } else {
      QueueLeavesNoFile(cfg, s, a);
    }
  }

  lemma {:induction false} FileLeftByQueue(cfg: Config, s: System, a: Action)
    requires Enabled(s, a) && FileLeft(cfg, s) && !a.ByServer?
    ensures FileLeft(cfg, Effect(cfg, s, a)) && Effect(cfg, s, a).toml == s.toml
  {
  }

  lemma {:induction false} FileLeftByServer(cfg: Config, s: System, id: JobId, step: ServerStep)
    requires Inv(cfg, s) && Enabled(s, ByServer(id, step)) && FileLeft(cfg, s)
    ensures FileLeft(cfg, Effect(cfg, s, ByServer(id, step))) && Effect(cfg, s, ByServer(id, step)).toml == s.toml
  {
    LeftByCommitted(cfg, s);
    LeftMeansAnnounced(cfg, s, id);
    AnnouncedStep(cfg, s, id, step);
    ServerLocal(cfg, s, id, step);
  }

  /** From then on Cargo.toml never changes again. */
  lemma {:induction false} FileLeftForever(cfg: Config, s: System, run: seq<Action>)
    requires Inv(cfg, s) && FileLeft(cfg, s) && Legal(cfg, s, run)
    ensures FileLeft(cfg, After(cfg, s, run)) && After(cfg, s, run).toml == s.toml
    decreases |run|
  {
    if run != [] {
      if run[0].ByServer? {
        FileLeftByServer(cfg, s, run[0].id, run[0].step);
      } else {
        FileLeftByQueue(cfg, s, run[0]);
      }
      StepKeepsInv(cfg, s, run[0]);
      FileLeftForever(cfg, Effect(cfg, s, run[0]), run[1..]);
    }
  }

  // ------------------------------------------------------------------------ the job

  /** The server of the job has died of an exception, or is about to. */
  predicate Doomed(s: System, id: JobId) {
    id in s.raised || (id in s.servers && Raises(s.servers[id]))
  }

  lemma {:induction false} DoomedByQueue(cfg: Config, s: System, a: Action, id: JobId)
    requires Inv(cfg, s) && Enabled(s, a) && !a.ByServer?
    ensures Doomed(Effect(cfg, s, a), id) <==> Doomed(s, id)
  {
  }

  lemma {:induction false} DoomedByOther(cfg: Config, s: System, who: JobId, step: ServerStep, id: JobId)
    requires Enabled(s, ByServer(who, step)) && who != id
    ensures Doomed(Effect(cfg, s, ByServer(who, step)), id) <==> Doomed(s, id)
  {
    ServerLocal(cfg, s, who, step);
  }

  lemma {:induction false} DoomedByOwn(cfg: Config, s: System, id: JobId, step: ServerStep)
    requires Inv(cfg, s) && Enabled(s, ByServer(id, step))
    ensures Doomed(Effect(cfg, s, ByServer(id, step)), id) <==> Doomed(s, id) || Dooms(s.servers[id], step)
  {
    assert OwnFits(s, id);
    if Starting(step) {
      StartDoomsNone(cfg, s, id, step);
    } else {
      EndDooms(cfg, s, id, step);
    }
  }

  lemma {:induction false} StartDoomsNone(cfg: Config, s: System, id: JobId, step: ServerStep)
    requires Enabled(s, ByServer(id, step)) && Starting(step) && OwnFits(s, id) && id !in s.raised
    ensures !Doomed(Effect(cfg, s, ByServer(id, step)), id) && !Doomed(s, id) && !Dooms(s.servers[id], step)
  {
  }

  lemma {:induction false} EndDooms(cfg: Config, s: System, id: JobId, step: ServerStep)
    requires Enabled(s, ByServer(id, step)) && !Starting(step) && OwnFits(s, id) && id !in s.raised
    ensures Doomed(Effect(cfg, s, ByServer(id, step)), id) <==> Doomed(s, id) || Dooms(s.servers[id], step)
  {
  }

  /** A job is doomed exactly by its command ending while a cancellation or a timeout is waiting, and
      is never saved. */
  lemma {:induction false} DoomedExactly(cfg: Config, s: System, a: Action, id: JobId)
    requires Inv(cfg, s) && Enabled(s, a)
    ensures Doomed(Effect(cfg, s, a), id) <==>
            Doomed(s, id) || (a.ByServer? && a.id == id && id in s.servers && Dooms(s.servers[id], a.step))
  {
    if !a.ByServer? {
      DoomedByQueue(cfg, s, a, id);
    } else if a.id != id {
      DoomedByOther(cfg, s, a.id, a.step, id);
    } else {
      DoomedByOwn(cfg, s, id, a.step);
    }
  }

  /** The row of a doomed job says running in every state of every run from there. */
  lemma {:induction false} DoomedForever(cfg: Config, s: System, run: seq<Action>, id: JobId)
    requires Inv(cfg, s) && Doomed(s, id) && Legal(cfg, s, run)
    ensures id in After(cfg, s, run).table && After(cfg, s, run).table[id].status == Running
    decreases |run|
  {
    if run != [] {
      DoomedExactly(cfg, s, run[0], id);
      StepKeepsInv(cfg, s, run[0]);
      DoomedForever(cfg, Effect(cfg, s, run[0]), run[1..], id);
    }
  }

  /** Silence comes only from exceptions: no server has been unable to start its job, or is. */
  ghost predicate AllStarted(s: System) {
    && s.silent == s.raised
    && forall id :: id in s.servers ==> !s.servers[id].phase.Aborting? && !s.servers[id].phase.Aborted?
  }

  ghost predicate NoneWaiting(s: System) {
    forall id :: id in s.table ==> !Waiting(s.table[id].status)
  }

  /** The committed job's server has stopped silently, or is about to because no command could be
      built. */
  predicate Halted(s: System) {
    Committed(s).Some? &&
    var id := Committed(s).value;
    id in s.silent || (id in s.servers && (s.servers[id].phase.Aborting? || s.servers[id].phase.Aborted?))
  }

  lemma {:induction false} NotStartedIsHalted(cfg: Config, s: System)
    requires Inv(cfg, s) && !AllStarted(s)
    ensures Halted(s)
  {
    if s.silent == s.raised {
      var id :| id in s.servers && (s.servers[id].phase.Aborting? || s.servers[id].phase.Aborted?);
      assert Active(s, id);
    } else {
      var id :| id in s.silent && id !in s.raised;
    }
  }

  lemma {:induction false} HaltedByQueue(cfg: Config, s: System, a: Action)
    requires Inv(cfg, s) && Enabled(s, a) && Internal(a) && !a.ByServer? && Halted(s)
    ensures Halted(Effect(cfg, s, a)) && Effect(cfg, s, a).table == s.table
  {
    if a.NoteFinished? {
      assert s.queue.mailbox[0] in s.queue.mailbox;
    }
  }

  lemma {:induction false} AbortStep(cfg: Config, s: System, id: JobId, step: ServerStep)
    requires Enabled(s, ByServer(id, step)) && (s.servers[id].phase.Aborting? || s.servers[id].phase.Aborted?)
    requires !s.servers[id].portOpen
    ensures var t := Effect(cfg, s, ByServer(id, step));
            id in t.silent || (id in t.servers && (t.servers[id].phase.Aborting? || t.servers[id].phase.Aborted?))
  {
  }

  /** In a halted system a server's own row is not one that waits. */
  lemma {:induction false} HaltedNotFresh(s: System, id: JobId)
    requires OneActive(s) && LostFits(s) && Halted(s) && id in s.servers
    ensures id in s.table && !Waiting(s.table[id].status)
    ensures Committed(s) == Some(id) ==> s.servers[id].phase.Aborting? || s.servers[id].phase.Aborted?
    ensures !s.servers[id].portOpen
  {
    assert Committed(s) != Some(id) ==> !Active(s, id);
  }

  lemma {:induction false} HaltedByServer(cfg: Config, s: System, id: JobId, step: ServerStep)
    requires Inv(cfg, s) && Enabled(s, ByServer(id, step)) && Halted(s)
    ensures Halted(Effect(cfg, s, ByServer(id, step)))
    ensures !Waiting(s.table[id].status)
  {
    HaltedNotFresh(s, id);
    ServerLocal(cfg, s, id, step);
    if Committed(s) == Some(id) {
      AbortStep(cfg, s, id, step);
    }
  }

  lemma {:induction false} HaltedStep(cfg: Config, s: System, a: Action, id: JobId)
    requires Inv(cfg, s) && Halted(s) && Enabled(s, a) && Internal(a) && id in s.table && Waiting(s.table[id].status)
    ensures var t := Effect(cfg, s, a); Halted(t) && id in t.table && Waiting(t.table[id].status)
  {
    if a.ByServer? {
      HaltedByServer(cfg, s, a.id, a.step);
      ServerLocal(cfg, s, a.id, a.step);
    } else {
      HaltedByQueue(cfg, s, a);
    }
  }

  /** A halted queue launches nothing, so whatever waits goes on waiting. */
  lemma {:induction false} HaltedForever(cfg: Config, s: System, run: seq<Action>, id: JobId)
    requires Inv(cfg, s) && Halted(s) && Legal(cfg, s, run) && (forall a :: a in run ==> Internal(a))
    requires id in s.table && Waiting(s.table[id].status)
    ensures id in After(cfg, s, run).table && Waiting(After(cfg, s, run).table[id].status)
    decreases |run|
  {
    if run != [] {
      assert run[0] in run;
      HaltedStep(cfg, s, run[0], id);
      StepKeepsInv(cfg, s, run[0]);
      HaltedForever(cfg, Effect(cfg, s, run[0]), run[1..], id);
    }
  }

  /** With nothing waiting and nothing doomed, at most the committed job is unfinished. */
  lemma {:induction false} OnlyCommittedUnfinished(cfg: Config, s: System, id: JobId)
    requires Inv(cfg, s) && NoneWaiting(s) && s.raised == {} && id in s.table && !Terminal(s.table[id].status)
    ensures Active(s, id) && Committed(s) == Some(id)
  {
    assert s.table[id].status == Running && id in s.servers;
    assert Active(s, id);
  }

  lemma {:induction false} AbortedFinishes(cfg: Config, s: System, id: JobId)
    requires Inv(cfg, s) && NoneWaiting(s) && s.raised == {} && Committed(s) == Some(id)
    requires id in s.servers && s.servers[id].phase.Aborted?
    ensures Finishes(cfg, s, [ByServer(id, AbortMark)])
  {
    var a := ByServer(id, AbortMark);
    RunOne(cfg, s, a);
    forall other | other in s.table && other != id ensures Terminal(s.table[other].status) {
      if !Terminal(s.table[other].status) {
        OnlyCommittedUnfinished(cfg, s, other);
      }
    }
  }

  lemma {:induction false} AbortingStep(cfg: Config, s: System, id: JobId)
    requires Inv(cfg, s) && id in s.servers && s.servers[id].phase.Aborting?
    ensures Enabled(s, ByServer(id, AbortRestore))
    ensures var t := Effect(cfg, s, ByServer(id, AbortRestore));
            && t.table == s.table && t.raised == s.raised && t.queue == s.queue
            && id in t.servers && t.servers[id].phase.Aborted?
  {
  }

  /** The last step of a failed start is the last one needed if nothing waits. */
  lemma {:induction false} HaltedFinishes(cfg: Config, s: System) returns (run: seq<Action>)
    requires Inv(cfg, s) && Halted(s) && NoneWaiting(s) && s.raised == {}
    ensures Finishes(cfg, s, run)
  {
    var id := Committed(s).value;
    if id in s.silent {
      run := [];
      forall other | other in s.table ensures Terminal(s.table[other].status) {
        if !Terminal(s.table[other].status) {
          OnlyCommittedUnfinished(cfg, s, other);
        }
      }
    } else if s.servers[id].phase.Aborted? {
      run := [ByServer(id, AbortMark)];
      AbortedFinishes(cfg, s, id);
    } else {
      var a := ByServer(id, AbortRestore);
      AbortingStep(cfg, s, id);
      StepKeepsInv(cfg, s, a);
      AbortedFinishes(cfg, Effect(cfg, s, a), id);
      run := [a] + [ByServer(id, AbortMark)];
      FinishesLater(cfg, s, a, [ByServer(id, AbortMark)]);
    }
  }

  lemma {:induction false} FinishesLater(cfg: Config, s: System, a: Action, rest: seq<Action>)
    requires Enabled(s, a) && Internal(a) && Finishes(cfg, Effect(cfg, s, a), rest)
    ensures Finishes(cfg, s, [a] + rest)
  {
    assert ([a] + rest)[1..] == rest;
  }

  /** The processes can finish all jobs on their own exactly if none is doomed and either every job could
      be started or none is left waiting behind one that could not. */
  lemma {:induction false} DrainsExactly(cfg: Config, s: System)
    requires Inv(cfg, s)
    ensures (exists run :: Finishes(cfg, s, run)) <==>
            (forall id: JobId :: !Doomed(s, id)) && (AllStarted(s) || NoneWaiting(s))
  {
    if (forall id: JobId :: !Doomed(s, id)) && (AllStarted(s) || NoneWaiting(s)) {
      DrainsIfPossible(cfg, s);
    }
    if run :| Finishes(cfg, s, run) {
      forall id: JobId ensures !Doomed(s, id) {
        if Doomed(s, id) {
          DoomedForever(cfg, s, run, id);
        }
      }
      if !AllStarted(s) && !NoneWaiting(s) {
        var id :| id in s.table && Waiting(s.table[id].status);
        NotStartedIsHalted(cfg, s);
        HaltedForever(cfg, s, run, id);
      }
    }
  }

  lemma {:induction false} DrainsIfPossible(cfg: Config, s: System)
    requires Inv(cfg, s) && (forall id: JobId :: !Doomed(s, id)) && (AllStarted(s) || NoneWaiting(s))
    ensures exists run :: Finishes(cfg, s, run)
  {
    assert s.raised == {} by {
      forall id | id in s.raised ensures false {
        assert Doomed(s, id);
      }
    }
    if AllStarted(s) {
      forall id | id in s.servers ensures Announces(s.servers[id]) {
        assert !Doomed(s, id);
      }
      var run := Drains(cfg, s);
      assert Finishes(cfg, s, run);
    } else {
      NotStartedIsHalted(cfg, s);
      var run := HaltedFinishes(cfg, s);
      assert Finishes(cfg, s, run);
    }
  }
}
