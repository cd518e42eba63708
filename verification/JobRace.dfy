/** Two races of the job servers: an override that is put back under a job at work, with the exact
    condition for it, and a command that ends before its cancellation is handled. */
module JobRace {
  import opened Options
  import opened JobSystem
  import opened JobInvariants
  import opened JobFailures

  /** A run so far: its actions and where they lead. */
  lemma {:induction false} Then(cfg: Config, run: seq<Action>, s: System, a: Action)
    returns (longer: seq<Action>, t: System)
    requires Legal(cfg, Initial(cfg), run) && After(cfg, Initial(cfg), run) == s && Enabled(s, a)
    ensures Legal(cfg, Initial(cfg), longer) && After(cfg, Initial(cfg), longer) == t && t == Effect(cfg, s, a)
  {
    longer, t := run + [a], Effect(cfg, s, a);
    RunOneMore(cfg, Initial(cfg), run, a);
  }

  function OneJob(id: JobId, status: Status, branch: Text): Table {
    map[id := Row(status, 0, Some(branch))]
  }

  lemma {:induction false} FirstLaunched(cfg: Config, id: JobId, branch: Text) returns (run: seq<Action>, s: System)
    requires branch != ""
    ensures Legal(cfg, Initial(cfg), run) && After(cfg, Initial(cfg), run) == s
    ensures s == System(OneJob(id, Pending, branch), cfg.pristine, 0, Queue(Some(id), None, []),
                        map[id := Server(Fresh, false, false, [])], [id], {}, {})
  {
    run, s := [], Initial(cfg);
    run, s := Then(cfg, run, s, Submit(id, Some(branch), 0));
    assert s.table == OneJob(id, Pending, branch);
    assert s.queue.mailbox == [CheckQueue, JobCreated(id), CheckQueue];
    run, s := Then(cfg, run, s, Check(Some(id), true));
    assert s.queue.mailbox == [JobCreated(id), CheckQueue];
    assert s.servers == map[id := Server(Fresh, false, false, [])];
    run, s := Then(cfg, run, s, Adopt);
    run, s := Then(cfg, run, s, NoteCreated);
    assert s.queue.mailbox == [CheckQueue, CheckQueue];
    run, s := Then(cfg, run, s, Check(None, false));
    assert s.queue.mailbox == [CheckQueue];
    run, s := Then(cfg, run, s, Check(None, false));
    assert s.queue.mailbox == [];
  }

  lemma {:induction false} FirstServing(cfg: Config, id: JobId, branch: Text) returns (run: seq<Action>, s: System)
    requires branch != ""
    ensures Legal(cfg, Initial(cfg), run) && After(cfg, Initial(cfg), run) == s
    ensures s == System(OneJob(id, Running, branch), cfg.override(cfg.pristine, branch), 0, Queue(Some(id), None, []),
                        map[id := Server(Serving(Some(cfg.pristine)), true, true, [])], [id], {}, {})
  {
    run, s := FirstLaunched(cfg, id, branch);
    run, s := Then(cfg, run, s, ByServer(id, MarkRunning));
    assert s.table == OneJob(id, Running, branch);
    run, s := Then(cfg, run, s, ByServer(id, ReadCargo));
    run, s := Then(cfg, run, s, ByServer(id, WriteCargo));
    run, s := Then(cfg, run, s, ByServer(id, OpenPort));
    assert s.servers == map[id := s.servers[id]];
  }

  lemma {:induction false} FirstClosing(cfg: Config, id: JobId, branch: Text) returns (run: seq<Action>, s: System)
    requires branch != ""
    ensures Legal(cfg, Initial(cfg), run) && After(cfg, Initial(cfg), run) == s
    ensures s == System(OneJob(id, Running, branch), cfg.override(cfg.pristine, branch), 0, Queue(Some(id), None, []),
                        map[id := Server(Closing(Some(cfg.pristine), Completed), false, true, [])], [id], {}, {})
  {
    run, s := FirstServing(cfg, id, branch);
    run, s := Then(cfg, run, s, ByServer(id, PortExits(0)));
    assert s.servers[id].mailbox == [Exited(0)];
    run, s := Then(cfg, run, s, ByServer(id, HandleMessage));
    assert s.servers[id].mailbox == [];
    assert s.servers == map[id := s.servers[id]];
  }

  lemma {:induction false} FirstAnnounced(cfg: Config, id: JobId, branch: Text) returns (run: seq<Action>, s: System)
    requires branch != ""
    ensures Legal(cfg, Initial(cfg), run) && After(cfg, Initial(cfg), run) == s
    ensures s == System(OneJob(id, Completed, branch), cfg.pristine, 0, Queue(Some(id), None, [JobFinished(id)]),
                        map[id := Server(Announced(Some(cfg.pristine)), false, true, [])], [id], {}, {})
  {
    run, s := FirstClosing(cfg, id, branch);
    run, s := Then(cfg, run, s, ByServer(id, Restore));
    run, s := Then(cfg, run, s, ByServer(id, Settle));
    assert s.table == OneJob(id, Completed, branch);
    run, s := Then(cfg, run, s, ByServer(id, Announce));
    assert s.queue.mailbox == [JobFinished(id)];
    assert s.servers == map[id := s.servers[id]];
  }

  function TwoJobs(id: JobId, other: JobId, status: Status, branch: Text): Table {
    OneJob(id, Completed, branch)[other := Row(status, 0, Some(branch))]
  }

  lemma {:induction false} SecondLaunched(cfg: Config, id: JobId, other: JobId,
      branch: Text) returns (run: seq<Action>, s: System)
    requires branch != "" && id != other
    ensures Legal(cfg, Initial(cfg), run) && After(cfg, Initial(cfg), run) == s
    ensures s == System(TwoJobs(id, other, Pending, branch), cfg.pristine, 0,
                        Queue(Some(other), None, [CheckQueue, CheckQueue]),
                        map[id := Server(Announced(Some(cfg.pristine)), false, true, []),
                            other := Server(Fresh, false, false, [])],
                        [id, other], {}, {})
  {
    run, s := FirstAnnounced(cfg, id, branch);
    run, s := Then(cfg, run, s, Submit(other, Some(branch), 0));
    assert s.table == TwoJobs(id, other, Pending, branch);
    assert s.queue.mailbox == [JobFinished(id), JobCreated(other), CheckQueue];
    run, s := Then(cfg, run, s, NoteFinished);
    assert s.queue.mailbox == [JobCreated(other), CheckQueue, CheckQueue];
    run, s := Then(cfg, run, s, NoteCreated);
    assert s.queue.mailbox == [CheckQueue, CheckQueue, CheckQueue];
    run, s := Then(cfg, run, s, Check(Some(other), true));
    assert s.queue.mailbox == [CheckQueue, CheckQueue];
    run, s := Then(cfg, run, s, Adopt);
    assert s.launched == [id, other];
  }

  /** With two jobs that ask for the same branch, the first one's last restore can come after the
      second one's override: the second job's command is then at work with Cargo.toml as shipped. */
  lemma {:induction false} OverrideCanBeLost(cfg: Config, id: JobId, other: JobId, branch: Text)
    returns (run: seq<Action>)
    requires branch != "" && id != other
    ensures Legal(cfg, Initial(cfg), run)
    ensures var s := After(cfg, Initial(cfg), run);
            && other in s.servers && s.servers[other].portOpen && s.servers[other].phase == Serving(Some(cfg.pristine))
            && other in s.table && s.table[other].branch == Some(branch) && s.toml == cfg.pristine
  {
    var s;
    run, s := SecondLaunched(cfg, id, other, branch);
    run, s := Then(cfg, run, s, ByServer(other, MarkRunning));
    run, s := Then(cfg, run, s, ByServer(other, ReadCargo));
    run, s := Then(cfg, run, s, ByServer(other, WriteCargo));
    run, s := Then(cfg, run, s, ByServer(other, OpenPort));
    run, s := Then(cfg, run, s, ByServer(id, Terminate));
  }

  /** The command of a job ends while its cancellation waits: the server dies without restoring,
      settling or announcing anything, and the queue and the file are left for good. */
  lemma {:induction false} CancelAfterExit(cfg: Config, id: JobId, branch: Text, code: int) returns (run: seq<Action>)
    requires branch != ""
    ensures Legal(cfg, Initial(cfg), run)
    ensures var s := After(cfg, Initial(cfg), run);
            && s.table == OneJob(id, Running, branch) && s.toml == cfg.override(cfg.pristine, branch)
            && s.servers == map[] && Stuck(s, id)
            && (s.toml != cfg.pristine ==> FileLeft(cfg, s))
  {
    var s;
    run, s := FirstServing(cfg, id, branch);
    run, s := Then(cfg, run, s, Cancel(id));
    assert s.servers[id].mailbox == [CancelRequest];
    run, s := Then(cfg, run, s, ByServer(id, PortExits(code)));
    assert s.servers[id].mailbox == [CancelRequest, Exited(code)];
    run, s := Then(cfg, run, s, ByServer(id, HandleMessage));
  }

  // -------------------------------------------------------------- when an override stays

  /** The server has rewritten Cargo.toml and not yet put it back. */
  predicate AtWork(s: System, id: JobId) {
    id in s.servers && Overriding(s.servers[id].phase)
  }

  /** The server has put Cargo.toml back, or is gone. */
  predicate Past(s: System, id: JobId) {
    && id in s.launched
    && (id in s.servers ==>
          var p := s.servers[id].phase; p.Restored? || p.Settled? || p.Announced? || p.Aborted?)
  }

  lemma {:induction false} QueueKeepsPast(cfg: Config, s: System, a: Action, id: JobId)
    requires InOrder(s) && OneActive(s) && Enabled(s, a) && Past(s, id) && !a.ByServer?
    ensures Past(Effect(cfg, s, a), id)
  {
  }

  lemma {:induction false} OwnKeepsPast(cfg: Config, s: System, id: JobId, step: ServerStep)
    requires OneActive(s) && Enabled(s, ByServer(id, step)) && Past(s, id)
    ensures Past(Effect(cfg, s, ByServer(id, step)), id)
  {
  }

  lemma {:induction false} StepKeepsPast(cfg: Config, s: System, a: Action, id: JobId)
    requires Inv(cfg, s) && Enabled(s, a) && Past(s, id)
    ensures Past(Effect(cfg, s, a), id)
  {
    if !a.ByServer? {
      QueueKeepsPast(cfg, s, a, id);
    } else if a.id == id {
      OwnKeepsPast(cfg, s, id, a.step);
    } else {
      ServerLocal(cfg, s, a.id, a.step);
    }
  }

  /** A server at work goes on with its override in place, or is past it. */
  ghost predicate KeptOrPast(cfg: Config, s: System, id: JobId) {
    (OverriddenBy(cfg, s, id) && NoneElseRestores(s, id)) || Past(s, id)
  }

  lemma {:induction false} QueueKeepsOverride(cfg: Config, s: System, a: Action, id: JobId)
    requires Enabled(s, a) && OverriddenBy(cfg, s, id) && NoneElseRestores(s, id) && !a.ByServer?
    ensures KeptOrPast(cfg, Effect(cfg, s, a), id)
  {
  }

  /** While a job is at work, every other server has announced its end. */
  lemma {:induction false} OthersAnnounced(cfg: Config, s: System, id: JobId, other: JobId)
    requires OneActive(s) && AtWork(s, id) && other in s.servers && other != id
    ensures s.servers[other].phase.Announced? && !s.servers[other].portOpen
  {
    assert Active(s, id) && !Active(s, other);
  }

  lemma {:induction false} OthersKeepOverride(cfg: Config, s: System, other: JobId, step: ServerStep, id: JobId)
    requires OneActive(s) && Enabled(s, ByServer(other, step)) && other != id
    requires OverriddenBy(cfg, s, id) && NoneElseRestores(s, id)
    ensures KeptOrPast(cfg, Effect(cfg, s, ByServer(other, step)), id)
  {
    OthersAnnounced(cfg, s, id, other);
    AnnouncedStep(cfg, s, other, step);
    ServerLocal(cfg, s, other, step);
  }

  lemma {:induction false} OwnStepCarries(cfg: Config, s: System, id: JobId, step: ServerStep)
    requires Enabled(s, ByServer(id, step)) && OverriddenBy(cfg, s, id) && id in s.launched
    ensures var t := Effect(cfg, s, ByServer(id, step)); OverriddenBy(cfg, t, id) || Past(t, id)
  {
  }

  lemma {:induction false} OwnKeepsOverride(cfg: Config, s: System, id: JobId, step: ServerStep)
    requires InOrder(s) && Enabled(s, ByServer(id, step)) && OverriddenBy(cfg, s, id) && NoneElseRestores(s, id)
    ensures KeptOrPast(cfg, Effect(cfg, s, ByServer(id, step)), id)
  {
    OwnStepCarries(cfg, s, id, step);
    ServerLocal(cfg, s, id, step);
  }

  lemma {:induction false} StepKeepsOverride(cfg: Config, s: System, a: Action, id: JobId)
    requires Inv(cfg, s) && Enabled(s, a) && KeptOrPast(cfg, s, id)
    ensures KeptOrPast(cfg, Effect(cfg, s, a), id)
  {
    if Past(s, id) {
      StepKeepsPast(cfg, s, a, id);
    } else if !a.ByServer? {
      QueueKeepsOverride(cfg, s, a, id);
    } else if a.id == id {
      OwnKeepsOverride(cfg, s, id, a.step);
    } else {
      OthersKeepOverride(cfg, s, a.id, a.step, id);
    }
  }

  lemma {:induction false} RunKeepsOverride(cfg: Config, s: System, run: seq<Action>, id: JobId)
    requires Inv(cfg, s) && Legal(cfg, s, run) && KeptOrPast(cfg, s, id)
    ensures KeptOrPast(cfg, After(cfg, s, run), id)
    decreases |run|
  {
    if run != [] {
      StepKeepsOverride(cfg, s, run[0], id);
      StepKeepsInv(cfg, s, run[0]);
      RunKeepsOverride(cfg, Effect(cfg, s, run[0]), run[1..], id);
    }
  }

  /** If no other server has a saved text, the override is in place as long as its job is at work. */
  lemma {:induction false} OverrideStays(cfg: Config, s: System, run: seq<Action>, id: JobId)
    requires Inv(cfg, s) && Legal(cfg, s, run) && OverriddenBy(cfg, s, id) && NoneElseRestores(s, id)
    ensures AtWork(After(cfg, s, run), id) ==> Carries(cfg, After(cfg, s, run), id)
  {
    RunKeepsOverride(cfg, s, run, id);
  }

  /** Whatever happens, the override is in place as long as the job is at work. */
  ghost predicate AlwaysCarries(cfg: Config, s: System, id: JobId) {
    forall run :: Legal(cfg, s, run) && AtWork(After(cfg, s, run), id) ==> Carries(cfg, After(cfg, s, run), id)
  }

  /** An earlier server's last restore puts the file back under the job at work. */
  lemma {:induction false} TerminateRemoves(cfg: Config, s: System, id: JobId, other: JobId)
    requires Inv(cfg, s) && OverriddenBy(cfg, s, id) && s.toml != cfg.pristine
    requires other in s.servers && other != id && Saved(s.servers[other].phase) != None
    ensures Enabled(s, ByServer(other, Terminate)) && Legal(cfg, s, [ByServer(other, Terminate)])
    ensures var t := After(cfg, s, [ByServer(other, Terminate)]); AtWork(t, id) && !Carries(cfg, t, id)
  {
    SavedIsShipped(cfg, s, other);
    OthersAnnounced(cfg, s, id, other);
    RunOne(cfg, s, ByServer(other, Terminate));
  }

  /** An override in place stays in place until its own job is done with it, in every run, exactly if
      no earlier server is still to put the file back. */
  lemma {:induction false} OverrideStaysExactly(cfg: Config, s: System, id: JobId)
    requires Inv(cfg, s) && OverriddenBy(cfg, s, id) && s.toml != cfg.pristine
    ensures AlwaysCarries(cfg, s, id) <==> NoneElseRestores(s, id)
  {
    if NoneElseRestores(s, id) {
      forall run | Legal(cfg, s, run) && AtWork(After(cfg, s, run), id) ensures Carries(cfg, After(cfg, s, run), id) {
        OverrideStays(cfg, s, run, id);
      }
    } else {
      var other :| other in s.servers && other != id && Saved(s.servers[other].phase) != None;
      TerminateRemoves(cfg, s, id, other);
      var run := [ByServer(other, Terminate)];
      assert AtWork(After(cfg, s, run), id) && !Carries(cfg, After(cfg, s, run), id);
    }
  }

  /** The same, decided in the state in which the override is about to be written. */
  lemma {:induction false} WriteDecides(cfg: Config, s: System, id: JobId)
    requires Inv(cfg, s) && Enabled(s, ByServer(id, WriteCargo))
    requires cfg.override(cfg.pristine, s.table[id].branch.value) != cfg.pristine
    ensures AlwaysCarries(cfg, Effect(cfg, s, ByServer(id, WriteCargo)), id) <==> NoneElseRestores(s, id)
  {
    var t := Effect(cfg, s, ByServer(id, WriteCargo));
    ServerLocal(cfg, s, id, WriteCargo);
    StepKeepsInv(cfg, s, ByServer(id, WriteCargo));
    SavedIsShipped(cfg, s, id);
    OverrideStaysExactly(cfg, t, id);
    assert forall other :: other in s.servers && other != id ==>
      other in t.servers && t.servers[other] == s.servers[other];
    assert forall other :: other in t.servers ==> other in s.servers;
  }
}
