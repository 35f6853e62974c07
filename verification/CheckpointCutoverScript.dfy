/**
 * The cutover command as the script writes it, over files and a database that change in place.
 * The ghost `machine` follows one invocation through `CheckpointCutover`; see
 * `JournaledCleanupScript` for the method.
 */
module CheckpointCutoverScript {
  import opened Wrappers
  import opened EvidenceFiles
  import opened CheckpointCutover

  ghost predicate StepClosed(states: iset<State>) {
    forall s, event :: s in states ==> Step(s, event) in states
  }

  type Closed = states: iset<State> | StepClosed(states) ghost witness iset{}

  class CutoverScript {
    const pid: nat
    const asOf: int
    var disk: Disk<Receipt>
    var journal: Option<Evidence>
    var lock: Option<nat>
    ghost var machine: State
    ghost const allowed: Closed

    /** An environment whose state is `start`, with this invocation about to enter it. */
    constructor (pid: nat, asOf: int, disk: Disk<Receipt>, journal: Option<Evidence>, lock: Option<nat>,
                 ghost start: State, ghost allowed: Closed)
      requires start.disk == disk && start.journal == journal && start.lock == lock
      requires pid in start.procs ==> start.procs[pid].pc.Exited?
      requires start in allowed
      ensures this.pid == pid && this.asOf == asOf && this.allowed == allowed
      ensures At(Entering) && machine.lock == this.lock == lock
      ensures this.disk == disk && this.journal == journal
    {
      this.pid, this.asOf, this.disk, this.journal, this.lock := pid, asOf, disk, journal, lock;
      this.allowed, machine := allowed, Step(start, Invoke(pid, asOf));
    }

    ghost predicate At(pc: Pc)
      reads this
    {
      && machine in allowed && pid in machine.procs
      && machine.disk == disk && machine.journal == journal
      && machine.procs[pid].pc == pc && machine.procs[pid].asOf == asOf
    }

    ghost predicate Inside(pc: Pc)
      reads this
    {
      At(pc) && machine.lock == if pc.Exited? then None else Some(pid)
    }

    ghost method Follow(choice: Choice)
      requires machine in allowed && pid in machine.procs
      modifies `machine
      ensures machine == ActStep(old(machine), pid, choice) && machine in allowed
    {
      assert Step(machine, Act(pid, choice)) in allowed;
      machine := ActStep(machine, pid, choice);
    }

    method FsyncDirectory() returns (ok: bool, ghost how: Choice)
      modifies `disk
      ensures how == Works || how == Raises || how == RaisesLate
      ensures ok == (how == Works)
      ensures disk == if how.Raises? then old(disk) else old(disk).Sync()
    {
      var took: bool, returned: bool := *, *;
      if took { disk := disk.Sync(); }
      ok := took && returned;
      how := if ok then Works else if took then RaisesLate else Raises;
    }

    method WriteAndRename(op: DirOp<Receipt>) returns (ok: bool, ghost how: Choice)
      modifies `disk
      ensures how == Works || how == Raises || how == RaisesLate
      ensures ok == (how == Works)
      ensures disk == if how.Raises? then old(disk) else old(disk).Issue(op)
    {
      var took: bool, returned: bool := *, *;
      if took { disk := disk.Issue(op); }
      ok := took && returned;
      how := if ok then Works else if took then RaisesLate else Raises;
    }

    /** `_write_durable_text`. */
    method WriteDurableText(job: Job) returns (ok: bool)
      requires Inside(Writing(job, Rename))
      modifies `disk, `machine
      ensures Inside(AfterWrite(job, ok))
      ensures ok ==> disk == Disk(Perform(old(disk).visible, WriteOp(job)), [], Perform(old(disk).visible, WriteOp(job)))
      ensures !ok ==> disk.visible in {old(disk).visible, Perform(old(disk).visible, WriteOp(job))}
    {
      ghost var how;
      ok, how := WriteAndRename(WriteOp(job));
      Follow(how);
      if !ok { return; }
      ok, how := FsyncDirectory();
      Follow(how);
    }

    /** End of an `engine.begin()` block: commits what the transaction holds, or raises. */
    method EndTransaction(ghost site: Option<Site>, ghost receipt: Receipt, redo: Option<Evidence>) returns (ok: bool)
      requires Inside(if site.Some? then VerifyCommit(site.value, receipt, redo) else Commit(receipt, redo))
      modifies `journal, `machine
      ensures Inside(
        if !ok then Exited(1) else if site.None? then ReadStage
        else if site.value == OnStage then Publishing(Rename, receipt) else Exited(0))
      ensures journal == old(journal) || (redo.Some? && journal == redo)
      ensures ok && redo.Some? ==> journal == redo
    {
      var took: bool, acknowledged: bool := *, *;
      ok := took && acknowledged;
      if took && redo.Some? { journal := redo; }
      Follow(if ok then Works else if took then RaisesLate else Raises);
    }

    /**
     * `_verify_completed_report` on a report read back from disk: the service runs again, and its
     * transaction is kept only if what it reports matches. `rerun` is how the service responds.
     */
    method VerifyCompletedReport(site: Site, receipt: Receipt, rerun: Choice) returns (ok: bool)
      requires Inside(Verify(site, receipt))
      modifies `journal, `machine
      ensures Inside(if !ok then Exited(1) else if site == OnStage then Publishing(Rename, receipt) else Exited(0))
      ensures journal == old(journal) || (old(journal).None? && journal == Some(receipt.evidence))
      ensures ok ==> journal.Some? && journal.value.hashes == receipt.evidence.hashes
    {
      Follow(rerun);
      if journal.Some? {
        if !Returns(rerun) || journal.value.hashes != receipt.evidence.hashes { return false; }
        ok := EndTransaction(Some(site), receipt, None);
      } else {
        if rerun != Yields(receipt.evidence) { return false; }
        ok := EndTransaction(Some(site), receipt, Some(receipt.evidence));
      }
    }

    /** `_publish_completed_report`. */
    method PublishCompletedReport(rerun: Choice) returns (ok: bool)
      requires Inside(ReadStage)
      modifies `disk, `journal, `machine
      ensures Inside(Exited(if ok then 0 else 1))
      ensures ok ==> journal.Some? && disk.visible.output.Completed? && Agrees(disk.visible.output, journal.value)
      ensures disk.visible != old(disk).visible ==>
                old(disk).visible.staged.Completed? && disk.visible == Directory(Absent, old(disk).visible.staged)
      ensures journal != old(journal) ==>
                old(journal).None? && old(disk).visible.staged.Completed?
                && journal == Some(old(disk).visible.staged.evidence.evidence)
    {
      ghost var how;
      var staged := disk.visible.staged;
      var read: bool := *;
      Follow(if read then Works else Raises);
      if !read || !staged.Completed? || staged.evidence.asOf != asOf { return false; }
      ok := VerifyCompletedReport(OnStage, staged.evidence, rerun);
      if !ok { return; }
      ok, how := WriteAndRename(Publish(staged));
      Follow(how);
      if !ok { return; }
      ok, how := FsyncDirectory();
      Follow(how);
    }

    /** An existing output file: a completed one is verified, an unfinished one is superseded. */
    method ResumeOutput(rerun: Choice) returns (exit: Option<int>)
      requires Inside(FindOutput)
      modifies `journal, `machine
      ensures Inside(if exit.Some? then Exited(exit.value) else Writing(Progress, Rename))
      ensures exit in {None, Some(0), Some(1)}
      ensures exit == None ==> journal == old(journal) && !disk.visible.output.Completed?
      ensures journal == old(journal) || (old(journal).None? && disk.visible.output.Completed?)
      ensures exit == Some(0) ==> journal.Some? && disk.visible.output.Completed? && Agrees(disk.visible.output, journal.value)
    {
      var output := disk.visible.output;
      Follow(Works);
      if output.Absent? { return None; }
      var read: bool := *;
      Follow(if read then Works else Raises);
      if !read || output.Unreadable? { return Some(1); }
      if output.Completed? {
        if output.evidence.asOf != asOf { return Some(1); }
        var verified := VerifyCompletedReport(OnOutput, output.evidence, rerun);
        return Some(if verified then 0 else 1);
      }
      return None;
    }

    /** The `with` block: run, stage, commit; `failure` is the exit status of the except clause. */
    method RunTransaction(service: Choice) returns (stagedCreated: bool, failure: Option<int>)
      requires Inside(RunService)
      modifies `disk, `journal, `machine
      ensures failure.None? ==> stagedCreated && Inside(ReadStage) && journal.Some?
      ensures failure.Some? && stagedCreated ==> Inside(Exited(1))
      ensures failure.Some? && !stagedCreated ==>
                Inside(Writing(Failure(failure.value), Rename)) && journal == old(journal) && failure.value in {1, 2}
      ensures journal != old(journal) ==>
                old(journal).None? && service.Yields? && journal == Some(service.evidence)
                && disk.durable.staged == Completed(Receipt(asOf, service.evidence))
    {
      stagedCreated := false;
      Follow(service);
      var evidence, redo;
      if journal.Some? && Returns(service) {
        evidence, redo := journal.value.(deleted := 0), None;
      } else if service.Yields? {
        evidence, redo := service.evidence, Some(service.evidence);
      } else {
        return false, Some(if service.Blocked? then 2 else 1);
      }
      var receipt := Receipt(asOf, evidence);
      var staged := WriteDurableText(Stage(receipt, redo));
      if !staged { return false, Some(1); }
      stagedCreated := true;
      var committed := EndTransaction(None, receipt, redo);
      failure := if committed then None else Some(1);
    }

    ghost method LookForStage()
      requires Inside(FindStage)
      modifies `machine
      ensures Inside(if disk.visible.staged.Absent? then FindOutput else ReadStage)
    {
      Follow(Works);
    }

    /** `_execute_locked`. `rerun` answers every verification of this invocation. */
    method ExecuteLocked(service: Choice, rerun: Choice) returns (code: int)
      requires Inside(FindStage)
      modifies `disk, `journal, `machine
      ensures Inside(Exited(code)) && code in {0, 1, 2}
      ensures code == 0 ==> journal.Some? && disk.visible.output.Completed? && Agrees(disk.visible.output, journal.value)
      ensures code == 2 ==> journal == old(journal)
      ensures old(journal).Some? ==> journal == old(journal)
    {
      hide ActStep, Next, AfterVerify, AfterReadOutput, AfterRun;
      var staged := disk.visible.staged;
      LookForStage();
      if !staged.Absent? {
        var published := PublishCompletedReport(rerun);
        return if published then 0 else 1;
      }

      var settled := ResumeOutput(rerun);
      if settled.Some? { return settled.value; }

      var written := WriteDurableText(Progress);
      if !written { return 1; }

      var stagedCreated, failure := RunTransaction(service);
      if failure.Some? {
        if stagedCreated { return 1; }
        var _ := WriteDurableText(Failure(failure.value));
        return failure.value;
      }

      var finished := PublishCompletedReport(rerun);
      return if finished then 0 else 1;
    }

    /** `execute_checkpoint_cutover`. */
    method Execute(service: Choice, rerun: Choice) returns (code: int)
      requires At(Entering) && machine.lock == lock && lock != Some(pid)
      modifies `disk, `journal, `lock, `machine
      ensures At(Exited(code)) && machine.lock == lock
      ensures code == 0 ==> journal.Some? && disk.visible.output.Completed? && Agrees(disk.visible.output, journal.value)
      ensures code == 2 ==> journal == old(journal)
      ensures old(journal).Some? ==> journal == old(journal)
    {
      var entered: bool := *;
      Follow(if entered then Works else Raises);
      if !entered { return 1; }
      var taken: bool := *;
      taken := taken && lock.None?;
      Follow(if taken then Works else Raises);
      if !taken { return 1; }
      lock := Some(pid);
      code := ExecuteLocked(service, rerun);
      lock := None;
    }
  }

  ghost function Reachable(start: State): iset<State> {
    iset events: seq<Event> :: Run(start, events)
  }

  lemma ReachableIsClosed(start: State)
    ensures start in Reachable(start) && StepClosed(Reachable(start))
  {
    assert start == Run(start, []);
    forall s, event | s in Reachable(start) ensures Step(s, event) in Reachable(start) {
      var events :| s == Run(start, events);
      assert (events + [event])[..|events|] == events;
      assert Step(s, event) == Run(start, events + [event]);
    }
  }

  /** One command run on what any history left behind ends in a state the machine reaches. */
  method RunCutover(pid: nat, asOf: int, disk: Disk<Receipt>, journal: Option<Evidence>, lock: Option<nat>,
                    service: Choice, rerun: Choice, ghost start: State, ghost history: seq<Event>)
    returns (code: int, script: CutoverScript)
    requires var s := Run(start, history);
      s.disk == disk && s.journal == journal && s.lock == lock && lock != Some(pid)
      && (pid in s.procs ==> s.procs[pid].pc.Exited?)
    ensures exists events :: var t := Run(start, events);
      t.disk == script.disk && t.journal == script.journal && t.lock == script.lock
      && pid in t.procs && t.procs[pid].pc == Exited(code)
    ensures code == 0 ==>
      script.journal.Some? && script.disk.visible.output.Completed? && Agrees(script.disk.visible.output, script.journal.value)
    ensures code == 2 ==> script.journal == journal
    ensures journal.Some? ==> script.journal == journal
  {
    ReachableIsClosed(start);
    assert Run(start, history) in Reachable(start);
    script := new CutoverScript(pid, asOf, disk, journal, lock, Run(start, history), Reachable(start));
    code := script.Execute(service, rerun);
  }
}
