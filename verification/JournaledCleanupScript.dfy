/**
 * The journal-checked commands as the scripts write them: nested try/except blocks and the
 * `staged_created` flag over files and a database that change in place. Each statement that may
 * raise is one nondeterministic call.
 *
 * The ghost `machine` follows one invocation through `JournaledCleanup`. Every method shows that
 * what it did to the disk and the journal is what the machine did, so whatever the machine keeps
 * over all interleaved runs holds between any two statements here.
 */
module JournaledCleanupScript {
  import opened Wrappers
  import opened EvidenceFiles
  import opened JournaledCleanup

  /** Closed under everything that can happen: every step of the machine stays inside. */
  ghost predicate StepClosed<E(!new)>(states: iset<State<E>>) {
    forall s, event :: s in states ==> Step(s, event) in states
  }

  /** A disk with nothing left to sync. */
  function Synced<E>(d: Directory<E>): Disk<E> {
    Disk(d, [], d)
  }

  /** A set of states that no transition leaves; a script is never outside of one it started in. */
  type Closed<!E(==,!new)> = states: iset<State<E>> | StepClosed(states) ghost witness iset{}

  class CleanupScript<E(==,!new)> {
    const pid: nat
    var disk: Disk<E>
    var journal: Option<E>
    var lock: Option<nat>
    ghost var machine: State<E>
    ghost const allowed: Closed<E>

    /** An environment whose state is `start`, with this invocation about to enter it. */
    constructor (pid: nat, disk: Disk<E>, journal: Option<E>, lock: Option<nat>,
                 ghost start: State<E>, ghost allowed: Closed<E>)
      requires start.disk == disk && start.journal == journal && start.lock == lock
      requires pid in start.procs ==> start.procs[pid].pc.Exited?
      requires start in allowed
      ensures this.pid == pid && this.allowed == allowed
      ensures At(Entering) && machine.lock == this.lock == lock
      ensures this.disk == disk && this.journal == journal
    {
      this.pid, this.disk, this.journal, this.lock := pid, disk, journal, lock;
      this.allowed, machine := allowed, Step(start, Invoke(pid));
    }

    /** The machine is in step: it went through transitions only, and has the code's disk and journal. */
    ghost predicate InStep()
      reads this
    {
      && machine in allowed && pid in machine.procs
      && machine.disk == disk && machine.journal == journal
    }

    /** This invocation is at `pc`. */
    ghost predicate At(pc: Pc<E>)
      reads this
    {
      InStep() && machine.procs[pid].pc == pc
    }

    /** At `pc`, holding the lock until the invocation exits. */
    ghost predicate Inside(pc: Pc<E>)
      reads this
    {
      At(pc) && machine.lock == if pc.Exited? then None else Some(pid)
    }

    ghost method Follow(choice: Choice<E>)
      requires machine in allowed && pid in machine.procs
      modifies `machine
      ensures machine == ActStep(old(machine), pid, choice) && machine in allowed
    {
      assert Step(machine, Act(pid, choice)) in allowed;
      machine := ActStep(machine, pid, choice);
    }

    method FsyncDirectory() returns (ok: bool, ghost how: Choice<E>)
      modifies `disk
      ensures how == Works || how == Raises || how == RaisesLate
      ensures ok == (how == Works)
      ensures disk == if how.Raises? then old(disk) else old(disk).Sync()
    {
      var took: bool, returned: bool := *, *;
      if took { disk := disk.Sync(); }
      ok := took && returned;
      how := if ok then Works else if took then RaisesLate else Raises;
    }

    /** Opens, fills and fsyncs the temporary file, then renames it; or any of these raises. */
    method WriteAndRename(op: DirOp<E>) returns (ok: bool, ghost how: Choice<E>)
      modifies `disk
      ensures how == Works || how == Raises || how == RaisesLate
      ensures ok == (how == Works)
      ensures disk == if how.Raises? then old(disk) else old(disk).Issue(op)
    {
      var took: bool, returned: bool := *, *;
      if took { disk := disk.Issue(op); }
      ok := took && returned;
      how := if ok then Works else if took then RaisesLate else Raises;
    }

    /** `_write_payload`: when it returns, the new report is the one a power loss leaves behind. */
    method WritePayload(job: Job<E>) returns (ok: bool)
      requires Inside(Writing(job, Ensure))
      modifies `disk, `machine
      ensures ok ==> disk == Synced(Perform(old(disk).visible, WriteOp(job)))
      ensures !ok ==> disk.visible in {old(disk).visible, Perform(old(disk).visible, WriteOp(job))}
      ensures Inside(AfterWrite(job, ok))
    {
      ghost var how;
      ok, how := FsyncDirectory();
      Follow(how);
      if ok {
        ok := ReplaceReport(job);
      }
    }

    /** The rename and the directory fsync behind it. */
    method ReplaceReport(job: Job<E>) returns (ok: bool)
      requires Inside(Writing(job, Rename))
      modifies `disk, `machine
      ensures ok ==> disk == Synced(Perform(old(disk).visible, WriteOp(job)))
      ensures !ok ==> disk.visible in {old(disk).visible, Perform(old(disk).visible, WriteOp(job))}
      ensures Inside(AfterWrite(job, ok))
    {
      ghost var how;
      ok, how := WriteAndRename(WriteOp(job));
      Follow(how);
      if !ok { return; }
      ok, how := FsyncDirectory();
      Follow(how);
    }

    /** `verify_committed_post_state` against a report read back from disk. */
    method VerifyCompletedReport(report: Report<E>) returns (ok: bool)
      requires InStep()
      modifies `machine
      ensures machine in allowed && machine == ActStep(old(machine), pid, if ok then Works else Raises)
      ensures ok ==> report.Completed? && journal == Some(report.evidence)
    {
      var answers: bool := *;
      ok := answers && report.Completed? && journal == Some(report.evidence);
      Follow(if ok then Works else Raises);
    }

    /** `_publish_completed_report`: nothing is renamed before the database confirmed it. */
    method PublishCompletedReport(caller: Caller) returns (ok: bool)
      requires Inside(VerifyStage(caller))
      modifies `disk, `machine
      ensures Inside(if ok then Exited(0) else AfterPublishFailure(caller))
      ensures ok ==> journal.Some? && disk == Synced(Directory(Absent, Completed(journal.value)))
      ensures disk.visible != old(disk).visible ==>
                journal.Some? && disk.visible == Directory(Absent, Completed(journal.value))
    {
      var staged := disk.visible.staged;
      ok := VerifyCompletedReport(staged);
      if ok {
        ok := MoveIntoPlace(caller, staged.evidence);
      }
    }

    /** Directory fsync, rename, directory fsync. */
    method MoveIntoPlace(caller: Caller, e: E) returns (ok: bool)
      requires Inside(Publishing(caller, Ensure, e)) && disk.visible.staged == Completed(e)
      modifies `disk, `machine
      ensures Inside(if ok then Exited(0) else AfterPublishFailure(caller))
      ensures ok ==> disk == Synced(Directory(Absent, Completed(e)))
      ensures disk.visible in {old(disk).visible, Directory(Absent, Completed(e))}
    {
      hide AfterWrite, FailureCode;
      ghost var how;
      ok, how := FsyncDirectory();
      Follow(how);
      if !ok { return; }
      ok := RenameAndSync(caller, e);
    }

    method RenameAndSync(caller: Caller, e: E) returns (ok: bool)
      requires Inside(Publishing(caller, Rename, e)) && disk.visible.staged == Completed(e)
      modifies `disk, `machine
      ensures Inside(if ok then Exited(0) else AfterPublishFailure(caller))
      ensures ok ==> disk == Synced(Directory(Absent, Completed(e)))
      ensures disk.visible in {old(disk).visible, Directory(Absent, Completed(e))}
    {
      ghost var how;
      ok, how := WriteAndRename(Publish(disk.visible.staged));
      Follow(how);
      if !ok { return; }
      ok, how := FsyncDirectory();
      Follow(how);
    }

    /** `_journal_exists`; the read may raise. */
    method JournalExists() returns (answered: bool, exists_: bool)
      requires InStep()
      modifies `machine
      ensures answered ==> exists_ == journal.Some?
      ensures machine == ActStep(old(machine), pid, if answered then Works else Raises) && machine in allowed
    {
      answered := *;
      exists_ := journal.Some?;
      Follow(if answered then Works else Raises);
    }

    /** `_remove_stale_stage_if_uncommitted`. */
    method RemoveStaleStageIfUncommitted() returns (removed: bool)
      requires Inside(StaleJournalCheck)
      modifies `disk, `machine
      ensures Inside(if removed then FindOutput else Exited(1))
      ensures removed ==> journal.None? && disk == Synced(old(disk).visible.(staged := Absent))
      ensures journal.Some? ==> !removed && disk == old(disk)
    {
      var answered, journalExists := JournalExists();
      if !answered || journalExists { return false; }
      removed := UnlinkStage();
    }

    /** The unlink and the directory fsync behind it. */
    method UnlinkStage() returns (removed: bool)
      requires Inside(StaleUnlink)
      modifies `disk, `machine
      ensures Inside(if removed then FindOutput else Exited(1))
      ensures removed ==> disk == Synced(old(disk).visible.(staged := Absent))
    {
      ghost var how;
      removed, how := WriteAndRename(DropStage);
      Follow(how);
      if !removed { return; }
      removed, how := FsyncDirectory();
      Follow(how);
    }

    /** The end of the `with` block: the commit may raise whether or not it took effect. */
    method CommitAndUnlock(e: E) returns (failure: Option<int>)
      requires Inside(Commit(e)) && journal.None?
      modifies `journal, `machine
      ensures Inside(if failure.None? then VerifyStage(Finish) else Exited(1))
      ensures failure in {None, Some(1)}
      ensures journal == Some(e) || (journal == None && failure.Some?)
    {
      var took: bool, acknowledged: bool := *, *;
      if took { journal := Some(e); }
      Follow(if took && acknowledged then Works else if took then RaisesLate else Raises);
      if !took || !acknowledged { return Some(1); }
      var unlocked: bool := *;
      Follow(if unlocked then Works else Raises);
      return if unlocked then None else Some(1);
    }

    /** The service stages its result, then writes the journal row; `code` is for the except clause. */
    method RunServiceAndStage(service: Choice<E>) returns (ran: bool, code: int)
      requires Inside(RunService)
      modifies `disk, `machine
      ensures ran ==> service.Yields? && journal.None? && Inside(Commit(service.evidence))
                      && disk == Synced(old(disk).visible.(staged := Completed(service.evidence)))
      ensures !ran ==> Inside(Rollback(code)) && (code == 1 || code == 2)
    {
      ran, code := false, 1;
      Follow(service);
      hide ActStep;
      if journal.Some? { return false, 2; }
      if !service.Yields? { return false, FailureCode(service); }
      var staged := WritePayload(Stage(service.evidence));
      if !staged { return; }
      ran, code := WriteJournalRow(service.evidence);
    }

    /** The journal row is written in the same transaction; the service may name blockers instead. */
    method WriteJournalRow(e: E) returns (ran: bool, code: int)
      requires Inside(WriteJournal(e))
      modifies `machine
      ensures Inside(if ran then Commit(e) else Rollback(code)) && (code == 1 || code == 2)
    {
      var named: bool := *;
      ran := *;
      Follow(if ran then Works else if named then Blocked else Raises);
      code := if named then 2 else 1;
    }

    /**
     * The `with` block. `failure` is the exit status the except clause would report. The journal
     * changes only in a commit, and only once the stage is durable.
     */
    method RunLockedTransaction(service: Choice<E>) returns (stagedCreated: bool, failure: Option<int>)
      requires Inside(RunService)
      modifies `disk, `journal, `machine
      ensures failure.None? ==> stagedCreated && journal.Some? && Inside(VerifyStage(Finish))
      ensures failure.Some? && stagedCreated ==> Inside(Exited(1))
      ensures failure.Some? && !stagedCreated ==>
                Inside(Writing(Failure(failure.value), Ensure)) && journal == old(journal) && failure.value in {1, 2}
      ensures journal != old(journal) ==>
                old(journal).None? && service.Yields? && journal == Some(service.evidence)
                && disk == Synced(old(disk).visible.(staged := Completed(service.evidence)))
    {
      var code;
      stagedCreated, code := RunServiceAndStage(service);
      if stagedCreated {
        failure := CommitAndUnlock(service.evidence);
      } else {
        var rolledBack: bool := *;
        Follow(if rolledBack then Works else Raises);
        failure := Some(if rolledBack then code else 1);
      }
    }

    /** The first block of `_execute_locked`: a staged report is published or, if stale, dropped. */
    method ResumeStage() returns (exit: Option<int>)
      requires Inside(FindStage)
      modifies `disk, `machine
      ensures Inside(if exit.Some? then Exited(exit.value) else FindOutput)
      ensures exit in {None, Some(0), Some(1)}
      ensures exit == Some(0) ==> journal.Some? && disk.visible.output == Completed(journal.value)
      ensures exit == None ==> disk.visible == old(disk).visible.(staged := Absent)
    {
      var staged := disk.visible.staged;
      Follow(Works);
      if !staged.Absent? {
        var published := PublishCompletedReport(Recovery);
        if published { return Some(0); }
        var removed := RemoveStaleStageIfUncommitted();
        if !removed { return Some(1); }
      }
      return None;
    }

    /** The second block: an existing output file is the answer, or the journal must be empty. */
    method ResumeOutput() returns (exit: Option<int>)
      requires Inside(FindOutput)
      modifies `machine
      ensures Inside(if exit.Some? then Exited(exit.value) else Writing(Progress, Ensure))
      ensures exit in {None, Some(0), Some(1)}
      ensures exit == Some(0) ==> journal.Some? && disk.visible.output == Completed(journal.value)
      ensures exit == None ==> disk.visible.output.Absent? || journal.None?
    {
      var output := disk.visible.output;
      Follow(Works);
      if output.Absent? { return None; }
      exit := AnswerFromOutput();
    }

    /** The output file is there: it is the answer, or the journal must be empty. */
    method AnswerFromOutput() returns (exit: Option<int>)
      requires Inside(VerifyOutput)
      modifies `machine
      ensures Inside(if exit.Some? then Exited(exit.value) else Writing(Progress, Ensure))
      ensures exit in {None, Some(0), Some(1)}
      ensures exit == Some(0) ==> journal.Some? && disk.visible.output == Completed(journal.value)
      ensures exit == None ==> journal.None?
    {
      var verified := VerifyCompletedReport(disk.visible.output);
      if verified { return Some(0); }
      var answered, journalExists := JournalExists();
      if !answered || journalExists { return Some(1); }
      return None;
    }

    /** `_execute_locked`. */
    method ExecuteLocked(service: Choice<E>) returns (code: int)
      requires Inside(FindStage)
      modifies `disk, `journal, `machine
      ensures Inside(Exited(code))
      ensures code == 0 || code == 1 || code == 2
      ensures code == 0 ==> journal.Some? && disk.visible.output == Completed(journal.value)
      ensures code == 2 ==> journal == old(journal)
      ensures journal != old(journal) ==> old(journal).None? && service.Yields? && journal == Some(service.evidence)
    {
      var settled := ResumeStage();
      if settled.Some? { return settled.value; }
      settled := ResumeOutput();
      if settled.Some? { return settled.value; }
      var written := WritePayload(Progress);
      if !written { return 1; }
      code := RunAndPublish(service);
    }

    /** The transaction, then the FAILED report or the publication. */
    method RunAndPublish(service: Choice<E>) returns (code: int)
      requires Inside(RunService)
      modifies `disk, `journal, `machine
      ensures Inside(Exited(code))
      ensures code == 0 || code == 1 || code == 2
      ensures code == 0 ==> journal.Some? && disk.visible.output == Completed(journal.value)
      ensures code == 2 ==> journal == old(journal)
      ensures journal != old(journal) ==> old(journal).None? && service.Yields? && journal == Some(service.evidence)
    {
      hide FailureCode, Perform, WriteOp;
      var stagedCreated, failure := RunLockedTransaction(service);
      if failure.Some? {
        if stagedCreated { return 1; }
        var _ := WritePayload(Failure(failure.value));
        return failure.value;
      }

      var finished := PublishCompletedReport(Finish);
      return if finished then 0 else 1;
    }

    /**
     * The whole command. From any state the machine can reach, exit status 0 means the committed
     * result is published, and exit status 2 that this run committed nothing.
     */
    method Execute(service: Choice<E>) returns (code: int)
      requires At(Entering) && machine.lock == lock && lock != Some(pid)
      modifies `disk, `journal, `lock, `machine
      ensures At(Exited(code)) && machine.lock == lock
      ensures code == 0 ==> journal.Some? && disk.visible.output == Completed(journal.value)
      ensures code == 2 ==> journal == old(journal)
      ensures journal != old(journal) ==> old(journal).None? && service.Yields? && journal == Some(service.evidence)
    {
      ghost var how;
      var entered;
      entered, how := FsyncDirectory();
      Follow(how);
      if !entered { return 1; }
      var taken: bool := *;
      taken := taken && lock.None?;
      Follow(if taken then Works else Raises);
      if !taken { return 1; }
      lock := Some(pid);
      code := ExecuteLocked(service);
      lock := None;
    }
  }

  /** Every state some sequence of events leads to. */
  ghost function Reachable<E(!new)>(start: State<E>): iset<State<E>> {
    iset events: seq<Event<E>> :: Run(start, events)
  }

  lemma ReachableIsClosed<E(!new)>(start: State<E>)
    ensures start in Reachable(start) && StepClosed(Reachable(start))
  {
    assert start == Run(start, []);
    forall s, event | s in Reachable(start) ensures Step(s, event) in Reachable(start) {
      var events :| s == Run(start, events);
      assert (events + [event])[..|events|] == events;
      assert Step(s, event) == Run(start, events + [event]);
    }
  }

  /**
   * One command run on what any history left behind: it ends in a state the machine reaches, so
   * every theorem about runs applies to what it leaves on disk and in the database.
   */
  method RunCleanup<E(==,!new)>(pid: nat, disk: Disk<E>, journal: Option<E>, lock: Option<nat>, service: Choice<E>,
                                ghost start: State<E>, ghost history: seq<Event<E>>)
    returns (code: int, script: CleanupScript<E>)
    requires var s := Run(start, history);
      s.disk == disk && s.journal == journal && s.lock == lock && lock != Some(pid)
      && (pid in s.procs ==> s.procs[pid].pc.Exited?)
    ensures exists events :: var t := Run(start, events);
      t.disk == script.disk && t.journal == script.journal && t.lock == script.lock
      && pid in t.procs && t.procs[pid].pc == Exited(code)
    ensures code == 0 ==> script.journal.Some? && script.disk.visible.output == Completed(script.journal.value)
    ensures code == 2 ==> script.journal == journal
    ensures script.journal != journal ==> journal.None? && service.Yields? && script.journal == Some(service.evidence)
  {
    ReachableIsClosed(start);
    assert Run(start, history) in Reachable(start);
    script := new CleanupScript(pid, disk, journal, lock, Run(start, history), Reachable(start));
    code := script.Execute(service);
  }
}
