/**
 * The evidence protocol shared by the three journal-checked commands: the cleanup of Agent
 * operation history, the forced-schema recovery and the cleanup of background runtime.
 *
 * One invocation is a process that walks through the program points `Pc`. Every point is one
 * call into the file system, the lock or the database; a `Choice` says how that call turns out.
 * Invocations interleave freely, may be killed between any two calls, and the whole machine may
 * lose power. The database is known by what it promises: the journal row is written in the same
 * transaction as the deletions, verification succeeds only against an equal journal, and journal
 * reads that return are truthful.
 */
module JournaledCleanup {
  import opened Wrappers
  import opened EvidenceFiles
  import Completion

  /** Which of its two callers runs `_publish_completed_report`. */
  datatype Caller = Recovery | Finish

  /** What a durable write is for; a failed run remembers the status it will exit with. */
  datatype Job<+E> = Progress | Stage(evidence: E) | Failure(code: int)

  /** Directory fsync, then write and rename, then directory fsync. */
  datatype Part = Ensure | Rename | Sync

  datatype Pc<+E> =
    | Entering
    | Locking
    | FindStage
    | VerifyStage(caller: Caller)
    | Publishing(caller: Caller, part: Part, evidence: E)
    | StaleJournalCheck
    | StaleUnlink
    | StaleSync
    | FindOutput
    | VerifyOutput
    | OutputJournalCheck
    | Writing(job: Job<E>, part: Part)
    | RunService
    | WriteJournal(evidence: E)
    | Commit(evidence: E)
    | Unlock
    | Rollback(code: int)
    | Exited(code: int)

  /** `committed` records whether this invocation's own transaction took effect. */
  datatype Process<+E> = Process(pc: Pc<E>, committed: bool)

  datatype State<+E> = State(
    disk: Disk<E>,
    journal: Option<E>,
    lock: Option<nat>,
    procs: map<nat, Process<E>>,
    commits: seq<E>)

  /**
   * `Works`: the call returns. `Yields(e)`: it returns, and where the service runs its result is
   * `e`. `Raises`: some exception. `Blocked`: the service's own error, which names blockers.
   * `RaisesLate`: the call raises although its effect took place.
   */
  datatype Choice<+E> = Works | Yields(evidence: E) | Raises | Blocked | RaisesLate

  datatype Event<+E> =
    | Invoke(pid: nat)
    | Act(pid: nat, choice: Choice<E>)
    | Kill(pid: nat)
    | PowerLoss(kept: set<nat>)

  predicate Returns<E>(choice: Choice<E>) {
    choice.Works? || choice.Yields?
  }

  /** Between taking and releasing the file lock. */
  predicate Critical<E>(pc: Pc<E>) {
    !pc.Entering? && !pc.Locking? && !pc.Exited?
  }

  // ----- One call of one invocation -----

  function AfterPublishFailure<E>(caller: Caller): Pc<E> {
    if caller == Recovery then StaleJournalCheck else Exited(1)
  }

  function NextPart(part: Part): Part {
    if part == Ensure then Rename else Sync
  }

  /** A stage write that fails fails the transaction; a failed FAILED report is suppressed. */
  function AfterWrite<E>(job: Job<E>, ok: bool): Pc<E> {
    match job
    case Progress => if ok then RunService else Exited(1)
    case Stage(e) => if ok then WriteJournal(e) else Rollback(1)
    case Failure(code) => Exited(code)
  }

  function FailureCode<E>(choice: Choice<E>): int {
    if choice.Blocked? then 2 else 1
  }

  /** Where the invocation goes from `pc`. */
  function Next<E(==)>(pc: Pc<E>, choice: Choice<E>, visible: Directory<E>, journal: Option<E>, locked: bool): Pc<E> {
    var ok := Returns(choice);
    match pc
    case Entering => if ok then Locking else Exited(1)
    case Locking => if ok && !locked then FindStage else Exited(1)
    case FindStage => if visible.staged.Absent? then FindOutput else VerifyStage(Recovery)
    case VerifyStage(caller) =>
      if ok && visible.staged.Completed? && journal == Some(visible.staged.evidence)
      then Publishing(caller, Ensure, visible.staged.evidence)
      else AfterPublishFailure(caller)
    case Publishing(caller, part, e) =>
      if !ok then AfterPublishFailure(caller)
      else if part == Sync then Exited(0) else Publishing(caller, NextPart(part), e)
    case StaleJournalCheck => if ok && journal.None? then StaleUnlink else Exited(1)
    case StaleUnlink => if ok then StaleSync else Exited(1)
    case StaleSync => if ok then FindOutput else Exited(1)
    case FindOutput => if visible.output.Absent? then Writing(Progress, Ensure) else VerifyOutput
    case VerifyOutput =>
      if ok && visible.output.Completed? && journal == Some(visible.output.evidence)
      then Exited(0) else OutputJournalCheck
    case OutputJournalCheck => if ok && journal.None? then Writing(Progress, Ensure) else Exited(1)
    case Writing(job, part) =>
      if ok && part != Sync then Writing(job, NextPart(part)) else AfterWrite(job, ok)
    case RunService =>
      if journal.Some? then Rollback(2)
      else if choice.Yields? then Writing(Stage(choice.evidence), Ensure)
      else Rollback(FailureCode(choice))
    case WriteJournal(e) => if ok then Commit(e) else Rollback(FailureCode(choice))
    case Commit(_) => if ok then Unlock else Exited(1)
    case Unlock => if ok then VerifyStage(Finish) else Exited(1)
    case Rollback(code) => Writing(Failure(if ok then code else 1), Ensure)
    case Exited(_) => pc
  }

  /** The file a durable write renames into place. */
  function WriteOp<E>(job: Job<E>): DirOp<E> {
    match job
    case Progress => PutOutput(InProgress)
    case Stage(e) => PutStage(Completed(e))
    case Failure(_) => PutOutput(Failed)
  }

  function PartEffect<E>(disk: Disk<E>, part: Part, op: DirOp<E>): Disk<E> {
    if part == Rename then disk.Issue(op) else disk.Sync()
  }

  function DiskAfter<E>(disk: Disk<E>, pc: Pc<E>): Disk<E> {
    match pc
    case Entering => disk.Sync()
    case StaleSync => disk.Sync()
    case StaleUnlink => disk.Issue(DropStage)
    case Publishing(_, part, _) => PartEffect(disk, part, Publish(disk.visible.staged))
    case Writing(job, part) => PartEffect(disk, part, WriteOp(job))
    case _ => disk
  }

  /** The journal row and the deletions take effect together. */
  predicate TakesEffect<E>(pc: Pc<E>, choice: Choice<E>) {
    pc.Commit? && (Returns(choice) || choice.RaisesLate?)
  }

  /** Leaving releases the lock on every path. */
  function LockAfter<E>(lock: Option<nat>, pid: nat, pc: Pc<E>, next: Pc<E>): Option<nat> {
    if pc.Locking? && Critical(next) then Some(pid)
    else if next.Exited? && lock == Some(pid) then None
    else lock
  }

  function ActStep<E(==)>(s: State<E>, pid: nat, choice: Choice<E>): State<E>
    requires pid in s.procs
  {
    var pc := s.procs[pid].pc;
    var next := Next(pc, choice, s.disk.visible, s.journal, s.lock.Some?);
    var took := TakesEffect(pc, choice);
    State(
      if Returns(choice) || choice.RaisesLate? then DiskAfter(s.disk, pc) else s.disk,
      if took then Some(pc.evidence) else s.journal,
      LockAfter(s.lock, pid, pc, next),
      s.procs[pid := Process(next, s.procs[pid].committed || took)],
      if took then s.commits + [pc.evidence] else s.commits)
  }

  // ----- Whole runs -----

  /** Events that cannot happen (an absent process, a live process invoked again) change nothing. */
  function Step<E(==)>(s: State<E>, event: Event<E>): State<E> {
    match event
    case Invoke(pid) =>
      if pid in s.procs && !s.procs[pid].pc.Exited? then s
      else s.(procs := s.procs[pid := Process(Entering, false)])
    case Act(pid, choice) =>
      if pid in s.procs then ActStep(s, pid, choice) else s
    case Kill(pid) =>
      s.(procs := s.procs - {pid}, lock := if s.lock == Some(pid) then None else s.lock)
    case PowerLoss(kept) =>
      s.(disk := s.disk.PowerLoss(kept), procs := map[], lock := None)
  }

  function Run<E(==)>(s: State<E>, events: seq<Event<E>>): State<E> {
    if events == [] then s else Step(Run(s, events[..|events| - 1]), events[|events| - 1])
  }

  /** Nothing committed, nothing claimed, nobody running; any other leftover file is allowed. */
  ghost predicate Initial<E>(s: State<E>) {
    s.journal.None? && s.commits == [] && s.lock.None? && s.procs == map[] && Unclaimed(s.disk)
  }

  // ----- The invariant -----

  /** The output file reports the committed result. */
  ghost predicate Shown<E>(s: State<E>) {
    s.journal.Some? && s.disk.visible.output == Completed(s.journal.value)
  }

  ghost predicate PcInv<E>(s: State<E>, pc: Pc<E>) {
    match pc
    case Publishing(_, part, e) =>
      s.journal == Some(e) && (part != Sync ==> s.disk.visible.staged == Completed(e))
      && (part == Sync ==> s.disk.visible == Directory(Absent, Completed(e)))
    case StaleUnlink => s.journal.None?
    case StaleSync => s.journal.None? && s.disk.visible.staged.Absent?
    case FindOutput => s.disk.visible.staged.Absent?
    case Writing(job, part) =>
      s.journal.None? && (job.Stage? && part == Sync ==> s.disk.visible.staged == Completed(job.evidence))
      && (job.Failure? ==> job.code == 1 || job.code == 2)
    case RunService => s.journal.None?
    case WriteJournal(e) => s.journal.None? && StageIsDurable(s.disk, e)
    case Commit(e) => s.journal.None? && StageIsDurable(s.disk, e)
    case Rollback(code) => s.journal.None? && (code == 1 || code == 2)
    case _ => true
  }

  /** No call hides a published result. */
  ghost predicate StaysShown<E>(s: State<E>, t: State<E>) {
    Shown(s) ==> Shown(t) && t.journal == s.journal
  }

  /** Where an invocation can be once its own transaction took effect. */
  ghost predicate AfterCommit<E>(pc: Pc<E>) {
    || pc.Unlock? || pc == VerifyStage(Finish) || (pc.Publishing? && pc.caller == Finish)
    || pc == Exited(0) || pc == Exited(1)
  }

  ghost predicate EvidenceInv<E>(s: State<E>) {
    match s.journal
    case None => Unclaimed(s.disk) && s.commits == []
    case Some(e) => Backed(s.disk, e) && s.commits == [e]
  }

  ghost predicate Inv<E>(s: State<E>) {
    && EvidenceInv(s)
    && (s.lock.Some? ==> s.lock.value in s.procs && Critical(s.procs[s.lock.value].pc))
    && (forall p | p in s.procs && Critical(s.procs[p].pc) :: s.lock == Some(p) && PcInv(s, s.procs[p].pc))
    && (forall p | p in s.procs && s.procs[p].committed :: AfterCommit(s.procs[p].pc))
  }

  /** The holder of the lock moves on; nobody else is in the critical section. */
  lemma MoveKeeps<E>(s: State<E>, t: State<E>, pid: nat)
    requires Inv(s) && s.lock == Some(pid) && pid in t.procs
    requires t.lock == s.lock && t.procs == s.procs[pid := t.procs[pid]]
    requires EvidenceInv(t)
    requires var p := t.procs[pid]; Critical(p.pc) && PcInv(t, p.pc) && (p.committed ==> AfterCommit(p.pc))
    ensures Inv(t)
  {
  }

  /** Any invocation leaves. */
  lemma LeaveKeeps<E>(s: State<E>, t: State<E>, pid: nat)
    requires Inv(s) && pid in s.procs && pid in t.procs
    requires t.lock == (if s.lock == Some(pid) then None else s.lock)
    requires t.procs == s.procs[pid := t.procs[pid]]
    requires s.lock == Some(pid) || t == s.(procs := t.procs)
    requires EvidenceInv(t)
    requires var p := t.procs[pid]; p.pc.Exited? && (p.committed ==> AfterCommit(p.pc))
    ensures Inv(t)
  {
  }

  lemma SyncKeeps<E>(s: State<E>)
    requires Inv(s)
    ensures Inv(s.(disk := s.disk.Sync()))
  {
    assert s.disk.Sync().visible == s.disk.visible;
  }

  /** Evidence and program point, the part of the invariant that one call is about. */
  ghost predicate Local<E>(s: State<E>, pid: nat) {
    pid in s.procs && !s.procs[pid].pc.Exited? && EvidenceInv(s) && PcInv(s, s.procs[pid].pc)
  }

  lemma ActKeepsEvidence<E>(s: State<E>, pid: nat, choice: Choice<E>)
    requires Local(s, pid)
    ensures EvidenceInv(ActStep(s, pid, choice))
  {
  }

  lemma ActKeepsPc<E>(s: State<E>, pid: nat, choice: Choice<E>)
    requires Local(s, pid)
    ensures var t := ActStep(s, pid, choice); PcInv(t, t.procs[pid].pc)
  {
  }

  lemma ActKeepsShown<E>(s: State<E>, pid: nat, choice: Choice<E>)
    requires Local(s, pid)
    ensures StaysShown(s, ActStep(s, pid, choice))
  {
  }

  lemma ActKeepsCommitted<E>(s: State<E>, pid: nat, choice: Choice<E>)
    requires Local(s, pid) && (s.procs[pid].committed ==> AfterCommit(s.procs[pid].pc))
    ensures var p := ActStep(s, pid, choice).procs[pid]; p.committed ==> AfterCommit(p.pc)
  {
  }

  lemma EnterPreserves<E>(s: State<E>, pid: nat, choice: Choice<E>)
    requires Inv(s) && pid in s.procs && (s.procs[pid].pc.Entering? || s.procs[pid].pc.Locking?)
    ensures Inv(ActStep(s, pid, choice))
  {
    SyncKeeps(s);
  }

  lemma ExitZeroShows<E>(s: State<E>, pid: nat, choice: Choice<E>)
    requires Local(s, pid)
    ensures var t := ActStep(s, pid, choice); t.procs[pid].pc == Exited(0) ==> Shown(t)
  {
  }

  lemma InsideUntilExit<E>(s: State<E>, pid: nat, choice: Choice<E>)
    requires pid in s.procs && Critical(s.procs[pid].pc)
    ensures var next := ActStep(s, pid, choice).procs[pid].pc; Critical(next) || next.Exited?
  {
  }

  lemma {:induction false} ActPreserves<E>(s: State<E>, pid: nat, choice: Choice<E>)
    requires Inv(s) && pid in s.procs && !s.procs[pid].pc.Exited?
    ensures var t := ActStep(s, pid, choice);
      Inv(t) && StaysShown(s, t) && (t.procs[pid].pc == Exited(0) ==> Shown(t))
  {
    hide EvidenceInv, PcInv, DiskAfter, Next, Shown;
    ExitZeroShows(s, pid, choice);
    ActKeepsEvidence(s, pid, choice);
    ActKeepsPc(s, pid, choice);
    ActKeepsShown(s, pid, choice);
    ActKeepsCommitted(s, pid, choice);
    var t := ActStep(s, pid, choice);
    if s.procs[pid].pc.Entering? || s.procs[pid].pc.Locking? {
      EnterPreserves(s, pid, choice);
    } else {
      InsideUntilExit(s, pid, choice);
      if t.procs[pid].pc.Exited? {
        LeaveKeeps(s, t, pid);
      } else {
        MoveKeeps(s, t, pid);
      }
    }
  }

  lemma {:induction false} StepPreserves<E>(s: State<E>, event: Event<E>)
    requires Inv(s)
    ensures Inv(Step(s, event))
  {
    match event
    case Act(pid, choice) => if pid in s.procs && !s.procs[pid].pc.Exited? { ActPreserves(s, pid, choice); }
    case PowerLoss(kept) =>
      if s.journal.Some? {
        BackedSurvives(s.disk.durable, s.disk.pending, kept, s.journal.value);
      } else {
        UnclaimedSurvives(s.disk.durable, s.disk.pending, kept);
      }
    case _ =>
  }

  lemma {:induction false} RunPreserves<E>(s: State<E>, events: seq<Event<E>>)
    requires Inv(s)
    ensures Inv(Run(s, events))
  {
    if events != [] {
      RunPreserves(s, events[..|events| - 1]);
      StepPreserves(Run(s, events[..|events| - 1]), events[|events| - 1]);
    }
  }

  // ----- What every run keeps -----

  /** A COMPLETED output file names exactly the result the database committed. */
  lemma OutputTellsTheTruth<E>(s: State<E>, events: seq<Event<E>>)
    requires Initial(s)
    ensures var t := Run(s, events);
      var output := t.disk.visible.output;
      output.Completed? ==> t.journal == Some(output.evidence)
  {
    RunPreserves(s, events);
  }

  /** Once committed, the evidence is on disk, whatever a power loss takes away. */
  lemma CommittedEvidenceSurvives<E>(s: State<E>, events: seq<Event<E>>, kept: set<nat>)
    requires Initial(s)
    ensures var t := Run(s, events);
      t.journal.Some? ==>
        Carries(t.disk.visible, t.journal.value) && Carries(t.disk.PowerLoss(kept).visible, t.journal.value)
  {
    RunPreserves(s, events);
    var t := Run(s, events);
    if t.journal.Some? {
      BackedSurvives(t.disk.durable, t.disk.pending, kept, t.journal.value);
    }
  }

  /** The destructive transaction takes effect at most once; the service only runs before that. */
  lemma CommitsAtMostOnce<E>(s: State<E>, events: seq<Event<E>>)
    requires Initial(s)
    ensures var t := Run(s, events);
      && t.commits == (if t.journal.Some? then [t.journal.value] else [])
      && (forall p | p in t.procs && t.procs[p].pc.RunService? :: t.journal.None?)
      && (forall p | p in t.procs && t.procs[p].pc == Exited(2) :: !t.procs[p].committed)
  {
    RunPreserves(s, events);
  }

  /** At most one invocation is between taking and releasing the lock. */
  lemma LockExcludes<E>(s: State<E>, events: seq<Event<E>>, p: nat, q: nat)
    requires Initial(s)
    requires var t := Run(s, events); p in t.procs && q in t.procs
    requires var t := Run(s, events); Critical(t.procs[p].pc) && Critical(t.procs[q].pc)
    ensures p == q
  {
    RunPreserves(s, events);
  }

  /** Exit status 0 is only ever reached with the committed result published. */
  lemma ExitZeroMeansPublished<E>(s: State<E>, events: seq<Event<E>>, pid: nat, choice: Choice<E>)
    requires Initial(s)
    requires var t := Run(s, events); pid in t.procs && !t.procs[pid].pc.Exited?
    ensures var u := Step(Run(s, events), Act(pid, choice));
      u.procs[pid].pc == Exited(0) ==> Shown(u)
  {
    RunPreserves(s, events);
    ActPreserves(Run(s, events), pid, choice);
  }

  // ----- Fault-free invocations -----

  /** How many calls an invocation is from its end when none of them fails. */
  function Rank<E>(pc: Pc<E>): nat {
    match pc
    case Entering => 24
    case Locking => 23
    case FindStage => 22
    case VerifyStage(Recovery) => 21
    case StaleJournalCheck => 20
    case StaleUnlink => 19
    case StaleSync => 18
    case FindOutput => 17
    case VerifyOutput => 16
    case OutputJournalCheck => 15
    case Writing(Progress, part) => if part == Ensure then 14 else if part == Rename then 13 else 12
    case RunService => 11
    case Writing(_, part) => if part == Ensure then 10 else if part == Rename then 9 else 8
    case WriteJournal(_) => 7
    case Commit(_) => 6
    case Unlock => 5
    case VerifyStage(Finish) => 4
    case Publishing(_, part, _) => if part == Ensure then 3 else if part == Rename then 2 else 1
    case Rollback(_) => 11
    case Exited(_) => 0
  }

  /** What an invocation knows when no call of it has failed and the service yields `e`. */
  ghost predicate OnCourse<E>(s: State<E>, pid: nat, e: E) {
    pid in s.procs &&
    match s.procs[pid].pc
    case Entering => s.lock.None?
    case Locking => s.lock.None?
    case StaleJournalCheck => s.journal.None?
    case VerifyOutput => s.disk.visible.staged.Absent?
    case OutputJournalCheck => s.journal.None?
    case Writing(job, _) => job == Progress || job == Stage(e)
    case WriteJournal(x) => x == e
    case Commit(x) => x == e
    case Unlock => s.journal.Some? && s.disk.visible.staged == Completed(s.journal.value)
    case VerifyStage(caller) =>
      if caller == Finish then s.journal.Some? && s.disk.visible.staged == Completed(s.journal.value)
      else !s.disk.visible.staged.Absent?
    case Rollback(_) => false
    case Exited(code) => code == 0 && s.journal.Some? && s.disk.visible.output == Completed(s.journal.value)
    case _ => true
  }

  /** The result the database ends up with. */
  function Goal<E>(s: State<E>, e: E): E {
    s.journal.GetOr(e)
  }

  ghost predicate Closer<E>(s: State<E>, t: State<E>, pid: nat, e: E)
    requires pid in s.procs
  {
    OnCourse(t, pid, e) && Rank(t.procs[pid].pc) < Rank(s.procs[pid].pc) && Goal(t, e) == Goal(s, e)
  }

  lemma StaysOnCourse<E>(s: State<E>, pid: nat, e: E)
    requires Inv(s) && OnCourse(s, pid, e) && !s.procs[pid].pc.Exited?
    ensures Closer(s, ActStep(s, pid, Yields(e)), pid, e)
  {
  }

  /** Anything that others may do meanwhile, and the fault-free calls of this invocation. */
  predicate Meanwhile<E(==)>(event: Event<E>, pid: nat, e: E) {
    match event
    case Act(q, choice) => q == pid ==> choice == Yields(e)
    case Invoke(q) => q != pid
    case Kill(q) => q != pid
    case PowerLoss(_) => false
  }

  predicate IsOwn<E>(event: Event<E>, pid: nat) {
    event.Act? && event.pid == pid
  }

  /** How many of the calls are the invocation's own. */
  function Own<E>(pid: nat, events: seq<Event<E>>): nat {
    if events == [] then 0 else Own(pid, events[..|events| - 1]) + if IsOwn(events[|events| - 1], pid) then 1 else 0
  }

  /** It holds the lock, or has come to its end. */
  ghost predicate Underway<E>(s: State<E>, pid: nat, e: E) {
    OnCourse(s, pid, e) && (Critical(s.procs[pid].pc) || s.procs[pid].pc.Exited?)
  }

  /** Others that are turned away by the lock sync the directory at most. */
  lemma OthersAreTurnedAway<E>(s: State<E>, pid: nat, q: nat, choice: Choice<E>)
    requires Inv(s) && pid in s.procs && Critical(s.procs[pid].pc) && q != pid && q in s.procs
    ensures var t := ActStep(s, q, choice);
      && t.disk.visible == s.disk.visible && t.journal == s.journal && t.commits == s.commits
      && pid in t.procs && t.procs[pid] == s.procs[pid]
  {
    hide EvidenceInv, PcInv;
    assert !Critical(s.procs[q].pc);
  }

  /** What a published result needs stays after the end. */
  lemma OthersKeepShown<E>(s: State<E>, pid: nat, q: nat, choice: Choice<E>)
    requires Inv(s) && Shown(s) && pid in s.procs && q != pid && q in s.procs
    ensures var t := ActStep(s, q, choice); Shown(t) && t.journal == s.journal && pid in t.procs && t.procs[pid] == s.procs[pid]
  {
    if !s.procs[q].pc.Exited? {
      ActPreserves(s, q, choice);
    }
  }

  lemma {:induction false} OthersKeepCourse<E>(s: State<E>, pid: nat, e: E, event: Event<E>)
    requires Inv(s) && Underway(s, pid, e) && Meanwhile(event, pid, e) && !IsOwn(event, pid)
    ensures var t := Step(s, event);
      Underway(t, pid, e) && t.procs[pid] == s.procs[pid] && Goal(t, e) == Goal(s, e)
  {
    hide Inv, ActStep;
    if event.Act? && event.pid in s.procs {
      if s.procs[pid].pc.Exited? {
        OthersKeepShown(s, pid, event.pid, event.choice);
      } else {
        OthersAreTurnedAway(s, pid, event.pid, event.choice);
      }
    }
  }

  lemma {:induction false} OwnCallAdvances<E>(s: State<E>, pid: nat, e: E)
    requires Inv(s) && Underway(s, pid, e)
    ensures var t := Step(s, Act(pid, Yields(e)));
      && Underway(t, pid, e) && Goal(t, e) == Goal(s, e)
      && (Rank(t.procs[pid].pc) == 0 || Rank(t.procs[pid].pc) + 1 <= Rank(s.procs[pid].pc))
  {
    if !s.procs[pid].pc.Exited? {
      StaysOnCourse(s, pid, e);
      InsideUntilExit(s, pid, Yields(e));
    }
  }

  lemma {:induction false} FaultFreeCalls<E>(s: State<E>, pid: nat, e: E, calls: seq<Event<E>>)
    requires Inv(s) && Underway(s, pid, e) && forall i :: 0 <= i < |calls| ==> Meanwhile(calls[i], pid, e)
    ensures var t := Run(s, calls);
      && Inv(t) && Underway(t, pid, e) && Goal(t, e) == Goal(s, e)
      && (Rank(t.procs[pid].pc) == 0 || Rank(t.procs[pid].pc) + Own(pid, calls) <= Rank(s.procs[pid].pc))
  {
    if calls != [] {
      hide Inv, Underway, Step, Rank, Goal;
      var n := |calls| - 1;
      FaultFreeCalls(s, pid, e, calls[..n]);
      var before := Run(s, calls[..n]);
      StepPreserves(before, calls[n]);
      UnderwayIsThere(before, pid, e);
      UnderwayIsThere(Run(s, calls), pid, e) by {
        if IsOwn(calls[n], pid) {
          OwnCallAdvances(before, pid, e);
        } else {
          OthersKeepCourse(before, pid, e, calls[n]);
        }
      }
      if IsOwn(calls[n], pid) {
        OwnCallAdvances(before, pid, e);
      } else {
        OthersKeepCourse(before, pid, e, calls[n]);
      }
    }
  }

  lemma UnderwayIsThere<E>(s: State<E>, pid: nat, e: E)
    requires Underway(s, pid, e)
    ensures pid in s.procs
  {
  }

  /** From the lock to the end at most 22 calls. */
  const LONGEST := 22

  /**
   * After any history of crashes and failures, an invocation that has got the lock and none of
   * whose calls fails from then on exits 0 with the output file COMPLETED, whatever others try
   * meanwhile: with the result committed earlier if there is one, otherwise with the result its own
   * service run yields.
   */
  lemma {:induction false} FaultFreeRunCompletes<E>(s: State<E>, events: seq<Event<E>>, pid: nat, e: E, calls: seq<Event<E>>)
    requires Initial(s)
    requires var t := Run(s, events); pid in t.procs && t.procs[pid].pc.FindStage?
    requires (forall i :: 0 <= i < |calls| ==> Meanwhile(calls[i], pid, e)) && Own(pid, calls) >= LONGEST
    ensures var t := Run(s, events);
      var u := Run(t, calls);
      && pid in u.procs && u.procs[pid].pc == Exited(0)
      && u.journal == Some(Goal(t, e)) && u.disk.visible.output == Completed(Goal(t, e))
  {
    hide Run, Own, Inv;
    RunPreserves(s, events);
    FaultFreeCalls(Run(s, events), pid, e, calls);
  }

  /** How a command starts: it is invoked, syncs the directory and tries the lock. */
  function Opening<E>(pid: nat, e: E): seq<Event<E>> {
    [Invoke(pid), Act(pid, Yields(e)), Act(pid, Yields(e))]
  }

  lemma RunThen<E>(s: State<E>, events: seq<Event<E>>, event: Event<E>)
    ensures Run(s, events + [event]) == Step(Run(s, events), event)
  {
    assert (events + [event])[..|events + [event]| - 1] == events;
  }

  lemma FreeLockIsTaken<E>(s: State<E>, events: seq<Event<E>>, pid: nat, e: E)
    requires var t := Run(s, events); t.lock.None? && (pid in t.procs ==> t.procs[pid].pc.Exited?)
    ensures var t := Run(s, events + Opening(pid, e));
      pid in t.procs && t.procs[pid].pc.FindStage? && t.journal == Run(s, events).journal
  {
    var own: Event<E> := Act(pid, Yields(e));
    RunThen(s, events, Invoke(pid));
    RunThen(s, events + [Invoke(pid)], own);
    RunThen(s, events + [Invoke(pid)] + [own], own);
    assert events + Opening(pid, e) == events + [Invoke(pid)] + [own] + [own];
  }

  /**
   * After any history: a command that finds the lock free and none of whose calls fails exits 0
   * with the result published, within three calls and 22 more, whatever others try once it has the lock.
   */
  lemma {:induction false} FaultFreeCommandCompletes<E>(s: State<E>, events: seq<Event<E>>, pid: nat, e: E, calls: seq<Event<E>>)
    requires Initial(s)
    requires var t := Run(s, events); t.lock.None? && (pid in t.procs ==> t.procs[pid].pc.Exited?)
    requires (forall i :: 0 <= i < |calls| ==> Meanwhile(calls[i], pid, e)) && Own(pid, calls) >= LONGEST
    ensures var t, u := Run(s, events), Run(Run(s, events + Opening(pid, e)), calls);
      && pid in u.procs && u.procs[pid].pc == Exited(0)
      && u.journal == Some(Goal(t, e)) && u.disk.visible.output == Completed(Goal(t, e))
  {
    hide Run, Own, Opening;
    FreeLockIsTaken(s, events, pid, e);
    FaultFreeRunCompletes(s, events + Opening(pid, e), pid, e, calls);
  }

  // ----- What the output file says meanwhile, and after a failure -----

  /** What an unfinished run has written to the output file by the time it is at `pc`. */
  ghost predicate Says<E>(output: Report<E>, pc: Pc<E>) {
    match pc
    case Writing(Progress, part) => part == Sync ==> output == InProgress
    case Writing(Stage(_), _) => output == InProgress
    case Writing(Failure(_), part) => output == if part == Sync then Failed else InProgress
    case RunService => output == InProgress
    case WriteJournal(_) => output == InProgress
    case Commit(_) => output == InProgress
    case Unlock => output == InProgress
    case VerifyStage(Finish) => output == InProgress
    case Publishing(Finish, part, e) => output == if part == Sync then Completed(e) else InProgress
    case Rollback(_) => output == InProgress
    case _ => true
  }

  ghost predicate AllSay<E>(s: State<E>) {
    forall p | p in s.procs :: Says(s.disk.visible.output, s.procs[p].pc)
  }

  lemma ActSays<E>(s: State<E>, pid: nat, choice: Choice<E>)
    requires Local(s, pid) && Says(s.disk.visible.output, s.procs[pid].pc)
    ensures var t := ActStep(s, pid, choice); Says(t.disk.visible.output, t.procs[pid].pc)
  {
  }

  lemma {:induction false} StepSays<E>(s: State<E>, event: Event<E>)
    requires Inv(s) && AllSay(s)
    ensures AllSay(Step(s, event))
  {
    if event.Act? && event.pid in s.procs && !s.procs[event.pid].pc.Exited? {
      ActSays(s, event.pid, event.choice);
      hide EvidenceInv, PcInv, Next, DiskAfter;
      forall p | p in s.procs && p != event.pid && Critical(s.procs[p].pc)
        ensures Step(s, event).disk.visible == s.disk.visible
      {
        OthersAreTurnedAway(s, p, event.pid, event.choice);
      }
    }
  }

  lemma {:induction false} RunSays<E>(s: State<E>, events: seq<Event<E>>)
    requires Initial(s)
    ensures AllSay(Run(s, events))
  {
    if events != [] {
      RunSays(s, events[..|events| - 1]);
      RunPreserves(s, events[..|events| - 1]);
      StepSays(Run(s, events[..|events| - 1]), events[|events| - 1]);
    }
  }

  /**
   * In every run: from its progress report on, the output file of an invocation says IN_PROGRESS
   * until it says FAILED, once a failure is being reported, or COMPLETED, once the result is published.
   */
  lemma OutputSaysHowFar<E>(s: State<E>, events: seq<Event<E>>, pid: nat)
    requires Initial(s) && pid in Run(s, events).procs
    ensures var t := Run(s, events); Says(t.disk.visible.output, t.procs[pid].pc)
  {
    RunSays(s, events);
  }

  /** Nothing is renamed, run or committed while an earlier rename may still get lost. */
  predicate Settles<E>(pc: Pc<E>) {
    match pc
    case Writing(_, part) => part == Rename
    case Publishing(_, part, _) => part == Rename
    case RunService => true
    case WriteJournal(_) => true
    case Commit(_) => true
    case _ => false
  }

  ghost predicate AllSettled<E>(s: State<E>) {
    forall p | p in s.procs && Settles(s.procs[p].pc) :: s.disk == s.disk.Sync()
  }

  lemma ActSettles<E>(s: State<E>, pid: nat, choice: Choice<E>)
    requires pid in s.procs && (Settles(s.procs[pid].pc) ==> s.disk == s.disk.Sync())
    ensures var t := ActStep(s, pid, choice); Settles(t.procs[pid].pc) ==> t.disk == t.disk.Sync()
  {
  }

  lemma OthersOnlySync<E>(s: State<E>, p: nat, pid: nat, choice: Choice<E>)
    requires Inv(s) && p in s.procs && pid in s.procs && p != pid && Critical(s.procs[p].pc)
    ensures var t := ActStep(s, pid, choice); t.disk == s.disk || t.disk == s.disk.Sync()
  {
    hide EvidenceInv, PcInv;
    assert !Critical(s.procs[pid].pc);
  }

  lemma {:induction false} StepSettles<E>(s: State<E>, event: Event<E>)
    requires Inv(s) && AllSettled(s)
    ensures AllSettled(Step(s, event))
  {
    if event.Act? && event.pid in s.procs {
      ActSettles(s, event.pid, event.choice);
      hide Inv, Next, DiskAfter;
      forall p | p in s.procs && p != event.pid && Settles(s.procs[p].pc)
        ensures Step(s, event).disk == Step(s, event).disk.Sync()
      {
        OthersOnlySync(s, p, event.pid, event.choice);
      }
    }
  }

  /** In every run, whoever is about to rename, to run the service or to commit has nothing pending on the disk. */
  lemma {:induction false} NothingIsPending<E>(s: State<E>, events: seq<Event<E>>, pid: nat)
    requires Initial(s)
    ensures AllSettled(Run(s, events))
    ensures var t := Run(s, events); pid in t.procs && Settles(t.procs[pid].pc) ==> t.disk.pending == []
  {
    if events != [] {
      NothingIsPending(s, events[..|events| - 1], pid);
      RunPreserves(s, events[..|events| - 1]);
      StepSettles(Run(s, events[..|events| - 1]), events[|events| - 1]);
    }
  }

  /** What a command finds when its first call returns, and that a stale stage is gone when it goes on, no power loss undoes. */
  lemma SyncedForGood<E>(s: State<E>, events: seq<Event<E>>, pid: nat, choice: Choice<E>, kept: set<nat>)
    requires Initial(s) && Returns(choice)
    requires var t := Run(s, events); pid in t.procs && (t.procs[pid].pc.Entering? || t.procs[pid].pc.StaleSync?)
    ensures var t, u := Run(s, events), Step(Run(s, events), Act(pid, choice));
      && u.disk.visible == t.disk.visible == u.disk.PowerLoss(kept).visible
      && (t.procs[pid].pc.StaleSync? ==> u.disk.PowerLoss(kept).visible.staged.Absent?)
  {
    RunPreserves(s, events);
  }

  /** What others try meanwhile, and calls of this invocation that return. */
  predicate Undisturbed<E(==)>(event: Event<E>, pid: nat) {
    match event
    case Act(q, choice) => q == pid ==> Returns(choice)
    case Invoke(q) => q != pid
    case Kill(q) => q != pid
    case PowerLoss(_) => false
  }

  /** The program points between a failed transaction and the end. */
  function FailureCourse<E>(n: nat, code: int): Pc<E> {
    match n
    case 0 => Rollback(code)
    case 1 => Writing(Failure(code), Ensure)
    case 2 => Writing(Failure(code), Rename)
    case 3 => Writing(Failure(code), Sync)
    case _ => Exited(code)
  }

  ghost predicate Failing<E>(start: State<E>, t: State<E>, pid: nat, code: int, n: nat) {
    && pid in t.procs && t.procs[pid].pc == FailureCourse(n, code)
    && t.disk.visible == (if n < 3 then start.disk.visible else start.disk.visible.(output := Failed))
    && t.journal == start.journal && t.commits == start.commits
  }

  lemma OwnCallOfFailure<E>(start: State<E>, t: State<E>, pid: nat, code: int, n: nat, choice: Choice<E>)
    requires Failing(start, t, pid, code, n) && n < 4 && Returns(choice)
    ensures var u := ActStep(t, pid, choice); Failing(start, u, pid, code, n + 1) && (n == 3 ==> u.disk == u.disk.Sync())
  {
  }

  lemma {:induction false} OthersKeepFailing<E>(start: State<E>, t: State<E>, pid: nat, code: int, n: nat, event: Event<E>)
    requires Inv(t) && Failing(start, t, pid, code, n) && n < 4 && Undisturbed(event, pid) && !IsOwn(event, pid)
    ensures Failing(start, Step(t, event), pid, code, n)
  {
    hide Inv, ActStep;
    if event.Act? && event.pid in t.procs {
      OthersAreTurnedAway(t, pid, event.pid, event.choice);
    }
  }

  lemma {:induction false} FailureAdvances<E>(start: State<E>, pid: nat, code: int, calls: seq<Event<E>>)
    requires Inv(start) && Failing(start, start, pid, code, 0)
    requires (forall i :: 0 <= i < |calls| ==> Undisturbed(calls[i], pid)) && Own(pid, calls) < 4
    ensures Inv(Run(start, calls)) && Failing(start, Run(start, calls), pid, code, Own(pid, calls))
  {
    if calls != [] {
      hide Inv, Failing, Step;
      var n := |calls| - 1;
      var t := Run(start, calls[..n]);
      FailureAdvances(start, pid, code, calls[..n]);
      StepPreserves(t, calls[n]);
      if IsOwn(calls[n], pid) {
        IsThere(start, t, pid, code, Own(pid, calls[..n]));
        ActIsStep(t, pid, calls[n].choice);
        OwnCallOfFailure(start, t, pid, code, Own(pid, calls[..n]), calls[n].choice);
      } else {
        OthersKeepFailing(start, t, pid, code, Own(pid, calls[..n]), calls[n]);
      }
    }
  }

  lemma IsThere<E>(start: State<E>, t: State<E>, pid: nat, code: int, n: nat)
    requires Failing(start, t, pid, code, n)
    ensures pid in t.procs
  {
  }

  /** Where the transaction can fail, and the exit status of the failure: 2 for the service's own error, which names blockers. */
  predicate MayFail<E>(pc: Pc<E>) {
    pc.RunService? || pc.WriteJournal? || (pc.Writing? && pc.job.Stage?)
  }

  lemma FailureRollsBack<E>(t: State<E>, pid: nat, failing: Choice<E>)
    requires Inv(t) && pid in t.procs && MayFail(t.procs[pid].pc) && !Returns(failing)
    ensures var u := ActStep(t, pid, failing);
      && u.procs[pid].pc == Rollback(if failing.Blocked? && !t.procs[pid].pc.Writing? then 2 else 1)
      && u.journal.None? && u.commits == []
      && (t.procs[pid].pc.RunService? ==> u.disk == t.disk)
  {
  }

  /**
   * After any history: a transaction that fails before its commit, and four calls after it that
   * return, whatever others try meanwhile. The output file then durably says FAILED, nothing else
   * on the disk and nothing in the database has changed, and the invocation exits 2 if the service
   * named blockers and 1 if anything else was raised.
   */
  lemma {:induction false} FailureIsReported<E>(
      s: State<E>, events: seq<Event<E>>, pid: nat, failing: Choice<E>, calls: seq<Event<E>>)
    requires Initial(s) && !Returns(failing)
    requires var t := Run(s, events); pid in t.procs && MayFail(t.procs[pid].pc)
    requires forall i :: 0 <= i < |calls| ==> Undisturbed(calls[i], pid)
    requires calls != [] && IsOwn(calls[|calls| - 1], pid) && Own(pid, calls) == 4
    ensures var t := Run(s, events);
      var failed := Step(t, Act(pid, failing));
      var u := Run(failed, calls);
      && pid in u.procs
      && u.procs[pid].pc == Exited(if failing.Blocked? && !t.procs[pid].pc.Writing? then 2 else 1)
      && u.disk.visible == u.disk.durable == failed.disk.visible.(output := Failed)
      && (t.procs[pid].pc.RunService? ==> failed.disk == t.disk)
      && u.journal.None? && u.commits == []
  {
    hide Inv, Step, Own, MayFail;
    RunPreserves(s, events);
    var t := Run(s, events);
    var code := if failing.Blocked? && !t.procs[pid].pc.Writing? then 2 else 1;
    var failed := Step(t, Act(pid, failing));
    StepPreserves(t, Act(pid, failing));
    FailureRollsBack(t, pid, failing);
    assert failed == ActStep(t, pid, failing) by { ActIsStep(t, pid, failing); }
    var n := |calls| - 1;
    OwnOfLast(pid, calls);
    FailureAdvances(failed, pid, code, calls[..n]);
    var before := Run(failed, calls[..n]);
    ActIsStep(before, pid, calls[n].choice);
    OwnCallOfFailure(failed, before, pid, code, 3, calls[n].choice);
  }

  lemma ActIsStep<E>(t: State<E>, pid: nat, choice: Choice<E>)
    requires pid in t.procs
    ensures Step(t, Act(pid, choice)) == ActStep(t, pid, choice)
  {
  }

  lemma OwnOfLast<E>(pid: nat, calls: seq<Event<E>>)
    requires calls != [] && IsOwn(calls[|calls| - 1], pid)
    ensures Own(pid, calls) == Own(pid, calls[..|calls| - 1]) + 1
  {
  }

  /** Status 2 is only ever reached by a failed transaction: nothing is committed, and the output file says so or is in progress. */
  lemma ExitTwoMeansFailed<E>(s: State<E>, events: seq<Event<E>>, pid: nat, choice: Choice<E>)
    requires Initial(s)
    requires var t := Run(s, events); pid in t.procs && !t.procs[pid].pc.Exited?
    ensures var u := Step(Run(s, events), Act(pid, choice));
      && (u.procs[pid].pc.Exited? ==> u.procs[pid].pc.code in {0, 1, 2})
      && (u.procs[pid].pc == Exited(2) ==>
           u.journal.None? && u.commits == [] && (u.disk.visible.output == Failed || u.disk.visible.output == InProgress))
  {
    RunPreserves(s, events);
    RunSays(s, events);
    LastCallOfFailure(Run(s, events), pid, choice);
  }

  lemma LastCallOfFailure<E>(t: State<E>, pid: nat, choice: Choice<E>)
    requires Inv(t) && pid in t.procs && !t.procs[pid].pc.Exited? && Says(t.disk.visible.output, t.procs[pid].pc)
    ensures var u := ActStep(t, pid, choice);
      && (u.procs[pid].pc.Exited? ==> u.procs[pid].pc.code in {0, 1, 2})
      && (u.procs[pid].pc == Exited(2) ==>
           u.journal.None? && u.commits == [] && (u.disk.visible.output == Failed || u.disk.visible.output == InProgress))
  {
  }

  // ----- The machine the operator sees -----

  function Observe<E(==)>(s: State<E>): Completion.Completion<E> {
    if s.journal.None? then Completion.NotDone
    else Completion.Done(s.journal.value, s.disk.visible.output == Completed(s.journal.value))
  }

  lemma RefinesCompletion<E>(s: State<E>, events: seq<Event<E>>, event: Event<E>)
    requires Initial(s)
    ensures var t := Run(s, events);
      Completion.Next(Observe(t), Observe(Step(t, event)), event.PowerLoss?)
    ensures Observe(Run(s, events)).NotDone? ==> !Run(s, events).disk.visible.output.Completed?
  {
    RunPreserves(s, events);
    var t := Run(s, events);
    StepPreserves(t, event);
    if event.Act? && event.pid in t.procs && !t.procs[event.pid].pc.Exited? {
      ActPreserves(t, event.pid, event.choice);
    }
  }
}
