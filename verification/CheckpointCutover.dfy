/**
 * The checkpoint cutover. It stages, commits and publishes like the other commands but recovers
 * by rolling forward: it runs the idempotent transaction again and compares the evidence.
 *
 * The service is known by what it promises. Without a journal row a run deletes, writes the row
 * and reports what it did; with one it deletes nothing and reports the committed hashes.
 */
module CheckpointCutover {
  import opened Wrappers
  import opened EvidenceFiles
  import Completion

  /** `hashes` stands for the two SHA-256 fields of a result, `deleted` for its three counts. */
  datatype Evidence = Evidence(hashes: string, deleted: nat)

  /** A COMPLETED report: the business cutoff it was made for, and the result. */
  datatype Receipt = Receipt(asOf: int, evidence: Evidence)

  /** Which report is being verified. */
  datatype Site = OnStage | OnOutput

  datatype Job = Progress | Stage(receipt: Receipt, redo: Option<Evidence>) | Failure(code: int)

  datatype Part = Rename | Sync

  /** `redo` is what an open transaction will commit; None if it changed nothing. */
  datatype Pc =
    | Entering
    | Locking
    | FindStage
    | ReadStage
    | Verify(site: Site, receipt: Receipt)
    | VerifyCommit(site: Site, receipt: Receipt, redo: Option<Evidence>)
    | Publishing(part: Part, receipt: Receipt)
    | FindOutput
    | ReadOutput
    | Writing(job: Job, part: Part)
    | RunService
    | Commit(receipt: Receipt, redo: Option<Evidence>)
    | Exited(code: int)

  datatype Process = Process(pc: Pc, asOf: int, committed: bool)

  /** `commits` lists the receipts of the transactions that deleted rows. */
  datatype State = State(
    disk: Disk<Receipt>,
    journal: Option<Evidence>,
    lock: Option<nat>,
    procs: map<nat, Process>,
    commits: seq<Receipt>)

  /** `Yields(e)` is the only success of a run that finds no journal row. */
  datatype Choice = Works | Yields(evidence: Evidence) | Raises | Blocked | RaisesLate

  datatype Event =
    | Invoke(pid: nat, asOf: int)
    | Act(pid: nat, choice: Choice)
    | Kill(pid: nat)
    | PowerLoss(kept: set<nat>)

  predicate Returns(choice: Choice) {
    choice.Works? || choice.Yields?
  }

  predicate Critical(pc: Pc) {
    !pc.Entering? && !pc.Locking? && !pc.Exited?
  }

  // ----- One call of one invocation -----

  /** The comparison of `_verify_completed_report` inside its own transaction. */
  function AfterVerify(site: Site, receipt: Receipt, choice: Choice, journal: Option<Evidence>): Pc {
    match journal
    case Some(j) =>
      if Returns(choice) && j.hashes == receipt.evidence.hashes then VerifyCommit(site, receipt, None) else Exited(1)
    case None =>
      if choice == Yields(receipt.evidence) then VerifyCommit(site, receipt, Some(receipt.evidence)) else Exited(1)
  }

  function AfterReadOutput(report: Report<Receipt>, choice: Choice, asOf: int): Pc {
    if !Returns(choice) then Exited(1)
    else
      match report
      case Completed(receipt) => if receipt.asOf == asOf then Verify(OnOutput, receipt) else Exited(1)
      case InProgress => Writing(Progress, Rename)
      case Failed => Writing(Progress, Rename)
      case _ => Exited(1)
  }

  function AfterRun(choice: Choice, journal: Option<Evidence>, asOf: int): Pc {
    if journal.Some? && Returns(choice) then
      Writing(Stage(Receipt(asOf, journal.value.(deleted := 0)), None), Rename)
    else if choice.Yields? then
      Writing(Stage(Receipt(asOf, choice.evidence), Some(choice.evidence)), Rename)
    else
      Writing(Failure(if choice.Blocked? then 2 else 1), Rename)
  }

  function AfterWrite(job: Job, ok: bool): Pc {
    match job
    case Progress => if ok then RunService else Exited(1)
    case Stage(receipt, redo) => if ok then Commit(receipt, redo) else Writing(Failure(1), Rename)
    case Failure(code) => Exited(code)
  }

  function Next(pc: Pc, choice: Choice, visible: Directory<Receipt>, journal: Option<Evidence>,
                locked: bool, asOf: int): Pc {
    var ok := Returns(choice);
    match pc
    case Entering => if ok then Locking else Exited(1)
    case Locking => if ok && !locked then FindStage else Exited(1)
    case FindStage => if visible.staged.Absent? then FindOutput else ReadStage
    case ReadStage =>
      if ok && visible.staged.Completed? && visible.staged.evidence.asOf == asOf
      then Verify(OnStage, visible.staged.evidence) else Exited(1)
    case Verify(site, receipt) => AfterVerify(site, receipt, choice, journal)
    case VerifyCommit(site, receipt, _) =>
      if !ok then Exited(1) else if site == OnStage then Publishing(Rename, receipt) else Exited(0)
    case Publishing(part, receipt) =>
      if !ok then Exited(1) else if part == Rename then Publishing(Sync, receipt) else Exited(0)
    case FindOutput => if visible.output.Absent? then Writing(Progress, Rename) else ReadOutput
    case ReadOutput => AfterReadOutput(visible.output, choice, asOf)
    case Writing(job, part) =>
      if ok && part == Rename then Writing(job, Sync) else AfterWrite(job, ok)
    case RunService => AfterRun(choice, journal, asOf)
    case Commit(_, _) => if ok then ReadStage else Exited(1)
    case Exited(_) => pc
  }

  function WriteOp(job: Job): DirOp<Receipt> {
    match job
    case Progress => PutOutput(InProgress)
    case Stage(receipt, _) => PutStage(Completed(receipt))
    case Failure(_) => PutOutput(Failed)
  }

  function PartEffect(disk: Disk<Receipt>, part: Part, op: DirOp<Receipt>): Disk<Receipt> {
    if part == Rename then disk.Issue(op) else disk.Sync()
  }

  function DiskAfter(disk: Disk<Receipt>, pc: Pc): Disk<Receipt> {
    match pc
    case Publishing(part, _) => PartEffect(disk, part, Publish(disk.visible.staged))
    case Writing(job, part) => PartEffect(disk, part, WriteOp(job))
    case _ => disk
  }

  /** Deletions and journal row take effect together, and only where there was no row. */
  function Redone(pc: Pc, choice: Choice): Option<Evidence> {
    if Returns(choice) || choice.RaisesLate? then
      match pc
      case VerifyCommit(_, _, redo) => redo
      case Commit(_, redo) => redo
      case _ => None
    else None
  }

  function LockAfter(lock: Option<nat>, pid: nat, pc: Pc, next: Pc): Option<nat> {
    if pc.Locking? && Critical(next) then Some(pid)
    else if next.Exited? && lock == Some(pid) then None
    else lock
  }

  function ActStep(s: State, pid: nat, choice: Choice): State
    requires pid in s.procs
  {
    var p := s.procs[pid];
    var next := Next(p.pc, choice, s.disk.visible, s.journal, s.lock.Some?, p.asOf);
    var redone := Redone(p.pc, choice);
    State(
      if Returns(choice) || choice.RaisesLate? then DiskAfter(s.disk, p.pc) else s.disk,
      if redone.Some? then redone else s.journal,
      LockAfter(s.lock, pid, p.pc, next),
      s.procs[pid := Process(next, p.asOf, p.committed || redone.Some?)],
      if redone.Some? then s.commits + [p.pc.receipt] else s.commits)
  }

  // ----- Whole runs -----

  function Step(s: State, event: Event): State {
    match event
    case Invoke(pid, asOf) =>
      if pid in s.procs && !s.procs[pid].pc.Exited? then s
      else s.(procs := s.procs[pid := Process(Entering, asOf, false)])
    case Act(pid, choice) =>
      if pid in s.procs then ActStep(s, pid, choice) else s
    case Kill(pid) =>
      s.(procs := s.procs - {pid}, lock := if s.lock == Some(pid) then None else s.lock)
    case PowerLoss(kept) =>
      s.(disk := s.disk.PowerLoss(kept), procs := map[], lock := None)
  }

  function Run(s: State, events: seq<Event>): State {
    if events == [] then s else Step(Run(s, events[..|events| - 1]), events[|events| - 1])
  }

  ghost predicate Initial(s: State) {
    && s.journal.None? && s.commits == [] && s.lock.None? && s.procs == map[]
    && Unclaimed(s.disk) && s.disk == s.disk.Sync()
  }

  // ----- What holds without any assumption: hashes -----

  predicate Agrees(report: Report<Receipt>, journal: Evidence) {
    report.Completed? ==> report.evidence.evidence.hashes == journal.hashes
  }

  /** Every completion claimed now, or by an operation still pending, has the committed hashes. */
  ghost predicate ClaimsAgree(disk: Disk<Receipt>, journal: Evidence) {
    && Agrees(disk.durable.output, journal) && Agrees(disk.visible.output, journal)
    && forall i | 0 <= i < |disk.pending| ::
         var op := disk.pending[i]; op.Publish? || op.PutOutput? ==> Agrees(op.report, journal)
  }

  /** Before a commit at most one stage write is pending, and only onto an absent stage. */
  ghost predicate StageIsSettled(disk: Disk<Receipt>) {
    if disk.durable.staged.Absent? then
      forall i, j | 0 <= i < j < |disk.pending| :: disk.pending[i].PutStage? ==> !disk.pending[j].PutStage?
    else
      disk.visible.staged == disk.durable.staged
      && forall i | 0 <= i < |disk.pending| :: !disk.pending[i].PutStage?
  }

  ghost predicate NothingStaged(disk: Disk<Receipt>) {
    disk.durable.staged.Absent? && forall i | 0 <= i < |disk.pending| :: !disk.pending[i].PutStage?
  }

  ghost predicate DiskInv(s: State) {
    match s.journal
    case None =>
      && Unclaimed(s.disk) && StageIsSettled(s.disk) && s.commits == []
      && (s.disk.visible.staged.Absent? ==> NothingStaged(s.disk))
      && (forall i | 0 <= i < |s.disk.pending| :: !s.disk.pending[i].DropStage?)
    case Some(j) => ClaimsAgree(s.disk, j) && |s.commits| == 1 && s.commits[0].evidence == j
  }

  predicate Holds(d: Directory<Receipt>, site: Site, receipt: Receipt) {
    (if site == OnStage then d.staged else d.output) == Completed(receipt)
  }

  ghost predicate PcInv(s: State, p: Process) {
    match p.pc
    case Verify(site, receipt) => Holds(s.disk.visible, site, receipt)
    case VerifyCommit(site, receipt, redo) =>
      && Holds(s.disk.visible, site, receipt)
      && (redo.Some? ==> s.journal.None? && redo == Some(receipt.evidence))
      && (redo.None? ==> s.journal.Some? && s.journal.value.hashes == receipt.evidence.hashes)
    case Publishing(part, receipt) =>
      && s.journal.Some? && s.journal.value.hashes == receipt.evidence.hashes
      && (part == Rename ==> s.disk.visible.staged == Completed(receipt))
      && (part == Sync ==> s.disk.visible == Directory(Absent, Completed(receipt)))
    case FindOutput => s.disk.visible.staged.Absent?
    case ReadOutput => s.disk.visible.staged.Absent?
    case Writing(job, part) =>
      && !s.disk.visible.output.Completed?
      && (job.Progress? ==> s.disk.visible.staged.Absent?)
      && (job.Failure? ==> job.code == 1 || job.code == 2)
      && (job.Stage? ==>
            && (job.redo.Some? ==> s.journal.None? && job.redo == Some(job.receipt.evidence))
            && (part == Rename ==> s.disk.visible.staged.Absent?)
            && (part == Sync ==> s.disk.visible.staged == Completed(job.receipt)))
    case RunService => !s.disk.visible.output.Completed? && s.disk.visible.staged.Absent?
    case Commit(receipt, redo) =>
      redo.Some? ==> s.journal.None? && redo == Some(receipt.evidence) && StageIsDurable(s.disk, receipt)
    case Exited(code) =>
      code == 0 ==> s.journal.Some? && s.disk.visible.output.Completed? && Agrees(s.disk.visible.output, s.journal.value)
    case _ => true
  }

  ghost predicate AfterCommit(pc: Pc) {
    || pc.ReadStage? || (pc.Verify? && pc.site == OnStage) || (pc.VerifyCommit? && pc.site == OnStage) || pc.Publishing?
    || pc == Exited(0) || pc == Exited(1)
  }

  ghost predicate Inv(s: State) {
    && DiskInv(s)
    && (s.lock.Some? ==> s.lock.value in s.procs && Critical(s.procs[s.lock.value].pc))
    && (forall p | p in s.procs && Critical(s.procs[p].pc) :: s.lock == Some(p) && PcInv(s, s.procs[p]))
    && (forall p | p in s.procs && s.procs[p].committed :: AfterCommit(s.procs[p].pc))
  }

  lemma MoveKeeps(s: State, t: State, pid: nat)
    requires Inv(s) && s.lock == Some(pid) && pid in t.procs
    requires t.procs == s.procs[pid := t.procs[pid]]
    requires DiskInv(t)
    requires var p := t.procs[pid];
      && (if Critical(p.pc) then t.lock == s.lock && PcInv(t, p) else t.lock.None?)
      && (p.committed ==> AfterCommit(p.pc))
    ensures Inv(t)
  {
  }

  ghost predicate Local(s: State, pid: nat) {
    pid in s.procs && !s.procs[pid].pc.Exited? && DiskInv(s) && PcInv(s, s.procs[pid])
  }

  lemma ActKeepsDisk(s: State, pid: nat, choice: Choice)
    requires Local(s, pid)
    ensures DiskInv(ActStep(s, pid, choice))
  {
  }

  lemma WritingKeepsPc(s: State, pid: nat, choice: Choice)
    requires Local(s, pid) && Overwrites(s.procs[pid].pc)
    ensures var t := ActStep(s, pid, choice); PcInv(t, t.procs[pid])
  {
    hide AfterVerify, AfterReadOutput;
  }

  lemma ReadingKeepsPc(s: State, pid: nat, choice: Choice)
    requires Local(s, pid) && !Overwrites(s.procs[pid].pc)
    ensures var t := ActStep(s, pid, choice); PcInv(t, t.procs[pid])
  {
    hide AfterRun, AfterWrite, WriteOp;
  }

  lemma ActKeepsPc(s: State, pid: nat, choice: Choice)
    requires Local(s, pid)
    ensures var t := ActStep(s, pid, choice); PcInv(t, t.procs[pid])
  {
    hide ActStep, PcInv, DiskInv;
    if Overwrites(s.procs[pid].pc) {
      WritingKeepsPc(s, pid, choice);
    } else {
      ReadingKeepsPc(s, pid, choice);
    }
  }

  lemma {:induction false} ActPreserves(s: State, pid: nat, choice: Choice)
    requires Inv(s) && pid in s.procs && !s.procs[pid].pc.Exited?
    ensures var t := ActStep(s, pid, choice);
      Inv(t) && (t.procs[pid].pc == Exited(0) ==> PcInv(t, t.procs[pid]))
  {
    if Critical(s.procs[pid].pc) {
      hide DiskAfter, DiskInv;
      ActKeepsDisk(s, pid, choice);
      ActKeepsPc(s, pid, choice);
      MoveKeeps(s, ActStep(s, pid, choice), pid);
    } else {
      EnterPreserves(s, pid, choice);
    }
  }

  lemma EnterPreserves(s: State, pid: nat, choice: Choice)
    requires Inv(s) && pid in s.procs && (s.procs[pid].pc.Entering? || s.procs[pid].pc.Locking?)
    ensures Inv(ActStep(s, pid, choice)) && ActStep(s, pid, choice).procs[pid].pc != Exited(0)
  {
  }

  lemma {:induction false} ClaimsSurvive(d: Directory<Receipt>, ops: seq<DirOp<Receipt>>, kept: set<nat>, j: Evidence)
    requires Agrees(d.output, j)
    requires forall i | 0 <= i < |ops| :: ops[i].Publish? || ops[i].PutOutput? ==> Agrees(ops[i].report, j)
    ensures Agrees(PerformKept(d, ops, kept).output, j)
  {
    if ops != [] {
      ClaimsSurvive(d, ops[..|ops| - 1], kept, j);
    }
  }

  lemma StepPreserves(s: State, event: Event)
    requires Inv(s)
    ensures Inv(Step(s, event))
  {
    match event
    case Act(pid, choice) => if pid in s.procs && !s.procs[pid].pc.Exited? { ActPreserves(s, pid, choice); }
    case PowerLoss(kept) =>
      if s.journal.Some? {
        ClaimsSurvive(s.disk.durable, s.disk.pending, kept, s.journal.value);
      } else {
        UnclaimedSurvives(s.disk.durable, s.disk.pending, kept);
      }
    case _ =>
  }

  lemma {:induction false} RunPreserves(s: State, events: seq<Event>)
    requires Inv(s)
    ensures Inv(Run(s, events))
  {
    if events != [] {
      RunPreserves(s, events[..|events| - 1]);
      StepPreserves(Run(s, events[..|events| - 1]), events[|events| - 1]);
    }
  }

  /** A COMPLETED output file has the hashes the database committed, now and after a power loss. */
  lemma OutputHashesAreCommitted(s: State, events: seq<Event>, kept: set<nat>)
    requires Initial(s)
    ensures var t := Run(s, events);
      && (t.disk.visible.output.Completed? ==> t.journal.Some? && Agrees(t.disk.visible.output, t.journal.value))
      && (t.disk.PowerLoss(kept).visible.output.Completed? ==>
            t.journal.Some? && Agrees(t.disk.PowerLoss(kept).visible.output, t.journal.value))
  {
    RunPreserves(s, events);
    StepPreserves(Run(s, events), PowerLoss(kept));
  }

  /** Rows are deleted at most once, and exit status 2 means that this run deleted none. */
  lemma DeletesAtMostOnce(s: State, events: seq<Event>)
    requires Initial(s)
    ensures var t := Run(s, events);
      && |t.commits| <= 1 && (t.journal.Some? <==> |t.commits| == 1)
      && (t.journal.Some? ==> t.commits[0].evidence == t.journal.value)
      && (forall p | p in t.procs && t.procs[p].pc == Exited(2) :: !t.procs[p].committed)
  {
    RunPreserves(s, events);
  }

  // ----- Write-ahead evidence, and where it fails -----

  /** This call commits a transaction that the recovery path ran again for a staged report. */
  predicate RollsForward(s: State, event: Event) {
    && event.Act? && event.pid in s.procs && s.procs[event.pid].pc.VerifyCommit?
    && Redone(s.procs[event.pid].pc, event.choice).Some?
  }

  /** The roll-forward found its staged report durable. */
  predicate StageSurvives(s: State, event: Event)
    requires RollsForward(s, event)
  {
    s.disk.durable.staged == s.disk.visible.staged
  }

  /** The one transaction that deleted rows is still attested in full, cutoff and counts included. */
  ghost predicate Attested(s: State) {
    s.journal.Some? ==> |s.commits| == 1 && s.commits[0].evidence == s.journal.value
                        && BackedBehindWrites(s.disk, s.commits[0])
                        && forall p | p in s.procs :: !Overwrites(s.procs[p].pc)
  }

  /** On the way to a new report. */
  predicate Overwrites(pc: Pc) {
    pc.Writing? || pc.RunService? || pc.Commit?
  }

  /**
   * A roll-forward keeps the committed result on disk through every power loss if and only if
   * the staged report it was started from was already durable.
   */
  lemma RollForwardIsAttestedIffStageSurvives(s: State, events: seq<Event>, event: Event)
    requires Initial(s)
    requires RollsForward(Run(s, events), event)
    ensures var t := Run(s, events);
      var u := Step(t, event);
      u.journal.Some? && |u.commits| == 1
      && ((forall kept :: Carries(u.disk.PowerLoss(kept).visible, u.commits[0])) <==> StageSurvives(t, event))
  {
    RunPreserves(s, events);
    var t := Run(s, events);
    var u := Step(t, event);
    assert PcInv(t, t.procs[event.pid]);
    if StageSurvives(t, event) {
      forall kept ensures Carries(u.disk.PowerLoss(kept).visible, u.commits[0]) {
        BackedBehindWritesSurvives(u.disk, |u.disk.pending|, kept, u.commits[0]);
        assert u.disk.pending[..|u.disk.pending|] == u.disk.pending;
      }
    } else {
      LosingEverything(u.disk.durable, u.disk.pending);
      assert !Carries(u.disk.PowerLoss({}).visible, u.commits[0]);
    }
  }

  lemma {:induction false} LosingEverything<E>(d: Directory<E>, ops: seq<DirOp<E>>)
    ensures PerformKept(d, ops, {}) == d
  {
    if ops != [] {
      LosingEverything(d, ops[..|ops| - 1]);
    }
  }

  /** Every roll-forward of the run found its stage durable. */
  ghost predicate StagesSurvived(s: State, events: seq<Event>) {
    forall i | 0 <= i < |events| && RollsForward(Run(s, events[..i]), events[i]) ::
      StageSurvives(Run(s, events[..i]), events[i])
  }

  /** Publishing keeps the evidence on disk. */
  lemma PublishingKeepsBacked(disk: Disk<Receipt>, part: Part, e: Receipt)
    requires BackedBehindWrites(disk, e) && (part == Rename ==> disk.visible.staged.Completed?)
    ensures BackedBehindWrites(PartEffect(disk, part, Publish(disk.visible.staged)), e)
  {
  }

  /** Once committed, the evidence stays, and nobody starts a new report. */
  lemma CommittedStaysAttested(s: State, pid: nat, choice: Choice)
    requires Inv(s) && Attested(s) && pid in s.procs && !s.procs[pid].pc.Exited? && s.journal.Some?
    ensures var t := ActStep(s, pid, choice);
      t.journal == s.journal && t.commits == s.commits && BackedBehindWrites(t.disk, s.commits[0])
  {
    hide Next, BackedBehindWrites, PartEffect;
    var pc := s.procs[pid].pc;
    if pc.Publishing? {
      PublishingKeepsBacked(s.disk, pc.part, s.commits[0]);
    }
  }

  lemma CommittedStartsNothing(s: State, pid: nat, choice: Choice)
    requires Inv(s) && Attested(s) && pid in s.procs && !s.procs[pid].pc.Exited? && s.journal.Some?
    ensures !Overwrites(ActStep(s, pid, choice).procs[pid].pc)
  {
    hide DiskAfter, Redone;
  }

  /** The commit itself finds its stage durable and everybody else outside. */
  lemma CommitIsAttested(s: State, pid: nat, choice: Choice)
    requires Inv(s) && pid in s.procs && !s.procs[pid].pc.Exited? && s.journal.None?
    requires RollsForward(s, Act(pid, choice)) ==> StageSurvives(s, Act(pid, choice))
    ensures Attested(ActStep(s, pid, choice))
  {
    var t := ActStep(s, pid, choice);
    assert forall p | p in t.procs && p != pid :: t.procs[p] == s.procs[p] && !(Critical(s.procs[p].pc) && Critical(s.procs[pid].pc));
  }

  lemma ActKeepsAttested(s: State, pid: nat, choice: Choice)
    requires Inv(s) && Attested(s) && pid in s.procs && !s.procs[pid].pc.Exited?
    requires RollsForward(s, Act(pid, choice)) ==> StageSurvives(s, Act(pid, choice))
    ensures Attested(ActStep(s, pid, choice))
  {
    if s.journal.Some? {
      hide Next, DiskAfter, Redone, BackedBehindWrites, Inv, Overwrites;
      CommittedStaysAttested(s, pid, choice);
      CommittedStartsNothing(s, pid, choice);
    } else {
      hide Inv, ActStep, Attested;
      CommitIsAttested(s, pid, choice);
    }
  }

  lemma StepKeepsAttested(s: State, event: Event)
    requires Inv(s) && Attested(s) && (RollsForward(s, event) ==> StageSurvives(s, event))
    ensures Attested(Step(s, event))
  {
    match event
    case Act(pid, choice) => if pid in s.procs && !s.procs[pid].pc.Exited? { ActKeepsAttested(s, pid, choice); }
    case PowerLoss(kept) =>
      if s.journal.Some? {
        BackedBehindWritesSurvives(s.disk, |s.disk.pending|, kept, s.commits[0]);
        assert s.disk.pending[..|s.disk.pending|] == s.disk.pending;
      }
    case _ =>
  }

  lemma {:induction false} RunKeepsAttested(s: State, events: seq<Event>)
    requires Initial(s) && StagesSurvived(s, events)
    ensures Inv(Run(s, events)) && Attested(Run(s, events))
  {
    RunPreserves(s, events);
    if events != [] {
      var n := |events| - 1;
      forall i | 0 <= i < n && RollsForward(Run(s, events[..n][..i]), events[..n][i])
        ensures StageSurvives(Run(s, events[..n][..i]), events[..n][i])
      {
        assert events[..n][..i] == events[..i];
      }
      RunKeepsAttested(s, events[..n]);
      StepKeepsAttested(Run(s, events[..n]), events[n]);
    }
  }

  /**
   * In a run whose roll-forwards all found their stage durable, the committed receipt survives
   * every power loss, and a COMPLETED output file is that receipt to the last count.
   */
  lemma {:induction false} CommittedReceiptSurvives(s: State, events: seq<Event>, kept: set<nat>)
    requires Initial(s) && StagesSurvived(s, events)
    ensures var t := Run(s, events);
      t.journal.Some? ==>
        && |t.commits| == 1 && t.commits[0].evidence == t.journal.value
        && Carries(t.disk.visible, t.commits[0]) && Carries(t.disk.PowerLoss(kept).visible, t.commits[0])
    ensures var t := Run(s, events); t.journal.None? ==> !t.disk.visible.output.Completed?
  {
    RunKeepsAttested(s, events);
    var t := Run(s, events);
    if t.journal.Some? {
      BackedBehindWritesSurvives(t.disk, |t.disk.pending|, kept, t.commits[0]);
      assert t.disk.pending[..|t.disk.pending|] == t.disk.pending;
    }
  }

  // ----- One recovery, from invocation to exit -----

  /** Anything that others may do meanwhile, and the calls of this invocation. */
  predicate Meanwhile(event: Event, pid: nat) {
    match event
    case Act(_, _) => true
    case Invoke(q, _) => q != pid
    case Kill(q) => q != pid
    case PowerLoss(_) => false
  }

  /** While an invocation holds the lock, all others are turned away. */
  lemma OthersAreTurnedAway(s: State, pid: nat, event: Event)
    requires Inv(s) && pid in s.procs && Critical(s.procs[pid].pc)
    requires Meanwhile(event, pid) && !(event.Act? && event.pid == pid)
    ensures var t := Step(s, event);
      && t.disk == s.disk && t.journal == s.journal && t.commits == s.commits
      && pid in t.procs && t.procs[pid] == s.procs[pid]
  {
    hide DiskInv, PcInv;
    assert s.lock == Some(pid);
    if event.Act? && event.pid in s.procs {
      assert !Critical(s.procs[event.pid].pc);
    }
  }

  /** The states of an invocation that holds the lock and found `receipt` staged and nothing committed. */
  ghost predicate RollingForward(start: State, s: State, pid: nat, receipt: Receipt) {
    && pid in s.procs
    && var pc := s.procs[pid].pc;
       if s.journal.None? then
         && s.disk == start.disk && s.commits == start.commits
         && (pc.FindStage? || pc.ReadStage? || pc == Verify(OnStage, receipt)
             || pc == VerifyCommit(OnStage, receipt, Some(receipt.evidence)) || pc == Exited(1))
       else
         && s.journal == Some(receipt.evidence) && s.commits == start.commits + [receipt]
         && (pc == Publishing(Rename, receipt) || pc == Publishing(Sync, receipt) || pc == Exited(0) || pc == Exited(1))
         && (pc == Publishing(Rename, receipt) ==> s.disk.visible == start.disk.visible)
         && (pc == Publishing(Sync, receipt) || pc == Exited(0) ==>
               s.disk.visible == Directory(Absent, Completed(receipt)))
         && (pc == Exited(1) ==> s.disk.visible in {start.disk.visible, Directory(Absent, Completed(receipt))})
  }

  lemma ActRollsForward(start: State, s: State, pid: nat, receipt: Receipt, choice: Choice)
    requires start.journal.None? && start.disk.visible.staged == Completed(receipt)
    requires RollingForward(start, s, pid, receipt)
    ensures RollingForward(start, ActStep(s, pid, choice), pid, receipt)
  {
  }

  /** The invocation has the lock, and what it found is staged and uncommitted. */
  ghost predicate FindsStaged(start: State, pid: nat, receipt: Receipt) {
    && pid in start.procs && start.procs[pid].pc.FindStage?
    && start.journal.None? && start.disk.visible.staged == Completed(receipt)
  }

  /** All of the events are the invocation's own calls or those of others, and it is not at its end before the last. */
  ghost predicate UntilItsEnd(start: State, pid: nat, events: seq<Event>) {
    && (forall i :: 0 <= i < |events| ==> Meanwhile(events[i], pid))
    && (forall n :: 0 <= n < |events| ==> IsInside(Run(start, events[..n]), pid))
  }

  predicate IsInside(s: State, pid: nat) {
    pid in s.procs && Critical(s.procs[pid].pc)
  }

  lemma UntilItsEndBefore(start: State, pid: nat, events: seq<Event>)
    requires UntilItsEnd(start, pid, events) && events != []
    ensures UntilItsEnd(start, pid, events[..|events| - 1])
    ensures IsInside(Run(start, events[..|events| - 1]), pid)
  {
    var before := events[..|events| - 1];
    forall n | 0 <= n < |before| ensures IsInside(Run(start, before[..n]), pid) {
      assert before[..n] == events[..n];
    }
  }

  lemma {:induction false} RollForwardInvariant(start: State, pid: nat, receipt: Receipt, events: seq<Event>)
    requires Inv(start) && FindsStaged(start, pid, receipt) && UntilItsEnd(start, pid, events)
    ensures Inv(Run(start, events)) && RollingForward(start, Run(start, events), pid, receipt)
  {
    if events != [] {
      hide Inv, UntilItsEnd, ActStep, RollingForward;
      var n := |events| - 1;
      assert Meanwhile(events[n], pid) by { LastIsMeanwhile(start, pid, events); }
      UntilItsEndBefore(start, pid, events);
      RollForwardInvariant(start, pid, receipt, events[..n]);
      var t := Run(start, events[..n]);
      StepPreserves(t, events[n]);
      if events[n].Act? && events[n].pid == pid {
        ActRollsForward(start, t, pid, receipt, events[n].choice);
      } else {
        OthersAreTurnedAway(t, pid, events[n]);
        SameRollForward(start, t, Step(t, events[n]), pid, receipt);
      }
    } else {
      StartsRollingForward(start, pid, receipt);
    }
  }

  lemma LastIsMeanwhile(start: State, pid: nat, events: seq<Event>)
    requires UntilItsEnd(start, pid, events) && events != []
    ensures Meanwhile(events[|events| - 1], pid)
  {
  }

  lemma StartsRollingForward(start: State, pid: nat, receipt: Receipt)
    requires FindsStaged(start, pid, receipt)
    ensures RollingForward(start, start, pid, receipt)
  {
  }

  lemma SameRollForward(start: State, s: State, t: State, pid: nat, receipt: Receipt)
    requires RollingForward(start, s, pid, receipt)
    requires t.disk == s.disk && t.journal == s.journal && t.commits == s.commits
    requires pid in t.procs && t.procs[pid] == s.procs[pid]
    ensures RollingForward(start, t, pid, receipt)
  {
  }

  /**
   * However its calls turn out, and whatever others try meanwhile, an invocation that finds a
   * staged, uncommitted report and comes to its end has either changed nothing at all and exits 1;
   * or the database committed exactly the staged evidence, and the report is published or still staged.
   */
  lemma {:induction false} RollForwardIsAllOrNothing(
      s: State, before: seq<Event>, pid: nat, receipt: Receipt, events: seq<Event>)
    requires Initial(s) && FindsStaged(Run(s, before), pid, receipt)
    requires UntilItsEnd(Run(s, before), pid, events)
    requires var t := Run(Run(s, before), events); pid in t.procs && t.procs[pid].pc.Exited?
    ensures var start := Run(s, before);
      var t := Run(start, events);
      var code := t.procs[pid].pc.code;
      || (code == 1 && t.journal.None? && t.disk == start.disk && t.commits == start.commits)
      || (t.journal == Some(receipt.evidence) && t.commits == start.commits + [receipt]
          && (t.disk.visible == Directory(Absent, Completed(receipt))
              || (code == 1 && t.disk.visible == start.disk.visible)))
  {
    hide Inv, Run, UntilItsEnd;
    RunPreserves(s, before);
    RollForwardInvariant(Run(s, before), pid, receipt, events);
  }

  /** The program points of a recovery in which nothing fails and the rerun matches. */
  function Course(n: nat, receipt: Receipt): Pc {
    match n
    case 0 => FindStage
    case 1 => ReadStage
    case 2 => Verify(OnStage, receipt)
    case 3 => VerifyCommit(OnStage, receipt, Some(receipt.evidence))
    case 4 => Publishing(Rename, receipt)
    case 5 => Publishing(Sync, receipt)
    case _ => Exited(0)
  }

  /** How many of the calls are the invocation's own. */
  function Own(pid: nat, events: seq<Event>): nat {
    if events == [] then 0
    else
      var last := events[|events| - 1];
      Own(pid, events[..|events| - 1]) + if last.Act? && last.pid == pid then 1 else 0
  }

  lemma StaysOnCourse(start: State, t: State, pid: nat, receipt: Receipt, n: nat)
    requires start.journal.None? && start.disk.visible.staged == Completed(receipt)
    requires n < 6 && RollingForward(start, t, pid, receipt)
    requires t.procs[pid].pc == Course(n, receipt) && t.procs[pid].asOf == receipt.asOf
    ensures var p := ActStep(t, pid, Yields(receipt.evidence)).procs[pid]; p.pc == Course(n + 1, receipt) && p.asOf == receipt.asOf
  {
  }

  /** The calls of others, and six own calls at most, with nothing behind the sixth; the reruns match. */
  ghost predicate MatchingCalls(pid: nat, receipt: Receipt, events: seq<Event>) {
    && (forall i :: 0 <= i < |events| ==> Meanwhile(events[i], pid) && Matches(events[i], pid, receipt))
    && Own(pid, events) <= 6
    && (Own(pid, events) == 6 ==> IsOwn(events[|events| - 1], pid))
  }

  predicate IsOwn(event: Event, pid: nat) {
    event.Act? && event.pid == pid
  }

  predicate Matches(event: Event, pid: nat, receipt: Receipt) {
    IsOwn(event, pid) ==> event.choice == Yields(receipt.evidence)
  }

  lemma MatchingCallsBefore(pid: nat, receipt: Receipt, events: seq<Event>)
    requires MatchingCalls(pid, receipt, events) && events != []
    ensures var n := |events| - 1;
      && MatchingCalls(pid, receipt, events[..n]) && Own(pid, events[..n]) < 6
      && Meanwhile(events[n], pid) && Matches(events[n], pid, receipt)
      && Own(pid, events) == Own(pid, events[..n]) + if IsOwn(events[n], pid) then 1 else 0
  {
  }

  lemma UntilItsEndGoesOn(start: State, pid: nat, events: seq<Event>)
    requires events != [] && UntilItsEnd(start, pid, events[..|events| - 1]) && Meanwhile(events[|events| - 1], pid)
    requires IsInside(Run(start, events[..|events| - 1]), pid)
    ensures UntilItsEnd(start, pid, events)
  {
    var before := events[..|events| - 1];
    forall n | 0 <= n < |events| ensures IsInside(Run(start, events[..n]), pid) {
      assert n < |before| ==> before[..n] == events[..n];
    }
  }

  lemma CourseIsInside(n: nat, receipt: Receipt)
    ensures n < 6 ==> Critical(Course(n, receipt))
    ensures Course(0, receipt).FindStage?
  {
  }

  lemma {:induction false} MatchingRerunAdvances(start: State, pid: nat, receipt: Receipt, events: seq<Event>)
    requires Inv(start) && FindsStaged(start, pid, receipt) && start.procs[pid].asOf == receipt.asOf
    requires MatchingCalls(pid, receipt, events)
    ensures UntilItsEnd(start, pid, events)
    ensures var t := Run(start, events);
      pid in t.procs && t.procs[pid].pc == Course(Own(pid, events), receipt) && t.procs[pid].asOf == receipt.asOf
  {
    if events != [] {
      hide Inv, UntilItsEnd, ActStep, RollingForward, MatchingCalls, Own, Course, Critical;
      var n := |events| - 1;
      CourseIsInside(Own(pid, events[..n]), receipt);
      MatchingCallsBefore(pid, receipt, events);
      MatchingRerunAdvances(start, pid, receipt, events[..n]);
      RollForwardInvariant(start, pid, receipt, events[..n]);
      var t := Run(start, events[..n]);
      UntilItsEndGoesOn(start, pid, events);
      if IsOwn(events[n], pid) {
        StaysOnCourse(start, t, pid, receipt, Own(pid, events[..n]));
      } else {
        OthersAreTurnedAway(t, pid, events[n]);
      }
    }
  }

  /**
   * If nothing of its own fails and the rerun yields the staged evidence for the staged cutoff, the
   * recovery ends with its sixth call: it exits 0 with the report published, whatever others try.
   */
  lemma {:induction false} MatchingRerunPublishes(
      s: State, before: seq<Event>, pid: nat, receipt: Receipt, events: seq<Event>)
    requires Initial(s) && FindsStaged(Run(s, before), pid, receipt) && Run(s, before).procs[pid].asOf == receipt.asOf
    requires MatchingCalls(pid, receipt, events) && Own(pid, events) == 6
    ensures var t := Run(Run(s, before), events);
      && pid in t.procs && t.procs[pid].pc == Exited(0) && t.journal == Some(receipt.evidence)
      && t.disk.visible == Directory(Absent, Completed(receipt))
  {
    hide Inv, Run, UntilItsEnd, MatchingCalls, Own;
    RunPreserves(s, before);
    MatchingRerunAdvances(Run(s, before), pid, receipt, events);
    RollForwardInvariant(Run(s, before), pid, receipt, events);
  }

  // ----- Which fault-free invocations complete -----

  /** Does a rerun that yields `e` accept the receipt? With a journal row it reports that row. */
  predicate Accepts(receipt: Receipt, journal: Option<Evidence>, e: Evidence) {
    match journal
    case None => receipt.evidence == e
    case Some(j) => j.hashes == receipt.evidence.hashes
  }

  /** An output file stands in the way unless it is of this cutoff or of a run that did not complete. */
  predicate OutputFits(output: Report<Receipt>, asOf: int) {
    match output
    case Completed(receipt) => receipt.asOf == asOf
    case Unreadable => false
    case _ => true
  }

  predicate StageFits(staged: Report<Receipt>, journal: Option<Evidence>, asOf: int, e: Evidence) {
    staged.Completed? && staged.evidence.asOf == asOf && Accepts(staged.evidence, journal, e)
  }

  /** When an invocation for the cutoff exits 0, if nothing of its own fails and the service yields `e`. */
  predicate Fits(visible: Directory<Receipt>, journal: Option<Evidence>, asOf: int, e: Evidence) {
    if visible.staged.Absent? then OutputFits(visible.output, asOf) else StageFits(visible.staged, journal, asOf, e)
  }

  /** Whether it will exit 0, seen from anywhere in between. */
  predicate Will(s: State, pid: nat, e: Evidence)
    requires pid in s.procs
  {
    var p := s.procs[pid];
    match p.pc
    case FindStage => Fits(s.disk.visible, s.journal, p.asOf, e)
    case ReadStage => StageFits(s.disk.visible.staged, s.journal, p.asOf, e)
    case Verify(_, receipt) => Accepts(receipt, s.journal, e)
    case FindOutput => OutputFits(s.disk.visible.output, p.asOf)
    case ReadOutput => OutputFits(s.disk.visible.output, p.asOf) && !s.disk.visible.output.Absent?
    case Exited(code) => code == 0
    case _ => true
  }

  /** What it knows there. */
  ghost predicate OnCourse(s: State, pid: nat) {
    && pid in s.procs
    && var p := s.procs[pid];
       match p.pc
       case Verify(_, receipt) => receipt.asOf == p.asOf
       case VerifyCommit(_, receipt, _) => receipt.asOf == p.asOf
       case Publishing(_, receipt) => receipt.asOf == p.asOf
       case Writing(Progress, _) => true
       case Writing(Stage(receipt, redo), _) => IsOwnReceipt(s, p, receipt, redo)
       case Writing(Failure(_), _) => false
       case Commit(receipt, redo) => IsOwnReceipt(s, p, receipt, redo) && s.disk.visible.staged == Completed(receipt)
       case Exited(code) => code == 0 || code == 1
       case pc => Critical(pc)
  }

  ghost predicate IsOwnReceipt(s: State, p: Process, receipt: Receipt, redo: Option<Evidence>) {
    && receipt.asOf == p.asOf
    && (redo.None? ==> s.journal.Some? && s.journal.value.hashes == receipt.evidence.hashes)
  }

  /** A bound on the calls left. */
  function Rank(pc: Pc): nat {
    match pc
    case FindStage => 14
    case FindOutput => 13
    case ReadOutput => 12
    case Writing(Progress, part) => if part == Rename then 11 else 10
    case RunService => 9
    case Writing(_, part) => if part == Rename then 8 else 7
    case Commit(_, _) => 6
    case ReadStage => 5
    case Verify(_, _) => 4
    case VerifyCommit(_, _, _) => 3
    case Publishing(part, _) => if part == Rename then 2 else 1
    case Exited(_) => 0
    case _ => 15
  }

  /** Two states the invocation cannot tell apart, as far as its end goes. */
  ghost predicate SameEnd(s: State, t: State, pid: nat, e: Evidence)
    requires pid in s.procs
  {
    OnCourse(t, pid) && t.procs[pid].asOf == s.procs[pid].asOf && Will(t, pid, e) == Will(s, pid, e)
  }

  lemma OwnCallAdvances(s: State, pid: nat, e: Evidence)
    requires Local(s, pid) && OnCourse(s, pid)
    ensures var t := ActStep(s, pid, Yields(e));
      SameEnd(s, t, pid, e) && Rank(t.procs[pid].pc) < Rank(s.procs[pid].pc)
  {
  }

  /** An invocation that will exit 1 changes nothing; one that exits 0 leaves a receipt of its cutoff. */
  lemma OwnCallLeaves(s: State, pid: nat, e: Evidence)
    requires Local(s, pid) && OnCourse(s, pid)
    ensures var t := ActStep(s, pid, Yields(e));
      && (!Will(s, pid, e) ==> t.disk == s.disk && t.journal == s.journal && t.commits == s.commits)
      && (t.procs[pid].pc == Exited(0) ==> Published(t, s.procs[pid].asOf))
  {
  }

  /** The output file reports the committed hashes for the cutoff. */
  ghost predicate Published(s: State, asOf: int) {
    && s.journal.Some? && s.disk.visible.output.Completed?
    && s.disk.visible.output.evidence.asOf == asOf && s.disk.visible.output.evidence.evidence.hashes == s.journal.value.hashes
  }

  predicate FaultFree(event: Event, pid: nat, e: Evidence) {
    Meanwhile(event, pid) && (IsOwn(event, pid) ==> event.choice == Yields(e))
  }

  lemma {:induction false} OthersKeepEnd(s: State, pid: nat, e: Evidence, event: Event)
    requires Inv(s) && OnCourse(s, pid) && Meanwhile(event, pid) && !IsOwn(event, pid)
    ensures var t := Step(s, event); SameEnd(s, t, pid, e) && t.procs[pid] == s.procs[pid]
  {
    hide Inv;
    if Critical(s.procs[pid].pc) {
      hide Step;
      OthersAreTurnedAway(s, pid, event);
    }
  }

  lemma {:induction false} FaultFreeCallAdvances(s: State, pid: nat, e: Evidence, event: Event)
    requires Inv(s) && OnCourse(s, pid) && FaultFree(event, pid, e)
    ensures var t := Step(s, event);
      && SameEnd(s, t, pid, e)
      && (Rank(t.procs[pid].pc) == 0 || Rank(t.procs[pid].pc) + (if IsOwn(event, pid) then 1 else 0) <= Rank(s.procs[pid].pc))
  {
    IsThere(s, pid);
    hide OnCourse, Will, DiskInv, PcInv;
    if !IsOwn(event, pid) {
      OthersKeepEnd(s, pid, e, event);
    } else if s.procs[pid].pc.Exited? {
      EndStays(s, pid, e);
    } else {
      hide ActStep;
      OwnCallAdvances(s, pid, e);
    }
  }

  lemma EndStays(s: State, pid: nat, e: Evidence)
    requires OnCourse(s, pid) && s.procs[pid].pc.Exited?
    ensures SameEnd(s, ActStep(s, pid, Yields(e)), pid, e)
    ensures ActStep(s, pid, Yields(e)).procs[pid].pc.Exited?
  {
  }

  lemma {:induction false} FaultFreeCalls(start: State, pid: nat, e: Evidence, events: seq<Event>)
    requires Inv(start) && OnCourse(start, pid)
    requires forall i :: 0 <= i < |events| ==> FaultFree(events[i], pid, e)
    ensures var t := Run(start, events);
      && Inv(t) && SameEnd(start, t, pid, e)
      && (Rank(t.procs[pid].pc) == 0 || Rank(t.procs[pid].pc) + Own(pid, events) <= Rank(start.procs[pid].pc))
  {
    if events != [] {
      hide Inv, OnCourse, Will, Step, FaultFree, Rank;
      var n := |events| - 1;
      FaultFreeCalls(start, pid, e, events[..n]);
      StepPreserves(Run(start, events[..n]), events[n]);
      FaultFreeCallAdvances(Run(start, events[..n]), pid, e, events[n]);
      IsThere(Run(start, events), pid);
    }
  }

  lemma IsThere(s: State, pid: nat)
    requires OnCourse(s, pid)
    ensures pid in s.procs
  {
  }

  /**
   * After any history, an invocation that has got the lock and none of whose calls fails is at its
   * end after 14 calls, whatever others try: it exits 0 if and only if what it found in the
   * directory and the journal fits its cutoff and what the service yields.
   */
  lemma {:induction false} FaultFreeCutoverCompletesIff(
      s: State, before: seq<Event>, pid: nat, e: Evidence, events: seq<Event>)
    requires Initial(s) && var start := Run(s, before); pid in start.procs && start.procs[pid].pc.FindStage?
    requires (forall i :: 0 <= i < |events| ==> FaultFree(events[i], pid, e)) && Own(pid, events) >= 14
    ensures var start := Run(s, before);
      var t := Run(start, events);
      && pid in t.procs
      && t.procs[pid].pc == Exited(if Fits(start.disk.visible, start.journal, start.procs[pid].asOf, e) then 0 else 1)
  {
    hide Inv, Run, Own, Fits;
    RunPreserves(s, before);
    FaultFreeCalls(Run(s, before), pid, e, events);
    EndIsReached(Run(Run(s, before), events), pid);
  }

  lemma EndIsReached(s: State, pid: nat)
    requires OnCourse(s, pid) && Rank(s.procs[pid].pc) == 0
    ensures s.procs[pid].pc == Exited(0) || s.procs[pid].pc == Exited(1)
  {
  }

  /** What such an invocation leaves behind. */
  ghost predicate Leaves(start: State, t: State, pid: nat, e: Evidence)
    requires pid in start.procs && pid in t.procs
  {
    && (!Will(start, pid, e) ==> t.disk == start.disk && t.journal == start.journal && t.commits == start.commits)
    && (t.procs[pid].pc == Exited(0) ==> Published(t, start.procs[pid].asOf))
  }

  lemma {:induction false} FaultFreeCallsLeave(start: State, pid: nat, e: Evidence, events: seq<Event>)
    requires Inv(start) && OnCourse(start, pid) && UntilItsEnd(start, pid, events)
    requires IsInside(start, pid)
    requires forall i :: 0 <= i < |events| ==> FaultFree(events[i], pid, e)
    ensures OnCourse(Run(start, events), pid) && Leaves(start, Run(start, events), pid, e)
  {
    hide Inv, OnCourse, Will, ActStep, UntilItsEnd, Published, Fits;
    FaultFreeCalls(start, pid, e, events);
    IsThere(Run(start, events), pid);
    if events != [] {
      var n := |events| - 1;
      var t := Run(start, events[..n]);
      UntilItsEndBefore(start, pid, events);
      FaultFreeCallsLeave(start, pid, e, events[..n]);
      FaultFreeCalls(start, pid, e, events[..n]);
      if IsOwn(events[n], pid) {
        InsideIsLocal(t, pid);
        OwnCallLeaves(t, pid, e);
      } else {
        OthersAreTurnedAway(t, pid, events[n]);
      }
    }
  }

  lemma InsideIsLocal(s: State, pid: nat)
    requires Inv(s) && IsInside(s, pid)
    ensures Local(s, pid)
  {
  }

  /**
   * At its end, if it does not fit, nothing has changed at all, so the same command will not
   * complete the next time either: a staged report that no longer fits blocks every later run. If
   * it does fit, the output file reports the committed hashes for its cutoff.
   */
  lemma {:induction false} FaultFreeCutoverLeaves(
      s: State, before: seq<Event>, pid: nat, e: Evidence, events: seq<Event>)
    requires Initial(s) && var start := Run(s, before); pid in start.procs && start.procs[pid].pc.FindStage?
    requires UntilItsEnd(Run(s, before), pid, events)
    requires forall i :: 0 <= i < |events| ==> FaultFree(events[i], pid, e)
    requires var t := Run(Run(s, before), events); pid in t.procs && t.procs[pid].pc.Exited?
    ensures var start := Run(s, before);
      var t := Run(start, events);
      if Fits(start.disk.visible, start.journal, start.procs[pid].asOf, e)
      then t.procs[pid].pc == Exited(0) && Published(t, start.procs[pid].asOf)
      else t.procs[pid].pc == Exited(1) && t.disk == start.disk && t.journal == start.journal && t.commits == start.commits
  {
    hide Inv, Run, Published, Fits, UntilItsEnd;
    RunPreserves(s, before);
    FaultFreeCalls(Run(s, before), pid, e, events);
    FaultFreeCallsLeave(Run(s, before), pid, e, events);
  }

  // ----- A staged report in the way -----

  /** Uncommitted and durable; whoever holds the lock has got no further than its verification. */
  ghost predicate Blocked(s: State, receipt: Receipt) {
    && Inv(s) && s.journal.None? && s.disk.durable.staged == Completed(receipt)
    && forall p | p in s.procs && Critical(s.procs[p].pc) ::
         var pc := s.procs[p].pc; pc.FindStage? || pc.ReadStage? || (pc.Verify? && pc.site == OnStage)
  }

  /** A rerun for its cutoff yields the very evidence that is staged. */
  predicate Releases(s: State, event: Event, receipt: Receipt) {
    event.Act? && event.pid in s.procs && s.procs[event.pid].pc == Verify(OnStage, receipt)
    && event.choice == Yields(receipt.evidence)
  }

  lemma BlockedIsStaged(s: State, receipt: Receipt)
    requires Blocked(s, receipt)
    ensures s.disk.visible.staged == Completed(receipt) && !s.disk.visible.output.Completed? && s.commits == []
    ensures forall i | 0 <= i < |s.disk.pending| :: s.disk.pending[i].PutOutput?
  {
  }

  lemma {:induction false} PuttingOutputsKeepsStage(d: Directory<Receipt>, ops: seq<DirOp<Receipt>>, kept: set<nat>)
    requires forall i | 0 <= i < |ops| :: ops[i].PutOutput?
    ensures PerformKept(d, ops, kept).staged == d.staged
  {
    if ops != [] {
      PuttingOutputsKeepsStage(d, ops[..|ops| - 1], kept);
    }
  }

  lemma CallStaysBlocked(s: State, pid: nat, choice: Choice, receipt: Receipt)
    requires Blocked(s, receipt) && pid in s.procs && !Releases(s, Act(pid, choice), receipt)
    ensures var t := ActStep(s, pid, choice);
      && t.disk == s.disk && t.journal == s.journal
      && var pc := t.procs[pid].pc;
         Critical(pc) ==> pc.FindStage? || pc.ReadStage? || (pc.Verify? && pc.site == OnStage)
  {
  }

  lemma {:induction false} StaysBlocked(s: State, event: Event, receipt: Receipt)
    requires Blocked(s, receipt) && !Releases(s, event, receipt)
    ensures Blocked(Step(s, event), receipt)
  {
    hide Inv, ActStep;
    StepPreserves(s, event);
    match event
    case Act(pid, choice) =>
      if pid in s.procs {
        CallStaysBlocked(s, pid, choice, receipt);
        OthersAsBefore(s, pid, choice);
      }
    case PowerLoss(kept) =>
      BlockedIsStaged(s, receipt);
      PuttingOutputsKeepsStage(s.disk.durable, s.disk.pending, kept);
    case _ =>
  }

  lemma OthersAsBefore(s: State, pid: nat, choice: Choice)
    requires pid in s.procs
    ensures ActStep(s, pid, choice).procs == s.procs[pid := ActStep(s, pid, choice).procs[pid]]
  {
  }

  /**
   * A durable uncommitted report stays staged and blocks everything else, through any failures,
   * kills and power losses: nothing is committed and no completion is published until a rerun for
   * its cutoff yields the very evidence that is staged. By then MatchingRerunPublishes tells the end.
   */
  lemma {:induction false} StagedReportBlocks(s: State, before: seq<Event>, receipt: Receipt, events: seq<Event>)
    requires Initial(s)
    requires var t := Run(s, before); t.lock.None? && t.journal.None? && t.disk.durable.staged == Completed(receipt)
    requires forall n :: 0 <= n < |events| ==> !Releases(Run(Run(s, before), events[..n]), events[n], receipt)
    ensures var t := Run(Run(s, before), events);
      && Blocked(t, receipt)
      && t.journal.None? && t.commits == [] && t.disk.visible.staged == Completed(receipt) && !t.disk.visible.output.Completed?
  {
    var start := Run(s, before);
    if events == [] {
      RunPreserves(s, before);
    } else {
      hide Blocked, Releases, Inv, Step;
      var n := |events| - 1;
      assert forall k :: 0 <= k < n ==> events[..n][..k] == events[..k];
      StagedReportBlocks(s, before, receipt, events[..n]);
      StaysBlocked(Run(start, events[..n]), events[n], receipt);
    }
    BlockedIsStaged(Run(start, events), receipt);
  }

  // ----- A run whose evidence is lost -----

  /** One more event of a run under construction. */
  lemma Then(s: State, events: seq<Event>, t: State, event: Event) returns (events': seq<Event>, t': State)
    requires t == Run(s, events)
    ensures events' == events + [event] && t' == Step(t, event) == Run(s, events')
  {
    events', t' := events + [event], Step(t, event);
    assert events'[..|events|] == events;
  }

  ghost function Alone(disk: Disk<Receipt>, journal: Option<Evidence>, process: Process, commits: seq<Receipt>): State {
    State(disk, journal, if Critical(process.pc) then Some(0) else None, map[0 := process], commits)
  }

  ghost const FRESH: State := State(Disk(Directory(Absent, Absent), [], Directory(Absent, Absent)), None, None, map[], [])

  ghost const IN_PROGRESS: Disk<Receipt> := Disk(Directory(Absent, InProgress), [], Directory(Absent, InProgress))

  /** An invocation that finds nothing staged gets as far as the output file. */
  lemma Enters(before: seq<Event>, asOf: int) returns (events: seq<Event>)
    requires var s := Run(FRESH, before);
      s.lock.None? && s.disk.visible.staged.Absent? && s.procs == map[]
    ensures var s := Run(FRESH, before);
      Run(FRESH, events) == Alone(s.disk, s.journal, Process(FindOutput, asOf, false), s.commits)
  {
    hide AfterVerify, AfterReadOutput, AfterRun, AfterWrite;
    var t := Run(FRESH, before);
    events, t := Then(FRESH, before, t, Invoke(0, asOf));
    events, t := Then(FRESH, events, t, Act(0, Works));
    events, t := Then(FRESH, events, t, Act(0, Works));
    events, t := Then(FRESH, events, t, Act(0, Works));
  }

  lemma NothingHappens(s: State)
    ensures Run(s, []) == s
  {
  }

  lemma ReachesService(asOf: int) returns (events: seq<Event>)
    ensures Run(FRESH, events) == Alone(IN_PROGRESS, None, Process(RunService, asOf, false), [])
  {
    hide Run, AfterVerify, AfterReadOutput;
    NothingHappens(FRESH);
    events := Enters([], asOf);
    var t := Run(FRESH, events);
    events, t := Then(FRESH, events, t, Act(0, Works));
    events, t := Then(FRESH, events, t, Act(0, Works));
    events, t := Then(FRESH, events, t, Act(0, Works));
  }

  /** The stage is renamed into place, and the process is killed before the directory fsync. */
  lemma StageUnsynced(e: Evidence, asOf: int) returns (events: seq<Event>)
    ensures Run(FRESH, events) ==
      State(Disk(Directory(Absent, InProgress), [PutStage(Completed(Receipt(asOf, e)))],
                 Directory(Completed(Receipt(asOf, e)), InProgress)),
            None, None, map[], [])
  {
    events := ReachesService(asOf);
    var t := Run(FRESH, events);
    events, t := Then(FRESH, events, t, Act(0, Yields(e)));
    events, t := Then(FRESH, events, t, Act(0, Works));
    events, t := Then(FRESH, events, t, Kill(0));
  }

  /** The next invocation rolls forward, and the power fails before the publication is durable. */
  lemma EvidenceLost(e: Evidence, asOf: int) returns (events: seq<Event>)
    ensures Run(FRESH, events) ==
      State(IN_PROGRESS, Some(e), None, map[], [Receipt(asOf, e)])
  {
    hide Run, AfterRun, AfterReadOutput, AfterWrite;
    var receipt := Receipt(asOf, e);
    events := StageUnsynced(e, asOf);
    var t := Run(FRESH, events);
    events, t := Then(FRESH, events, t, Invoke(0, asOf));
    events, t := Then(FRESH, events, t, Act(0, Works));
    events, t := Then(FRESH, events, t, Act(0, Works));
    events, t := Then(FRESH, events, t, Act(0, Works));
    events, t := Then(FRESH, events, t, Act(0, Works));
    assert t.procs[0].pc == Verify(OnStage, receipt);
    events, t := Then(FRESH, events, t, Act(0, Yields(e)));
    events, t := Then(FRESH, events, t, Act(0, Works));
    assert t.journal == Some(e) && t.procs[0].pc == Publishing(Rename, receipt);
    LosingEverything(t.disk.durable, t.disk.pending);
    events, t := Then(FRESH, events, t, PowerLoss({}));
  }

  lemma ReachesServiceAgain(e: Evidence, asOf: int) returns (events: seq<Event>)
    ensures Run(FRESH, events) == Alone(IN_PROGRESS, Some(e), Process(RunService, asOf, false), [Receipt(asOf, e)])
  {
    hide Run, AfterVerify, AfterRun;
    events := EvidenceLost(e, asOf);
    events := Enters(events, asOf);
    var t := Run(FRESH, events);
    events, t := Then(FRESH, events, t, Act(0, Works));
    events, t := Then(FRESH, events, t, Act(0, Works));
    events, t := Then(FRESH, events, t, Act(0, Works));
    events, t := Then(FRESH, events, t, Act(0, Works));
  }

  /** With a journal row the service deletes nothing, and that is what is staged. */
  lemma StagesNoDeletion(e: Evidence, asOf: int) returns (events: seq<Event>)
    ensures var d := Directory(Completed(Receipt(asOf, Evidence(e.hashes, 0))), InProgress);
      Run(FRESH, events) == Alone(Disk(d, [], d), Some(e), Process(ReadStage, asOf, false), [Receipt(asOf, e)])
  {
    events := ReachesServiceAgain(e, asOf);
    var t := Run(FRESH, events);
    events, t := Then(FRESH, events, t, Act(0, Works));
    events, t := Then(FRESH, events, t, Act(0, Works));
    events, t := Then(FRESH, events, t, Act(0, Works));
    events, t := Then(FRESH, events, t, Act(0, Works));
  }

  /**
   * From there a run in which nothing fails exits 0 and publishes a receipt with the committed
   * hashes but with no deletions, whatever was deleted: committed evidence can be lost.
   */
  lemma LostEvidenceIsReportedAsNoDeletion(e: Evidence, asOf: int) returns (events: seq<Event>)
    ensures Initial(FRESH)
    ensures var t := Run(FRESH, events);
      && t.journal == Some(e) && 0 in t.procs && t.procs[0].pc == Exited(0)
      && t.disk.visible == Directory(Absent, Completed(Receipt(asOf, Evidence(e.hashes, 0))))
  {
    events := StagesNoDeletion(e, asOf);
    var t := Run(FRESH, events);
    events, t := Then(FRESH, events, t, Act(0, Works));
    events, t := Then(FRESH, events, t, Act(0, Works));
    events, t := Then(FRESH, events, t, Act(0, Works));
    events, t := Then(FRESH, events, t, Act(0, Works));
    events, t := Then(FRESH, events, t, Act(0, Works));
  }

  // ----- What the output file says meanwhile, and after a failure -----

  /** What an unfinished run has written to the output file by the time it is at `pc`. */
  ghost predicate Says(output: Report<Receipt>, pc: Pc) {
    match pc
    case Writing(Progress, part) => part == Sync ==> output == InProgress
    case Writing(Stage(_, _), _) => output == InProgress
    case Writing(Failure(_), part) => output == if part == Sync then Failed else InProgress
    case RunService => output == InProgress
    case Commit(_, _) => output == InProgress
    case _ => true
  }

  ghost predicate AllSay(s: State) {
    forall p | p in s.procs :: Says(s.disk.visible.output, s.procs[p].pc)
  }

  lemma ActSays(s: State, pid: nat, choice: Choice)
    requires Local(s, pid) && Says(s.disk.visible.output, s.procs[pid].pc)
    ensures var t := ActStep(s, pid, choice); Says(t.disk.visible.output, t.procs[pid].pc)
  {
  }

  lemma NobodyInsideSays(s: State, pid: nat, choice: Choice)
    requires Inv(s) && pid in s.procs && !Critical(s.procs[pid].pc)
    ensures ActStep(s, pid, choice).disk.visible == s.disk.visible
    ensures Says(s.disk.visible.output, ActStep(s, pid, choice).procs[pid].pc)
  {
    hide DiskInv, PcInv;
  }

  lemma {:induction false} StepSays(s: State, event: Event)
    requires Inv(s) && AllSay(s)
    ensures AllSay(Step(s, event))
  {
    if event.Act? && event.pid in s.procs {
      hide ActStep, DiskInv, PcInv;
      OthersAsBefore(s, event.pid, event.choice);
      if Critical(s.procs[event.pid].pc) {
        InsideIsLocal(s, event.pid);
        ActSays(s, event.pid, event.choice);
      } else {
        NobodyInsideSays(s, event.pid, event.choice);
      }
    }
  }

  lemma {:induction false} RunSays(s: State, events: seq<Event>)
    requires Initial(s)
    ensures AllSay(Run(s, events))
  {
    if events != [] {
      RunSays(s, events[..|events| - 1]);
      RunPreserves(s, events[..|events| - 1]);
      StepSays(Run(s, events[..|events| - 1]), events[|events| - 1]);
    }
  }

  /**
   * In every run: from its progress report to its commit the output file of an invocation says
   * IN_PROGRESS, and FAILED once a failure is being reported.
   */
  lemma OutputSaysHowFar(s: State, events: seq<Event>, pid: nat)
    requires Initial(s) && pid in Run(s, events).procs
    ensures var t := Run(s, events); Says(t.disk.visible.output, t.procs[pid].pc)
  {
    RunSays(s, events);
  }

  /** Before its FAILED report is in place: nothing has changed. */
  ghost predicate Failing(start: State, t: State, pid: nat, code: int, part: Part) {
    && pid in t.procs && t.procs[pid].pc == Writing(Failure(code), part)
    && t.disk.visible == (if part == Rename then start.disk.visible else start.disk.visible.(output := Failed))
    && t.journal == start.journal && t.commits == start.commits
  }

  predicate Undisturbed(event: Event, pid: nat) {
    Meanwhile(event, pid) && (IsOwn(event, pid) ==> Returns(event.choice))
  }

  lemma {:induction false} FailureAdvances(start: State, pid: nat, code: int, calls: seq<Event>)
    requires Inv(start) && Failing(start, start, pid, code, Rename)
    requires (forall i :: 0 <= i < |calls| ==> Undisturbed(calls[i], pid)) && Own(pid, calls) < 2
    ensures Inv(Run(start, calls))
    ensures Failing(start, Run(start, calls), pid, code, if Own(pid, calls) == 0 then Rename else Sync)
  {
    if calls != [] {
      hide Inv;
      var n := |calls| - 1;
      var t := Run(start, calls[..n]);
      FailureAdvances(start, pid, code, calls[..n]);
      StepPreserves(t, calls[n]);
      if !IsOwn(calls[n], pid) {
        OthersAreTurnedAway(t, pid, calls[n]);
      }
    }
  }

  /** Where the transaction can fail before its commit. */
  predicate MayFail(pc: Pc) {
    pc.RunService? || (pc.Writing? && pc.job.Stage?)
  }

  lemma FailureIsNoted(t: State, pid: nat, failing: Choice)
    requires Inv(t) && pid in t.procs && MayFail(t.procs[pid].pc) && !Returns(failing)
    ensures var u := ActStep(t, pid, failing);
      && u.procs[pid].pc == Writing(Failure(if failing.Blocked? && t.procs[pid].pc.RunService? then 2 else 1), Rename)
      && u.journal == t.journal && u.commits == t.commits
      && (t.procs[pid].pc.RunService? ==> u.disk == t.disk)
  {
  }

  /**
   * After any history: a transaction that fails before its commit, and two calls after it that
   * return, whatever others try meanwhile. The output file then durably says FAILED, nothing else
   * on the disk and nothing in the database has changed, and the invocation exits 2 if the service
   * named blockers and 1 if anything else was raised.
   */
  lemma {:induction false} FailureIsReported(s: State, before: seq<Event>, pid: nat, failing: Choice, calls: seq<Event>)
    requires Initial(s) && !Returns(failing)
    requires var t := Run(s, before); pid in t.procs && MayFail(t.procs[pid].pc)
    requires forall i :: 0 <= i < |calls| ==> Undisturbed(calls[i], pid)
    requires calls != [] && IsOwn(calls[|calls| - 1], pid) && Own(pid, calls) == 2
    ensures var t := Run(s, before);
      var failed := Step(t, Act(pid, failing));
      var u := Run(failed, calls);
      && pid in u.procs
      && u.procs[pid].pc == Exited(if failing.Blocked? && t.procs[pid].pc.RunService? then 2 else 1)
      && u.disk.visible == u.disk.durable == failed.disk.visible.(output := Failed)
      && (t.procs[pid].pc.RunService? ==> failed.disk == t.disk)
      && u.journal == t.journal && u.commits == t.commits
  {
    hide Inv, MayFail;
    RunPreserves(s, before);
    var t := Run(s, before);
    var failed := Step(t, Act(pid, failing));
    StepPreserves(t, Act(pid, failing));
    FailureIsNoted(t, pid, failing);
    FailureAdvances(failed, pid, if failing.Blocked? && t.procs[pid].pc.RunService? then 2 else 1, calls[..|calls| - 1]);
  }

  /** Status 2 is only ever reached by a failed transaction, and the output file says so or is in progress. */
  lemma ExitTwoMeansFailed(s: State, events: seq<Event>, pid: nat, choice: Choice)
    requires Initial(s)
    requires var t := Run(s, events); pid in t.procs && !t.procs[pid].pc.Exited?
    ensures var t, u := Run(s, events), Step(Run(s, events), Act(pid, choice));
      && (u.procs[pid].pc.Exited? ==> u.procs[pid].pc.code in {0, 1, 2})
      && (u.procs[pid].pc == Exited(2) ==>
           && u.journal == t.journal && u.commits == t.commits
           && (u.disk.visible.output == Failed || u.disk.visible.output == InProgress))
  {
    RunPreserves(s, events);
    RunSays(s, events);
    LastCallOfFailure(Run(s, events), pid, choice);
  }

  lemma LastCallOfFailure(t: State, pid: nat, choice: Choice)
    requires Inv(t) && pid in t.procs && !t.procs[pid].pc.Exited? && Says(t.disk.visible.output, t.procs[pid].pc)
    ensures var u := ActStep(t, pid, choice);
      && (u.procs[pid].pc.Exited? ==> u.procs[pid].pc.code in {0, 1, 2})
      && (u.procs[pid].pc == Exited(2) ==>
           && u.journal == t.journal && u.commits == t.commits
           && (u.disk.visible.output == Failed || u.disk.visible.output == InProgress))
  {
    hide DiskInv;
  }

  // ----- The machine the operator sees -----

  function Observe(s: State): Completion.Completion<string> {
    if s.journal.None? then Completion.NotDone
    else Completion.Done(s.journal.value.hashes, s.disk.visible.output.Completed?)
  }

  lemma ActStaysShown(s: State, pid: nat, choice: Choice)
    requires Local(s, pid) && s.disk.visible.output.Completed?
    ensures ActStep(s, pid, choice).disk.visible.output.Completed?
  {
  }

  /** The cutover refines the same machine as the journal-checked commands, seen by its hashes. */
  lemma RefinesCompletion(s: State, events: seq<Event>, event: Event)
    requires Initial(s)
    ensures var t := Run(s, events);
      Completion.Next(Observe(t), Observe(Step(t, event)), event.PowerLoss?)
    ensures var t := Run(s, events); Observe(t).NotDone? ==> !t.disk.visible.output.Completed?
  {
    RunPreserves(s, events);
    var t := Run(s, events);
    StepPreserves(t, event);
    if t.disk.visible.output.Completed? && event.Act? && event.pid in t.procs && !t.procs[event.pid].pc.Exited? {
      ActStaysShown(t, event.pid, event.choice);
    }
  }
}
