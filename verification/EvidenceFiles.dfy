/**
 * The two report files of an offline maintenance command, seen through the directory that
 * names them.
 *
 * Report contents are written to a temporary file and fsynced before a rename gives them their
 * name, so a name never refers to a torn report. What is not durable until the directory itself
 * is fsynced is the rename: such operations wait in `pending`, in the order they were issued.
 * A power loss keeps an arbitrary subset of them, each one wholly or not at all.
 */
module EvidenceFiles {

  /** `Unreadable` stands for a file that no run of the command wrote. */
  datatype Report<+E> = Absent | Unreadable | InProgress | Failed | Completed(evidence: E)

  datatype Directory<+E> = Directory(staged: Report<E>, output: Report<E>)

  /** `Publish` renames the staged file over the output file. */
  datatype DirOp<+E> =
    | PutStage(report: Report<E>)
    | PutOutput(report: Report<E>)
    | DropStage
    | Publish(report: Report<E>)

  function Perform<E>(d: Directory<E>, op: DirOp<E>): Directory<E> {
    match op
    case PutStage(r) => d.(staged := r)
    case PutOutput(r) => d.(output := r)
    case DropStage => d.(staged := Absent)
    case Publish(r) => Directory(Absent, r)
  }

  /** The directory after the operations whose positions are in `kept`, in order. */
  function PerformKept<E>(d: Directory<E>, ops: seq<DirOp<E>>, kept: set<nat>): Directory<E> {
    if ops == [] then d
    else
      var before := PerformKept(d, ops[..|ops| - 1], kept);
      if |ops| - 1 in kept then Perform(before, ops[|ops| - 1]) else before
  }

  /** `visible` is what running programs see; `durable` what would survive on its own. */
  datatype Disk<+E> = Disk(durable: Directory<E>, pending: seq<DirOp<E>>, visible: Directory<E>) {
    function Issue(op: DirOp<E>): Disk<E> {
      Disk(durable, pending + [op], Perform(visible, op))
    }

    function Sync(): Disk<E> {
      Disk(visible, [], visible)
    }

    function PowerLoss(kept: set<nat>): Disk<E> {
      var left := PerformKept(durable, pending, kept);
      Disk(left, [], left)
    }
  }

  /** Losing nothing leaves what programs saw. */
  ghost predicate Consistent<E>(disk: Disk<E>) {
    forall kept: set<nat> :: (forall i: nat | i < |disk.pending| :: i in kept) ==>
      PerformKept(disk.durable, disk.pending, kept) == disk.visible
  }

  lemma {:induction false} DisksStayConsistent<E>(disk: Disk<E>, op: DirOp<E>, kept: set<nat>)
    requires Consistent(disk)
    ensures Consistent(disk.Issue(op)) && Consistent(disk.Sync()) && Consistent(disk.PowerLoss(kept))
  {
    forall more: set<nat> | forall i: nat | i < |disk.pending| + 1 :: i in more
      ensures PerformKept(disk.durable, disk.pending + [op], more) == Perform(disk.visible, op)
    {
      assert (disk.pending + [op])[..|disk.pending|] == disk.pending;
      assert |disk.pending| in more;
      assert forall i: nat | i < |disk.pending| :: i in more;
    }
  }

  // ----- Evidence invariants -----

  /** Everything is synced and the stage holds `e`. */
  ghost predicate StageIsDurable<E>(disk: Disk<E>, e: E) {
    disk == disk.Sync() && disk.durable.staged == Completed(e)
  }

  /**
   * The directory carries `e`: the staged report holds it, or it has been published; and the
   * output file claims no other completion.
   */
  ghost predicate Carries<E>(d: Directory<E>, e: E) {
    && (d.output.Completed? ==> d.output.evidence == e)
    && (d.staged == Completed(e) || (d.staged == Absent && d.output == Completed(e)))
  }

  /** Carried by the durable directory, and by every directory a power loss can leave behind. */
  ghost predicate Backed<E>(disk: Disk<E>, e: E) {
    && Carries(disk.durable, e) && Carries(disk.visible, e)
    && forall i | 0 <= i < |disk.pending| :: disk.pending[i] == Publish(Completed(e))
  }

  /** No completion is claimed, now or after any power loss. */
  ghost predicate Unclaimed<E>(disk: Disk<E>) {
    && !disk.durable.output.Completed? && !disk.visible.output.Completed?
    && forall i | 0 <= i < |disk.pending| ::
      var op := disk.pending[i]; !op.Publish? && (op.PutOutput? ==> !op.report.Completed?)
  }

  lemma {:induction false} BackedSurvives<E>(d: Directory<E>, ops: seq<DirOp<E>>, kept: set<nat>, e: E)
    requires Carries(d, e) && forall i | 0 <= i < |ops| :: ops[i] == Publish(Completed(e))
    ensures Carries(PerformKept(d, ops, kept), e)
  {
    if ops != [] {
      BackedSurvives(d, ops[..|ops| - 1], kept, e);
    }
  }

  lemma {:induction false} UnclaimedSurvives<E>(d: Directory<E>, ops: seq<DirOp<E>>, kept: set<nat>)
    requires Unclaimed(Disk(d, ops, d))
    ensures !PerformKept(d, ops, kept).output.Completed?
  {
    if ops != [] {
      UnclaimedSurvives(d, ops[..|ops| - 1], kept);
    }
  }

  /**
   * As `Backed`, for a command that may commit while harmless writes to the output file are
   * still pending: they come before the publication, and then the stage itself is durable.
   */
  ghost predicate BackedBehindWrites<E>(disk: Disk<E>, e: E) {
    && Carries(disk.durable, e) && Carries(disk.visible, e)
    && (forall i | 0 <= i < |disk.pending| :: Harmless(disk.pending[i]) || disk.pending[i] == Publish(Completed(e)))
    && (forall i | 0 <= i < |disk.pending| :: Harmless(disk.pending[i]) ==>
          disk.durable.staged == Completed(e) && forall j | 0 <= j < i :: Harmless(disk.pending[j]))
  }

  ghost predicate Harmless<E>(op: DirOp<E>) {
    op.PutOutput? && !op.report.Completed?
  }

  lemma {:induction false} BackedBehindWritesSurvives<E>(disk: Disk<E>, n: nat, kept: set<nat>, e: E)
    requires BackedBehindWrites(disk, e) && n <= |disk.pending|
    ensures var d := PerformKept(disk.durable, disk.pending[..n], kept);
      && Carries(d, e)
      && (disk.durable.staged == Completed(e) && (forall i | 0 <= i < n :: Harmless(disk.pending[i])) ==>
            d.staged == Completed(e))
  {
    if n > 0 {
      BackedBehindWritesSurvives(disk, n - 1, kept, e);
      assert disk.pending[..n][..n - 1] == disk.pending[..n - 1];
    }
  }
}
