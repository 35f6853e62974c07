/**
 * The resumable migration of historical messages: batches in id order, each committed on its own,
 * with a progress report from which a failed run is resumed.
 */
module MessageMigration {
  import opened Wrappers

  /** A message is migrated once it has a target. */
  datatype Message = Message(id: int, target: Option<string>, body: string)

  /** The target a message must end with, `None` if the message is invalid. */
  type Judge = Message -> Option<string>

  /**
   * What happens around the transaction of a batch; a commit that raises may have taken effect, and
   * the report written after a commit may fail to be written.
   */
  datatype Fault = NoFault | RolledBack | CommittedButRaised | ReportRaises

  datatype Failure = InvalidSourceData | InvalidArgument | MigrationExecutionFailed

  datatype Batch = Batch(
    afterId: int, lastId: Option<int>, sourceRows: nat, targetRows: nat, migratedRows: nat, validatedRows: nat, hasMore: bool)

  datatype Status = InProgress | Completed | Failed

  datatype Report = Report(
    status: Status, failure: Option<Failure>, startAfterId: int, lastId: Option<int>, batchSize: int, batchCount: nat,
    sourceRows: nat, targetRows: nat, migratedRows: nat, validatedRows: nat, batches: seq<Batch>)

  // ----- Messages -----

  ghost predicate Sorted(messages: seq<Message>) {
    forall i, j :: 0 <= i < j < |messages| ==> messages[i].id < messages[j].id
  }

  /** How many messages the cursor has passed. */
  function Passed(messages: seq<Message>, cursor: int): (n: nat)
    ensures n <= |messages|
    ensures forall i :: 0 <= i < n ==> messages[i].id <= cursor
    ensures n < |messages| ==> messages[n].id > cursor
  {
    if messages == [] || messages[0].id > cursor then 0 else 1 + Passed(messages[1..], cursor)
  }

  lemma PassedIs(messages: seq<Message>, cursor: int, n: nat)
    requires Sorted(messages) && n <= |messages|
    requires n > 0 ==> messages[n - 1].id <= cursor
    requires n < |messages| ==> messages[n].id > cursor
    ensures Passed(messages, cursor) == n
  {
    var p := Passed(messages, cursor);
  }

  function Migrated(judge: Judge, m: Message): Message {
    if m.target.None? then m.(target := judge(m)) else m
  }

  /** The messages with those from `lo` to `hi` migrated. */
  function MigratedRange(judge: Judge, messages: seq<Message>, lo: nat, hi: nat): (result: seq<Message>)
    requires lo <= hi <= |messages|
    ensures |result| == |messages|
    ensures forall i :: 0 <= i < |messages| ==>
      result[i] == if lo <= i < hi then Migrated(judge, messages[i]) else messages[i]
  {
    seq(|messages|, i requires 0 <= i < |messages| => if lo <= i < hi then Migrated(judge, messages[i]) else messages[i])
  }

  /** After a batch the cursor is where the batch ended. */
  lemma {:induction false} CursorMovesOn(judge: Judge, messages: seq<Message>, p: nat, q: nat)
    requires Sorted(messages) && p < q <= |messages|
    ensures var after := MigratedRange(judge, messages, p, q);
      Sorted(after) && Passed(after, messages[q - 1].id) == Passed(messages, messages[q - 1].id) == q
  {
    var after := MigratedRange(judge, messages, p, q);
    SameIdsSamePassed(messages, after, messages[q - 1].id);
    PassedIs(messages, messages[q - 1].id, q);
  }

  ghost predicate AllValid(judge: Judge, messages: seq<Message>, lo: nat, hi: nat) {
    hi <= |messages| && forall i :: lo <= i < hi ==> judge(messages[i]).Some?
  }

  /** The ids that migrating from `lo` to `hi` writes. */
  function PendingIds(messages: seq<Message>, lo: nat, hi: nat): seq<int>
    requires hi <= |messages|
  {
    if hi <= lo then []
    else PendingIds(messages, lo, hi - 1) + if messages[hi - 1].target.None? then [messages[hi - 1].id] else []
  }

  lemma {:induction false} PendingIdsAdd(messages: seq<Message>, lo: nat, middle: nat, hi: nat)
    requires lo <= middle <= hi <= |messages|
    ensures PendingIds(messages, lo, hi) == PendingIds(messages, lo, middle) + PendingIds(messages, middle, hi)
  {
    if middle < hi {
      PendingIdsAdd(messages, lo, middle, hi - 1);
    }
  }

  lemma {:induction false} PendingIdsAgree(a: seq<Message>, b: seq<Message>, lo: nat, hi: nat)
    requires hi <= |a| && hi <= |b| && forall i :: lo <= i < hi ==> a[i] == b[i]
    ensures PendingIds(a, lo, hi) == PendingIds(b, lo, hi)
  {
    if lo < hi {
      PendingIdsAgree(a, b, lo, hi - 1);
    }
  }

  lemma {:induction false} NothingPending(messages: seq<Message>, lo: nat, hi: nat)
    requires hi <= |messages| && forall i :: lo <= i < hi ==> messages[i].target.Some?
    ensures PendingIds(messages, lo, hi) == []
  {
    if lo < hi {
      NothingPending(messages, lo, hi - 1);
    }
  }

  lemma {:induction false} PendingIdFrom(messages: seq<Message>, lo: nat, hi: nat, i: nat) returns (k: nat)
    requires hi <= |messages| && i < |PendingIds(messages, lo, hi)|
    ensures lo <= k < hi && messages[k].id == PendingIds(messages, lo, hi)[i] && messages[k].target.None?
  {
    if i < |PendingIds(messages, lo, hi - 1)| {
      k := PendingIdFrom(messages, lo, hi - 1, i);
    } else {
      k := hi - 1;
    }
  }

  /** The ids written are those of the messages in between that have no target. */
  lemma {:induction false} PendingIdsAre(messages: seq<Message>, lo: nat, hi: nat, id: int)
    requires hi <= |messages|
    ensures id in PendingIds(messages, lo, hi) <==> exists k :: lo <= k < hi && messages[k].target.None? && messages[k].id == id
  {
    if lo < hi {
      PendingIdsAre(messages, lo, hi - 1, id);
    }
  }

  /** Ids are written in order, none twice. */
  lemma {:induction false} PendingIdsIncrease(messages: seq<Message>, lo: nat, hi: nat, i: nat, j: nat)
    requires Sorted(messages) && hi <= |messages| && i < j < |PendingIds(messages, lo, hi)|
    ensures PendingIds(messages, lo, hi)[i] < PendingIds(messages, lo, hi)[j]
  {
    if j < |PendingIds(messages, lo, hi - 1)| {
      PendingIdsIncrease(messages, lo, hi - 1, i, j);
    } else {
      var k := PendingIdFrom(messages, lo, hi - 1, i);
    }
  }

  // ----- Runs -----

  datatype Run = Run(messages: seq<Message>, batches: seq<Batch>, written: seq<int>, failure: Option<Failure>)

  function End(n: nat, p: nat, size: nat): nat {
    if p + size < n then p + size else n
  }

  function BatchOf(messages: seq<Message>, cursor: int, p: nat, q: nat): Batch
    requires p <= q <= |messages|
  {
    Batch(cursor, if p < q then Some(messages[q - 1].id) else None,
          q - p, q - p, |PendingIds(messages, p, q)|, q - p, q < |messages|)
  }

  /** The run from a cursor, where `faults(n)` befalls its first batch. */
  ghost function RunFrom(judge: Judge, messages: seq<Message>, cursor: int, size: nat, faults: nat -> Fault, n: nat): Run
    requires Sorted(messages) && size >= 1
    decreases |messages| - Passed(messages, cursor)
  {
    var p := Passed(messages, cursor);
    var q := End(|messages|, p, size);
    if faults(n).RolledBack? then Run(messages, [], [], Some(MigrationExecutionFailed))
    else if !AllValid(judge, messages, p, q) then Run(messages, [], [], Some(InvalidSourceData))
    else
      var after, written := MigratedRange(judge, messages, p, q), PendingIds(messages, p, q);
      if faults(n).CommittedButRaised? then Run(after, [], written, Some(MigrationExecutionFailed))
      else if p == q then Run(after, [], [], None)
      else
        var batch := BatchOf(messages, cursor, p, q);
        if faults(n).ReportRaises? then Run(after, [batch], written, Some(MigrationExecutionFailed))
        else if q == |messages| then Run(after, [batch], written, None)
        else
          CursorMovesOn(judge, messages, p, q);
          var rest := RunFrom(judge, after, messages[q - 1].id, size, faults, n + 1);
          Run(rest.messages, [batch] + rest.batches, written + rest.written, rest.failure)
  }

  const NO_FAULTS: nat -> Fault := n => NoFault

  function ReportOf(status: Status, failure: Option<Failure>, start: int, size: int, batches: seq<Batch>): Report {
    Report(status, failure, start, if batches == [] then None else batches[|batches| - 1].lastId, size, |batches|,
      Sum(batches, (b: Batch) => b.sourceRows), Sum(batches, (b: Batch) => b.targetRows),
      Sum(batches, (b: Batch) => b.migratedRows), Sum(batches, (b: Batch) => b.validatedRows), batches)
  }

  /** Where the report of a run says to go on. */
  function ResumeAt(cursor: int, batches: seq<Batch>): int {
    if batches == [] then cursor else batches[|batches| - 1].lastId.GetOr(cursor)
  }

  function Sum(batches: seq<Batch>, count: Batch -> nat): nat {
    if batches == [] then 0 else Sum(batches[..|batches| - 1], count) + count(batches[|batches| - 1])
  }

  /** How the run fails with its first batch, or goes on. */
  lemma {:induction false} FailureOfFirst(judge: Judge, messages: seq<Message>, cursor: int, size: nat, faults: nat -> Fault, n: nat)
    requires Sorted(messages) && size >= 1
    ensures var p := Passed(messages, cursor);
      var q := End(|messages|, p, size);
      var failure := RunFrom(judge, messages, cursor, size, faults, n).failure;
      if faults(n).RolledBack? then failure == Some(MigrationExecutionFailed)
      else if !AllValid(judge, messages, p, q) then failure == Some(InvalidSourceData)
      else if faults(n).CommittedButRaised? then failure == Some(MigrationExecutionFailed)
      else if p < q && faults(n).ReportRaises? then failure == Some(MigrationExecutionFailed)
      else if p < q < |messages| then
        var after := MigratedRange(judge, messages, p, q);
        Sorted(after) && failure == RunFrom(judge, after, messages[q - 1].id, size, faults, n + 1).failure
      else failure.None?
  {
    hide MigratedRange, PendingIds, Passed, AllValid;
    var p := Passed(messages, cursor);
    var q := End(|messages|, p, size);
    if p < q < |messages| {
      CursorMovesOn(judge, messages, p, q);
    }
  }

  /** A run without faults completes exactly if every message beyond the cursor is valid. */
  lemma {:induction false} CompletesIffAllValid(judge: Judge, messages: seq<Message>, cursor: int, size: nat, n: nat)
    requires Sorted(messages) && size >= 1
    ensures RunFrom(judge, messages, cursor, size, NO_FAULTS, n).failure ==
      if AllValid(judge, messages, Passed(messages, cursor), |messages|) then None else Some(InvalidSourceData)
    decreases |messages| - Passed(messages, cursor)
  {
    var p := Passed(messages, cursor);
    var q := End(|messages|, p, size);
    hide RunFrom, MigratedRange, PendingIds, Passed, AllValid;
    ValidInParts(judge, messages, p, q);
    FailureOfFirst(judge, messages, cursor, size, NO_FAULTS, n);
    if p < q < |messages| && AllValid(judge, messages, p, q) {
      CursorMovesOn(judge, messages, p, q);
      CompletesIffAllValid(judge, MigratedRange(judge, messages, p, q), messages[q - 1].id, size, n + 1);
    }
  }

  lemma EndIsInside(n: nat, p: nat, size: nat)
    requires p <= n
    ensures p <= End(n, p, size) <= n
  {
  }

  /** Whatever happens around the transactions, only an invalid message is reported as invalid source data. */
  lemma {:induction false} InvalidDataIsThere(judge: Judge, messages: seq<Message>, cursor: int, size: nat, faults: nat -> Fault, n: nat)
    requires Sorted(messages) && size >= 1
    requires RunFrom(judge, messages, cursor, size, faults, n).failure == Some(InvalidSourceData)
    ensures !AllValid(judge, messages, Passed(messages, cursor), |messages|)
    decreases |messages| - Passed(messages, cursor)
  {
    hide RunFrom, MigratedRange, PendingIds, Passed, AllValid, End, Sorted;
    var p := Passed(messages, cursor);
    var q := End(|messages|, p, size);
    EndIsInside(|messages|, p, size);
    ValidInParts(judge, messages, p, q);
    FailureOfFirst(judge, messages, cursor, size, faults, n);
    if faults(n).NoFault? && p < q < |messages| && AllValid(judge, messages, p, q) {
      CursorMovesOn(judge, messages, p, q);
      InvalidDataIsThere(judge, MigratedRange(judge, messages, p, q), messages[q - 1].id, size, faults, n + 1);
    }
  }

  lemma ValidInParts(judge: Judge, messages: seq<Message>, p: nat, q: nat)
    requires p <= q <= |messages|
    ensures var n := |messages|;
      && (AllValid(judge, messages, p, n) <==> AllValid(judge, messages, p, q) && AllValid(judge, messages, q, n))
      && (AllValid(judge, MigratedRange(judge, messages, p, q), q, n) <==> AllValid(judge, messages, q, n))
      && AllValid(judge, messages, n, n)
  {
  }

  /** The first `k` batches say to go on at a place from `p` to `q`. */
  ghost predicate ResumesBetween(messages: seq<Message>, cursor: int, batches: seq<Batch>, k: nat, p: nat, q: nat)
    requires k <= |batches|
  {
    p <= Passed(messages, ResumeAt(cursor, batches[..k])) <= q
  }

  ghost predicate AllResumeBetween(messages: seq<Message>, cursor: int, batches: seq<Batch>, p: nat, q: nat) {
    forall k: nat :: k <= |batches| ==> ResumesBetween(messages, cursor, batches, k, p, q)
  }

  /** How far a run has come: up to `q` is written, and no report of it says to go on beyond that. */
  ghost predicate ComesTo(judge: Judge, messages: seq<Message>, p: nat, cursor: int, r: Run, q: nat) {
    && p <= q <= |messages|
    && AllValid(judge, messages, p, q)
    && r.messages == MigratedRange(judge, messages, p, q)
    && r.written == PendingIds(messages, p, q)
    && (forall i :: 0 <= i < |r.batches| ==> r.batches[i].lastId.Some?)
    && AllResumeBetween(messages, cursor, r.batches, p, q)
  }

  /** Every run, failed or not, has migrated a stretch of messages in id order, each once. */
  lemma {:induction false} RunMigratesAStretch(
      judge: Judge, messages: seq<Message>, cursor: int, size: nat, faults: nat -> Fault, n: nat)
      returns (q: nat)
    requires Sorted(messages) && size >= 1
    ensures var r, p := RunFrom(judge, messages, cursor, size, faults, n), Passed(messages, cursor);
      && ComesTo(judge, messages, p, cursor, r, q)
      && (r.failure.None? ==> q == |messages|)
    decreases |messages| - Passed(messages, cursor)
  {
    hide ComesTo, MigratedRange, PendingIds, Passed, AllValid;
    var p := Passed(messages, cursor);
    q := End(|messages|, p, size);
    if faults(n).RolledBack? || !AllValid(judge, messages, p, q) {
      StopsAtOnce(judge, messages, cursor, size, faults, n);
      q := p;
    } else if faults(n).NoFault? && p < q < |messages| {
      CursorMovesOn(judge, messages, p, q);
      var middle, after := q, MigratedRange(judge, messages, p, q);
      q := RunMigratesAStretch(judge, after, messages[middle - 1].id, size, faults, n + 1);
      RunGoesOn(judge, messages, cursor, size, faults, n);
      var rest := RunFrom(judge, after, messages[middle - 1].id, size, faults, n + 1);
      StretchesAreOne(judge, messages, cursor, p, middle, rest, q);
    } else if p < q && !faults(n).CommittedButRaised? {
      LastBatchIsReported(judge, messages, cursor, size, faults, n);
    } else {
      LastBatchIsNot(judge, messages, cursor, size, faults, n);
    }
  }

  lemma LastBatchIsReported(judge: Judge, messages: seq<Message>, cursor: int, size: nat, faults: nat -> Fault, n: nat)
    requires Sorted(messages) && size >= 1
    requires var p := Passed(messages, cursor);
      var q := End(|messages|, p, size);
      p < q && AllValid(judge, messages, p, q) && (faults(n).ReportRaises? || (faults(n).NoFault? && q == |messages|))
    ensures var r, p := RunFrom(judge, messages, cursor, size, faults, n), Passed(messages, cursor);
      var q := End(|messages|, p, size);
      ComesTo(judge, messages, p, cursor, r, q) && (r.failure.None? ==> q == |messages|)
  {
    var p := Passed(messages, cursor);
    var q := End(|messages|, p, size);
    hide RunFrom, ComesTo, BatchOf;
    CursorMovesOn(judge, messages, p, q);
    LastBatchEnds(judge, messages, cursor, size, faults, n);
    OneBatchComesTo(judge, messages, cursor, p, q, RunFrom(judge, messages, cursor, size, faults, n).failure);
  }

  lemma LastBatchEnds(judge: Judge, messages: seq<Message>, cursor: int, size: nat, faults: nat -> Fault, n: nat)
    requires Sorted(messages) && size >= 1
    requires var p := Passed(messages, cursor);
      var q := End(|messages|, p, size);
      p < q && AllValid(judge, messages, p, q) && (faults(n).ReportRaises? || (faults(n).NoFault? && q == |messages|))
    ensures var r, p := RunFrom(judge, messages, cursor, size, faults, n), Passed(messages, cursor);
      var q := End(|messages|, p, size);
      && r == Run(MigratedRange(judge, messages, p, q), [BatchOf(messages, cursor, p, q)], PendingIds(messages, p, q), r.failure)
      && (r.failure.None? ==> q == |messages|)
  {
    hide MigratedRange, PendingIds, Passed, AllValid;
  }

  lemma OneBatchComesTo(judge: Judge, messages: seq<Message>, cursor: int, p: nat, q: nat, failure: Option<Failure>)
    requires Sorted(messages) && p < q <= |messages| && AllValid(judge, messages, p, q)
    requires p == Passed(messages, cursor) && q == Passed(messages, messages[q - 1].id)
    ensures ComesTo(judge, messages, p, cursor,
      Run(MigratedRange(judge, messages, p, q), [BatchOf(messages, cursor, p, q)], PendingIds(messages, p, q), failure), q)
  {
    hide MigratedRange, PendingIds, Passed, AllValid;
    var batches := [BatchOf(messages, cursor, p, q)];
    assert batches[..0] == [] && batches[..1] == batches;
    assert ResumesBetween(messages, cursor, batches, 0, p, q) && ResumesBetween(messages, cursor, batches, 1, p, q);
  }

  lemma LastBatchIsNot(judge: Judge, messages: seq<Message>, cursor: int, size: nat, faults: nat -> Fault, n: nat)
    requires Sorted(messages) && size >= 1 && !faults(n).RolledBack?
    requires var p := Passed(messages, cursor);
      var q := End(|messages|, p, size);
      AllValid(judge, messages, p, q) && (faults(n).CommittedButRaised? || p == q)
    ensures var r, p := RunFrom(judge, messages, cursor, size, faults, n), Passed(messages, cursor);
      var q := End(|messages|, p, size);
      ComesTo(judge, messages, p, cursor, r, q) && (r.failure.None? ==> q == |messages|)
  {
  }

  lemma StopsAtOnce(judge: Judge, messages: seq<Message>, cursor: int, size: nat, faults: nat -> Fault, n: nat)
    requires Sorted(messages) && size >= 1
    requires var p := Passed(messages, cursor);
      faults(n).RolledBack? || !AllValid(judge, messages, p, End(|messages|, p, size))
    ensures var r, p := RunFrom(judge, messages, cursor, size, faults, n), Passed(messages, cursor);
      ComesTo(judge, messages, p, cursor, r, p) && r.failure.Some?
  {
    var p := Passed(messages, cursor);
    assert MigratedRange(judge, messages, p, p) == messages;
  }

  lemma {:induction false} RunGoesOn(judge: Judge, messages: seq<Message>, cursor: int, size: nat, faults: nat -> Fault, n: nat)
    requires Sorted(messages) && size >= 1 && faults(n).NoFault?
    requires var p := Passed(messages, cursor); AllValid(judge, messages, p, p + size) && p + size < |messages|
    ensures var p := Passed(messages, cursor);
      var q, after := p + size, MigratedRange(judge, messages, p, p + size);
      Sorted(after) &&
      var rest := RunFrom(judge, after, messages[q - 1].id, size, faults, n + 1);
      RunFrom(judge, messages, cursor, size, faults, n) ==
        Run(rest.messages, [BatchOf(messages, cursor, p, q)] + rest.batches, PendingIds(messages, p, q) + rest.written, rest.failure)
  {
    hide MigratedRange, PendingIds, Passed, AllValid, BatchOf;
    var p := Passed(messages, cursor);
    var q := p + size;
    CursorMovesOn(judge, messages, p, q);
    assert End(|messages|, p, size) == q;
    hide End;
  }

  lemma {:induction false} StretchesAreOne(
      judge: Judge, messages: seq<Message>, cursor: int, p: nat, middle: nat, rest: Run, q: nat)
    requires Sorted(messages) && p < middle <= |messages| && AllValid(judge, messages, p, middle)
    requires p == Passed(messages, cursor)
    requires ComesTo(judge, MigratedRange(judge, messages, p, middle), middle, messages[middle - 1].id, rest, q)
    ensures ComesTo(judge, messages, p, cursor,
      Run(rest.messages, [BatchOf(messages, cursor, p, middle)] + rest.batches,
          PendingIds(messages, p, middle) + rest.written, rest.failure), q)
  {
    hide Passed, ResumesBetween;
    var batches := [BatchOf(messages, cursor, p, middle)] + rest.batches;
    StretchesJoin(judge, messages, p, middle, q);
    forall k: nat | k <= |batches| ensures ResumesBetween(messages, cursor, batches, k, p, q) {
      ResumesInOne(judge, messages, cursor, p, middle, rest.batches, k, q);
    }
  }

  lemma {:induction false} ResumesInOne(
      judge: Judge, messages: seq<Message>, cursor: int, p: nat, middle: nat, rest: seq<Batch>, k: nat, q: nat)
    requires Sorted(messages) && p < middle <= q <= |messages| && p == Passed(messages, cursor) && k <= |rest| + 1
    requires forall i :: 0 <= i < |rest| ==> rest[i].lastId.Some?
    requires AllResumeBetween(MigratedRange(judge, messages, p, middle), messages[middle - 1].id, rest, middle, q)
    ensures ResumesBetween(messages, cursor, [BatchOf(messages, cursor, p, middle)] + rest, k, p, q)
  {
    hide Passed;
    var first := BatchOf(messages, cursor, p, middle);
    if k == 0 {
      assert ([first] + rest)[..0] == [];
    } else {
      var at := ResumeAt(messages[middle - 1].id, rest[..k - 1]);
      assert ([first] + rest)[..k] == [first] + rest[..k - 1];
      assert ResumeAt(cursor, [first] + rest[..k - 1]) == at;
      assert ResumesBetween(MigratedRange(judge, messages, p, middle), messages[middle - 1].id, rest, k - 1, middle, q);
      SameIdsSamePassed(messages, MigratedRange(judge, messages, p, middle), at);
    }
  }

  lemma StretchesJoin(judge: Judge, messages: seq<Message>, p: nat, middle: nat, q: nat)
    requires p <= middle <= q <= |messages|
    ensures var after := MigratedRange(judge, messages, p, middle);
      && MigratedRange(judge, after, middle, q) == MigratedRange(judge, messages, p, q)
      && (AllValid(judge, messages, p, middle) && AllValid(judge, after, middle, q) ==> AllValid(judge, messages, p, q))
      && PendingIds(messages, p, q) == PendingIds(messages, p, middle) + PendingIds(after, middle, q)
  {
    PendingIdsAdd(messages, p, middle, q);
    PendingIdsAgree(messages, MigratedRange(judge, messages, p, middle), middle, q);
  }

  lemma SameIdsSamePassed(a: seq<Message>, b: seq<Message>, cursor: int)
    requires Sorted(a) && |a| == |b| && forall i :: 0 <= i < |a| ==> b[i].id == a[i].id
    ensures Sorted(b) && Passed(a, cursor) == Passed(b, cursor)
  {
    PassedIs(a, cursor, Passed(b, cursor));
  }

  /** The message is as it was, but has a target: the one it had, or the one it must get. */
  predicate IsMigrated(judge: Judge, before: Message, after: Message) {
    && after.id == before.id && after.body == before.body && after.target.Some?
    && after.target == if before.target.Some? then before.target else judge(before)
  }

  /** How many batches so many messages take. */
  function BatchesFor(n: nat, size: nat): nat
    requires size >= 1
  {
    if n == 0 then 0 else if n <= size then 1 else 1 + BatchesFor(n - size, size)
  }

  /**
   * A completed run has migrated every message beyond the cursor and no other, each once and in id
   * order, and its report counts exactly those messages and ends with the last of them.
   */
  lemma CompletedRunMigratesAll(judge: Judge, messages: seq<Message>, cursor: int, size: nat, faults: nat -> Fault)
    requires Sorted(messages) && size >= 1
    requires RunFrom(judge, messages, cursor, size, faults, 0).failure.None?
    ensures var r, p := RunFrom(judge, messages, cursor, size, faults, 0), Passed(messages, cursor);
      && r.messages == MigratedRange(judge, messages, p, |messages|)
      && (forall i :: p <= i < |messages| ==> IsMigrated(judge, messages[i], r.messages[i]))
      && r.written == PendingIds(messages, p, |messages|)
    ensures var r, n := RunFrom(judge, messages, cursor, size, faults, 0), |messages| - Passed(messages, cursor);
      var report := ReportOf(Completed, None, cursor, size, r.batches);
      && report.startAfterId == cursor && report.batchSize == size && report.status == Completed && report.failure.None?
      && report.sourceRows == n && report.targetRows == n && report.validatedRows == n && report.migratedRows == |r.written|
      && report.batchCount == BatchesFor(n, size) == |report.batches|
      && report.lastId == if n == 0 then None else Some(messages[|messages| - 1].id)
  {
    var p := Passed(messages, cursor);
    var q := RunMigratesAStretch(judge, messages, cursor, size, faults, 0);
    BatchesCount(judge, messages, cursor, size, faults, 0);
    BatchesEnd(judge, messages, cursor, size, faults, 0);
    forall i | p <= i < |messages| ensures IsMigrated(judge, messages[i], RunFrom(judge, messages, cursor, size, faults, 0).messages[i]) {
      assert judge(messages[i]).Some?;
    }
  }

  lemma {:induction false} SumOfFront(first: Batch, rest: seq<Batch>, count: Batch -> nat)
    ensures Sum([first] + rest, count) == count(first) + Sum(rest, count)
  {
    if rest == [] {
      assert ([first] + rest)[..0] == [];
    } else {
      assert ([first] + rest)[..|rest|] == [first] + rest[..|rest| - 1];
      SumOfFront(first, rest[..|rest| - 1], count);
    }
  }

  lemma {:induction false} BatchesCount(
      judge: Judge, messages: seq<Message>, cursor: int, size: nat, faults: nat -> Fault, n: nat)
    requires Sorted(messages) && size >= 1
    requires RunFrom(judge, messages, cursor, size, faults, n).failure.None?
    ensures var r := RunFrom(judge, messages, cursor, size, faults, n);
      && Sum(r.batches, (b: Batch) => b.sourceRows) == |messages| - Passed(messages, cursor)
      && Sum(r.batches, (b: Batch) => b.targetRows) == |messages| - Passed(messages, cursor)
      && Sum(r.batches, (b: Batch) => b.validatedRows) == |messages| - Passed(messages, cursor)
      && Sum(r.batches, (b: Batch) => b.migratedRows) == |r.written|
    decreases |messages| - Passed(messages, cursor)
  {
    hide RunFrom, MigratedRange, PendingIds, Passed;
    var p := Passed(messages, cursor);
    var q := End(|messages|, p, size);
    CompletedBatch(judge, messages, cursor, size, faults, n);
    if p < q {
      var batch, rest := BatchOf(messages, cursor, p, q), [];
      if q < |messages| {
        CursorMovesOn(judge, messages, p, q);
        var after := MigratedRange(judge, messages, p, q);
        RunGoesOn(judge, messages, cursor, size, faults, n);
        BatchesCount(judge, after, messages[q - 1].id, size, faults, n + 1);
        rest := RunFrom(judge, after, messages[q - 1].id, size, faults, n + 1).batches;
      }
      SumOfFront(batch, rest, (b: Batch) => b.sourceRows);
      SumOfFront(batch, rest, (b: Batch) => b.targetRows);
      SumOfFront(batch, rest, (b: Batch) => b.validatedRows);
      SumOfFront(batch, rest, (b: Batch) => b.migratedRows);
      assert [batch] + [] == [batch];
    }
  }

  lemma {:induction false} BatchesEnd(
      judge: Judge, messages: seq<Message>, cursor: int, size: nat, faults: nat -> Fault, n: nat)
    requires Sorted(messages) && size >= 1
    requires RunFrom(judge, messages, cursor, size, faults, n).failure.None?
    ensures var batches := RunFrom(judge, messages, cursor, size, faults, n).batches;
      && |batches| == BatchesFor(|messages| - Passed(messages, cursor), size)
      && (batches != [] ==> batches[|batches| - 1].lastId == Some(messages[|messages| - 1].id))
    decreases |messages| - Passed(messages, cursor)
  {
    hide RunFrom, MigratedRange, PendingIds, Passed;
    var p := Passed(messages, cursor);
    var q := End(|messages|, p, size);
    CompletedBatch(judge, messages, cursor, size, faults, n);
    if p < q < |messages| {
      CursorMovesOn(judge, messages, p, q);
      var after := MigratedRange(judge, messages, p, q);
      RunGoesOn(judge, messages, cursor, size, faults, n);
      BatchesEnd(judge, after, messages[q - 1].id, size, faults, n + 1);
      var first, rest := BatchOf(messages, cursor, p, q), RunFrom(judge, after, messages[q - 1].id, size, faults, n + 1).batches;
      assert ([first] + rest)[|rest|] == if rest == [] then first else rest[|rest| - 1];
    }
  }

  /** A batch read from `from` on counts the messages up to its last id; only the last one ends the table. */
  ghost predicate IsLinked(messages: seq<Message>, size: nat, b: Batch, from: int, last: bool) {
    && b.afterId == from && b.lastId.Some?
    && var p, q := Passed(messages, from), Passed(messages, b.lastId.value);
       && p < q && b.lastId.value == messages[q - 1].id && q - p <= size
       && b.sourceRows == b.targetRows == b.validatedRows == q - p
       && (b.hasMore <==> q < |messages|) && (b.hasMore ==> q - p == size) && (!last ==> b.hasMore)
  }

  /** Where batch `i` is read from: behind the one before. */
  function From(cursor: int, batches: seq<Batch>, i: nat): int
    requires i <= |batches|
  {
    if i == 0 then cursor else batches[i - 1].lastId.GetOr(cursor)
  }

  ghost predicate AllLinked(messages: seq<Message>, cursor: int, size: nat, batches: seq<Batch>) {
    forall i: nat :: i < |batches| ==> IsLinked(messages, size, batches[i], From(cursor, batches, i), i == |batches| - 1)
  }

  lemma {:induction false} OneBatchIsLinked(messages: seq<Message>, cursor: int, size: nat)
    requires Sorted(messages) && size >= 1
    requires Passed(messages, cursor) < |messages|
    ensures var p := Passed(messages, cursor);
      IsLinked(messages, size, BatchOf(messages, cursor, p, End(|messages|, p, size)), cursor, true)
  {
    hide Passed, PendingIds;
    var p := Passed(messages, cursor);
    var q := End(|messages|, p, size);
    PassedIs(messages, messages[q - 1].id, q);
  }

  /** In every run, failed or not, the batches reported follow each other without a gap. */
  lemma {:induction false} BatchesAreLinked(
      judge: Judge, messages: seq<Message>, cursor: int, size: nat, faults: nat -> Fault, n: nat)
    requires Sorted(messages) && size >= 1
    ensures AllLinked(messages, cursor, size, RunFrom(judge, messages, cursor, size, faults, n).batches)
    decreases |messages| - Passed(messages, cursor)
  {
    hide RunFrom, MigratedRange, PendingIds, Passed, BatchOf, AllValid, IsLinked;
    var p := Passed(messages, cursor);
    var q := End(|messages|, p, size);
    if p < |messages| {
      OneBatchIsLinked(messages, cursor, size);
    }
    var first := BatchOf(messages, cursor, p, q);
    if faults(n).NoFault? && p < q < |messages| && AllValid(judge, messages, p, q) {
      CursorMovesOn(judge, messages, p, q);
      var after := MigratedRange(judge, messages, p, q);
      RunGoesOn(judge, messages, cursor, size, faults, n);
      BatchesAreLinked(judge, after, messages[q - 1].id, size, faults, n + 1);
      var rest := RunFrom(judge, after, messages[q - 1].id, size, faults, n + 1).batches;
      MigratingKeepsIds(judge, messages, p, q);
      StaysLinked(messages, after, messages[q - 1].id, size, rest);
      BatchEndsAt(messages, cursor, p, q);
      LinkedInOne(messages, cursor, size, first, rest);
    } else {
      OneBatchAtMost(judge, messages, cursor, size, faults, n);
    }
  }

  lemma OneBatchAtMost(judge: Judge, messages: seq<Message>, cursor: int, size: nat, faults: nat -> Fault, n: nat)
    requires Sorted(messages) && size >= 1
    requires var p := Passed(messages, cursor);
      var q := End(|messages|, p, size);
      !(faults(n).NoFault? && p < q < |messages| && AllValid(judge, messages, p, q))
    ensures var p, batches := Passed(messages, cursor), RunFrom(judge, messages, cursor, size, faults, n).batches;
      batches == [] || (p < |messages| && batches == [BatchOf(messages, cursor, p, End(|messages|, p, size))])
  {
    hide MigratedRange, PendingIds, Passed, BatchOf, AllValid;
  }

  ghost predicate SameIds(a: seq<Message>, b: seq<Message>) {
    |a| == |b| && forall i :: 0 <= i < |a| ==> b[i].id == a[i].id
  }

  lemma LinkedAlike(a: seq<Message>, b: seq<Message>, size: nat, batch: Batch, from: int, last: bool)
    requires Sorted(a) && SameIds(a, b) && IsLinked(b, size, batch, from, last)
    ensures IsLinked(a, size, batch, from, last)
  {
    hide Passed;
    SameIdsSamePassed(a, b, from);
    SameIdsSamePassed(a, b, batch.lastId.value);
  }

  /** The batches of the rest count the same messages in the whole. */
  lemma StaysLinked(messages: seq<Message>, after: seq<Message>, cursor: int, size: nat, rest: seq<Batch>)
    requires Sorted(messages) && SameIds(messages, after) && AllLinked(after, cursor, size, rest)
    ensures AllLinked(messages, cursor, size, rest)
  {
    hide IsLinked, SameIds, Sorted;
    forall i: nat | i < |rest| ensures IsLinked(messages, size, rest[i], From(cursor, rest, i), i == |rest| - 1) {
      LinkedAlike(messages, after, size, rest[i], From(cursor, rest, i), i == |rest| - 1);
    }
  }

  lemma MigratingKeepsIds(judge: Judge, messages: seq<Message>, p: nat, q: nat)
    requires p <= q <= |messages|
    ensures SameIds(messages, MigratedRange(judge, messages, p, q))
  {
  }

  lemma BatchEndsAt(messages: seq<Message>, cursor: int, p: nat, q: nat)
    requires p < q <= |messages|
    ensures BatchOf(messages, cursor, p, q).lastId == Some(messages[q - 1].id)
    ensures BatchOf(messages, cursor, p, q).hasMore == (q < |messages|)
  {
  }

  lemma LinkedInOne(messages: seq<Message>, cursor: int, size: nat, first: Batch, rest: seq<Batch>)
    requires IsLinked(messages, size, first, cursor, true) && first.hasMore
    requires AllLinked(messages, first.lastId.value, size, rest)
    ensures AllLinked(messages, cursor, size, [first] + rest)
  {
    var batches := [first] + rest;
    assert IsLinked(messages, size, first, cursor, false);
    forall i: nat | i < |batches| ensures IsLinked(messages, size, batches[i], From(cursor, batches, i), i == |batches| - 1) {
      if i > 0 {
        hide IsLinked;
        assert IsLinked(messages, size, rest[i - 1], From(first.lastId.value, rest, i - 1), i - 1 == |rest| - 1);
        if i > 1 {
          LinkedHasLast(messages, size, rest[i - 2], From(first.lastId.value, rest, i - 2), i - 2 == |rest| - 1);
        }
      }
    }
  }

  lemma LinkedHasLast(messages: seq<Message>, size: nat, b: Batch, from: int, last: bool)
    requires IsLinked(messages, size, b, from, last)
    ensures b.lastId.Some?
  {
  }

  lemma CompletedBatch(judge: Judge, messages: seq<Message>, cursor: int, size: nat, faults: nat -> Fault, n: nat)
    requires Sorted(messages) && size >= 1
    requires RunFrom(judge, messages, cursor, size, faults, n).failure.None?
    ensures var r, p := RunFrom(judge, messages, cursor, size, faults, n), Passed(messages, cursor);
      var q := End(|messages|, p, size);
      && (p < q ==> faults(n).NoFault?) && AllValid(judge, messages, p, q)
      && (p == q ==> r.batches == [] && r.written == [])
      && (p < q == |messages| ==> r.batches == [BatchOf(messages, cursor, p, q)] && r.written == PendingIds(messages, p, q))
  {
    hide MigratedRange, PendingIds, Passed;
  }

  /** A message that got its target is valid with it. */
  ghost predicate Stable(judge: Judge) {
    forall m: Message :: judge(m).Some? ==> judge(Migrated(judge, m)).Some?
  }

  /** A report that the script, started so, can leave on disk: it says how far some of the batches came. */
  ghost predicate CanLeave(judge: Judge, messages: seq<Message>, start: int, size: nat, faults: nat -> Fault, report: Report)
    requires Sorted(messages) && size >= 1
  {
    var r := RunFrom(judge, messages, start, size, faults, 0);
    exists k: nat :: k <= |r.batches| && report == ReportOf(report.status, report.failure, start, size, r.batches[..k])
  }

  /** Where a report says to go on: behind its last id, or where its run began. */
  function Cursor(report: Report): int {
    report.lastId.GetOr(report.startAfterId)
  }

  lemma CursorOfReport(status: Status, failure: Option<Failure>, start: int, size: int, batches: seq<Batch>)
    requires forall i :: 0 <= i < |batches| ==> batches[i].lastId.Some?
    ensures Cursor(ReportOf(status, failure, start, size, batches)) == ResumeAt(start, batches)
  {
  }

  /**
   * A run that failed, resumed with any batch size where any report it can leave says, leaves the
   * messages that one uninterrupted run leaves, and the two have written the same ids in the same
   * order, none twice; also when a commit took effect although it raised, and when later reports
   * could not be written.
   */
  lemma {:induction false} ResumedRunEqualsUninterrupted(
      judge: Judge, messages: seq<Message>, start: int, size: nat, faults: nat -> Fault, report: Report, resumedSize: nat)
    requires Sorted(messages) && size >= 1 && resumedSize >= 1 && Stable(judge)
    requires RunFrom(judge, messages, start, size, NO_FAULTS, 0).failure.None?
    requires CanLeave(judge, messages, start, size, faults, report)
    ensures var failed := RunFrom(judge, messages, start, size, faults, 0);
      Sorted(failed.messages) &&
      var resumed := RunFrom(judge, failed.messages, report.lastId.GetOr(report.startAfterId), resumedSize, NO_FAULTS, 0);
      var whole := RunFrom(judge, messages, start, size, NO_FAULTS, 0);
      resumed.failure.None? && resumed.messages == whole.messages && failed.written + resumed.written == whole.written
  {
    hide RunFrom, AllValid, PendingIds, MigratedRange, Passed, Stable, Sum, IsMigrated, ReportOf, ResumesBetween;
    var p := Passed(messages, start);
    var failed := RunFrom(judge, messages, start, size, faults, 0);
    var k: nat :| k <= |failed.batches| && report == ReportOf(report.status, report.failure, start, size, failed.batches[..k]);
    CompletesIffAllValid(judge, messages, start, size, 0);
    CompletedRunMigratesAll(judge, messages, start, size, NO_FAULTS);
    var q := RunMigratesAStretch(judge, messages, start, size, faults, 0);
    CursorOfReport(report.status, report.failure, start, size, failed.batches[..k]);
    RestIsMigrated(judge, messages, start, p, failed, q, k, resumedSize);
  }

  /** From where a report of a failed run says, the rest is migrated, whatever was written beyond it. */
  lemma {:induction false} RestIsMigrated(
      judge: Judge, messages: seq<Message>, cursor: int, p: nat, failed: Run, q: nat, reported: nat, size: nat)
    requires Sorted(messages) && size >= 1 && Stable(judge) && AllValid(judge, messages, p, |messages|)
    requires ComesTo(judge, messages, p, cursor, failed, q) && reported <= |failed.batches|
    ensures Sorted(failed.messages) &&
      var resumed := RunFrom(judge, failed.messages, ResumeAt(cursor, failed.batches[..reported]), size, NO_FAULTS, 0);
      && resumed.failure.None?
      && resumed.messages == MigratedRange(judge, messages, p, |messages|)
      && failed.written + resumed.written == PendingIds(messages, p, |messages|)
  {
    hide RunFrom, AllValid, PendingIds, Passed, Stable, Sum;
    var at := ResumeAt(cursor, failed.batches[..reported]);
    var from := Passed(messages, at);
    assert ResumesBetween(messages, cursor, failed.batches, reported, p, q);
    SameIdsSamePassed(messages, failed.messages, at);
    RestIsValid(judge, messages, p, from, q);
    CompletesIffAllValid(judge, failed.messages, at, size, 0);
    CompletedRunMigratesAll(judge, failed.messages, at, size, NO_FAULTS);
    RestIsPending(judge, messages, p, from, q);
    MigratedTwice(judge, messages, p, from, q);
  }

  lemma MigratedTwice(judge: Judge, messages: seq<Message>, p: nat, from: nat, q: nat)
    requires p <= from <= q <= |messages| && AllValid(judge, messages, p, |messages|)
    ensures MigratedRange(judge, MigratedRange(judge, messages, p, q), from, |messages|) == MigratedRange(judge, messages, p, |messages|)
  {
  }

  lemma RestIsValid(judge: Judge, messages: seq<Message>, p: nat, from: nat, q: nat)
    requires p <= from <= q <= |messages| && Stable(judge) && AllValid(judge, messages, p, |messages|)
    ensures AllValid(judge, MigratedRange(judge, messages, p, q), from, |messages|)
  {
  }

  lemma RestIsPending(judge: Judge, messages: seq<Message>, p: nat, from: nat, q: nat)
    requires p <= from <= q <= |messages| && AllValid(judge, messages, p, |messages|)
    ensures var after := MigratedRange(judge, messages, p, q);
      PendingIds(messages, p, |messages|) == PendingIds(messages, p, q) + PendingIds(after, from, |messages|)
  {
    var after := MigratedRange(judge, messages, p, q);
    PendingIdsAdd(messages, p, q, |messages|);
    PendingIdsAdd(after, from, q, |messages|);
    PendingIdsAgree(messages, after, q, |messages|);
    NothingPending(after, from, q);
  }

  // ----- The script -----

  /** A run that had these batches and writes before it went on with `rest`. */
  function Before(batches: seq<Batch>, written: seq<int>, rest: Run): Run {
    Run(rest.messages, batches + rest.batches, written + rest.written, rest.failure)
  }

  lemma OneMoreBatch(batches: seq<Batch>, written: seq<int>, batch: Batch, ids: seq<int>, rest: Run)
    ensures Before(batches, written, Before([batch], ids, rest)) == Before(batches + [batch], written + ids, rest)
  {
    assert batches + ([batch] + rest.batches) == batches + [batch] + rest.batches;
    assert written + (ids + rest.written) == written + ids + rest.written;
  }

  lemma NoMoreBatches(batches: seq<Batch>, written: seq<int>, run: Run)
    requires run.batches == []
    ensures Before(batches, written, run) == Run(run.messages, batches, written + run.written, run.failure)
  {
    assert batches + [] == batches;
  }

  lemma Appended(base: seq<int>, a: seq<int>, b: seq<int>)
    ensures base + a + b == base + (a + b)
  {
  }

  /** Where a run is: about to read its `n`th batch, with `run` to come. */
  datatype Point = Point(messages: seq<Message>, cursor: int, n: nat, run: Run)

  /** What the first batch makes of `here`, if the run goes on at `next` after it. */
  ghost predicate Begins(judge: Judge, size: nat, fault: Fault, here: Point, next: Point) {
    var p, messages := Passed(here.messages, here.cursor), here.messages;
    var q := End(|messages|, p, size);
    var after, ids := MigratedRange(judge, messages, p, q), PendingIds(messages, p, q);
    if fault.RolledBack? then here.run == Run(messages, [], [], Some(MigrationExecutionFailed))
    else if !AllValid(judge, messages, p, q) then here.run == Run(messages, [], [], Some(InvalidSourceData))
    else if fault.CommittedButRaised? then here.run == Run(after, [], ids, Some(MigrationExecutionFailed))
    else if p == q then here.run == Run(after, [], ids, None)
    else if fault.ReportRaises? then
      here.run == Run(after, [BatchOf(messages, here.cursor, p, q)], ids, Some(MigrationExecutionFailed))
    else if q == |messages| then here.run == Run(after, [BatchOf(messages, here.cursor, p, q)], ids, None)
    else
      && next.messages == after && next.cursor == messages[q - 1].id && next.n == here.n + 1 && Sorted(after)
      && Passed(after, next.cursor) > p
      && here.run == Before([BatchOf(messages, here.cursor, p, q)], ids, next.run)
  }

  /** A set of points that runs do not leave, and how they go on. */
  ghost predicate HasRuns(judge: Judge, size: nat, faults: nat -> Fault, points: iset<Point>, next: Point -> Point) {
    forall here {:trigger next(here)} :: here in points ==>
      next(here) in points && Begins(judge, size, faults(here.n), here, next(here))
  }

  ghost function RunPoint(judge: Judge, size: nat, faults: nat -> Fault, messages: seq<Message>, cursor: int, n: nat): Point
    requires Sorted(messages) && size >= 1
  {
    Point(messages, cursor, n, RunFrom(judge, messages, cursor, size, faults, n))
  }

  ghost function RunPoints(judge: Judge, size: nat, faults: nat -> Fault): iset<Point>
    requires size >= 1
  {
    iset messages, cursor, n: nat | Sorted(messages) :: RunPoint(judge, size, faults, messages, cursor, n)
  }

  /** The point after a batch, and the same point where there is none. */
  ghost function NextPoint(judge: Judge, size: nat, faults: nat -> Fault, here: Point): Point
    requires size >= 1
  {
    var p := Passed(here.messages, here.cursor);
    var q := End(|here.messages|, p, size);
    if Sorted(here.messages) && p < q < |here.messages| then
      CursorMovesOn(judge, here.messages, p, q);
      RunPoint(judge, size, faults, MigratedRange(judge, here.messages, p, q), here.messages[q - 1].id, here.n + 1)
    else here
  }

  lemma RunsHaveRuns(judge: Judge, size: nat, faults: nat -> Fault, messages: seq<Message>, cursor: int)
      returns (first: Point, points: iset<Point>, next: Point -> Point)
    requires Sorted(messages) && size >= 1
    ensures first in points && HasRuns(judge, size, faults, points, next)
    ensures first == RunPoint(judge, size, faults, messages, cursor, 0)
  {
    points := RunPoints(judge, size, faults);
    next := here => NextPoint(judge, size, faults, here);
    first := RunPoint(judge, size, faults, messages, cursor, 0);
    forall here | here in points ensures next(here) in points && Begins(judge, size, faults(here.n), here, next(here)) {
      FirstBatchOfRun(judge, size, faults, here.messages, here.cursor, here.n);
    }
  }

  lemma {:induction false} FirstBatchOfRun(judge: Judge, size: nat, faults: nat -> Fault, messages: seq<Message>, cursor: int, n: nat)
    requires Sorted(messages) && size >= 1
    ensures var here := RunPoint(judge, size, faults, messages, cursor, n);
      var next := NextPoint(judge, size, faults, here);
      && Begins(judge, size, faults(n), here, next)
      && Sorted(next.messages) && next == RunPoint(judge, size, faults, next.messages, next.cursor, next.n)
  {
    hide MigratedRange, Passed;
    var p := Passed(messages, cursor);
    var q := End(|messages|, p, size);
    if p < q < |messages| {
      CursorMovesOn(judge, messages, p, q);
    }
  }

  class MigrationScript {
    const judge: Judge
    var messages: seq<Message>
    var written: seq<int>
    var report: Report

    constructor (judge: Judge, messages: seq<Message>, report: Report)
      ensures this.judge == judge && this.messages == messages && this.report == report && written == []
    {
      this.judge, this.messages, this.report := judge, messages, report;
      written := [];
    }

    /** The rows of a batch with their targets, up to the first invalid one. */
    method ProjectRows(p: nat, q: nat) returns (valid: bool, rows: seq<Message>, ids: seq<int>)
      requires p <= q <= |messages|
      ensures valid == AllValid(judge, messages, p, q)
      ensures valid ==> rows == MigratedRange(judge, messages, p, q) && ids == PendingIds(messages, p, q)
    {
      rows, ids := messages, [];
      for i := p to q
        invariant AllValid(judge, messages, p, i)
        invariant |rows| == |messages| && rows == MigratedRange(judge, messages, p, i)
        invariant ids == PendingIds(messages, p, i)
      {
        var target := judge(messages[i]);
        if target.None? { return false, rows, ids; }
        if messages[i].target.None? {
          rows := rows[i := messages[i].(target := target)];
          ids := ids + [messages[i].id];
        }
        assert rows == MigratedRange(judge, messages, p, i + 1);
      }
      valid := true;
    }

    /** One transaction of the service: it either commits or raises; a raise rolls back, or not. */
    method MigrateBatch(afterId: int, size: nat, fault: Fault) returns (failure: Option<Failure>, batch: Batch)
      requires Sorted(messages) && size >= 1
      modifies this`messages, this`written
      ensures var p := Passed(old(messages), afterId);
        var q := End(|old(messages)|, p, size);
        if fault.RolledBack? || !AllValid(judge, old(messages), p, q) then
          && failure == Some(if fault.RolledBack? then MigrationExecutionFailed else InvalidSourceData)
          && messages == old(messages) && written == old(written)
        else
          && failure == (if fault.CommittedButRaised? then Some(MigrationExecutionFailed) else None)
          && messages == MigratedRange(judge, old(messages), p, q)
          && written == old(written) + PendingIds(old(messages), p, q)
          && batch == BatchOf(old(messages), afterId, p, q)
    {
      var p := Passed(messages, afterId);
      var q := End(|messages|, p, size);
      batch := BatchOf(messages, afterId, p, q);
      if fault.RolledBack? { return Some(MigrationExecutionFailed), batch; }
      var valid, rows, ids := ProjectRows(p, q);
      if !valid { return Some(InvalidSourceData), batch; }
      messages, written := rows, written + ids;
      failure := if fault.CommittedButRaised? then Some(MigrationExecutionFailed) else None;
    }

    /** `MigrateBatch`, as the first batch of the run that is `here`; it may go on at `after`. */
    method FirstBatch(cursor: int, size: nat, faults: nat -> Fault, n: nat,
                      ghost here: Point, ghost points: iset<Point>, ghost next: Point -> Point)
        returns (failure: Option<Failure>, batch: Batch, ghost ids: seq<int>, ghost after: Point)
      requires Sorted(messages) && size >= 1
      requires here in points && HasRuns(judge, size, faults, points, next)
      requires here.messages == messages && here.cursor == cursor && here.n == n
      modifies this`messages, this`written
      ensures written == old(written) + ids
      ensures failure.Some? || batch.sourceRows == 0 ==> here.run == Run(messages, [], ids, failure)
      ensures failure.None? && batch.sourceRows > 0 ==> batch.lastId.Some? && here.run == Before([batch], ids, after.run)
      ensures failure.None? && batch.sourceRows > 0 && faults(n).ReportRaises? ==>
        after.run == Run(messages, [], [], Some(MigrationExecutionFailed))
      ensures failure.None? && batch.sourceRows > 0 && !faults(n).ReportRaises? && !batch.hasMore ==>
        after.run == Run(messages, [], [], None)
      ensures failure.None? && batch.sourceRows > 0 && !faults(n).ReportRaises? && batch.hasMore ==>
        && after in points && messages == after.messages && batch.lastId == Some(after.cursor) && after.n == n + 1 && Sorted(messages)
        && |messages| - Passed(messages, after.cursor) < |old(messages)| - Passed(old(messages), cursor)
    {
      ghost var before, p := messages, Passed(messages, cursor);
      failure, batch := MigrateBatch(cursor, size, faults(n));
      ghost var q := End(|before|, p, size);
      ids := if faults(n).RolledBack? || !AllValid(judge, before, p, q) then [] else PendingIds(before, p, q);
      after := next(here);
      if failure.None? && 0 < batch.sourceRows && (faults(n).ReportRaises? || !batch.hasMore) {
        after := Point(messages, cursor, n,
          Run(messages, [], [], if faults(n).ReportRaises? then Some(MigrationExecutionFailed) else None));
        NoMoreBatches([batch], ids, after.run);
      }
    }

    /**
     * The loop over the batches; after each one the progress is reported. `reported` batches are in
     * the report on disk, all of them unless the last report could not be written.
     */
    method RunMessageMigration(start: int, size: nat, faults: nat -> Fault, ghost first: Point,
                               ghost points: iset<Point>, ghost next: Point -> Point)
        returns (failure: Option<Failure>, batches: seq<Batch>, ghost reported: nat)
      requires Sorted(messages) && size >= 1
      requires report == ReportOf(InProgress, None, start, size, [])
      requires first in points && HasRuns(judge, size, faults, points, next)
      requires first.messages == messages && first.cursor == start && first.n == 0
      modifies this
      ensures messages == first.run.messages && written == old(written) + first.run.written
      ensures batches == first.run.batches && failure == first.run.failure
      ensures reported <= |batches| && report == ReportOf(InProgress, None, start, size, batches[..reported])
      ensures failure.None? ==> reported == |batches|
    {
      hide Passed, HasRuns, Sum;
      var cursor := start;
      batches, reported := [], 0;
      ghost var here, done := first, [];
      while true
        invariant here in points && here.messages == messages && here.cursor == cursor && here.n == |batches|
        invariant Sorted(messages) && written == old(written) + done
        invariant report == ReportOf(InProgress, None, start, size, batches) && reported == |batches|
        invariant first.run == Before(batches, done, here.run)
        decreases |messages| - Passed(messages, cursor)
      {
        hide ReportOf, Passed, HasRuns, Before;
        var n := |batches|;
        var batch;
        ghost var ids, after;
        failure, batch, ids, after := FirstBatch(cursor, size, faults, n, here, points, next);
        Appended(old(written), done, ids);
        if failure.Some? || batch.sourceRows == 0 {
          NoMoreBatches(batches, done, here.run);
          assert batches[..n] == batches;
          return;
        }
        OneMoreBatch(batches, done, batch, ids, after.run);
        ghost var onDisk := batches;
        batches, done := batches + [batch], done + ids;
        if faults(n).ReportRaises? {
          NoMoreBatches(batches, done, after.run);
          assert batches[..n] == onDisk;
          return Some(MigrationExecutionFailed), batches, n;
        }
        report := ReportOf(InProgress, None, start, size, batches);
        reported := n + 1;
        cursor := batch.lastId.value;
        if !batch.hasMore {
          NoMoreBatches(batches, done, after.run);
          assert batches[..n + 1] == batches;
          return;
        }
        here := after;
      }
    }

    /**
     * Exit 0 exactly if everything was migrated and the final report could be written. Otherwise the
     * report on disk says how far it came and why it stopped, or, if that could not be written, is
     * one of the progress reports.
     */
    method ExecuteMessageMigration(start: int, size: int, faults: nat -> Fault, firstWritten: bool, lastWritten: bool)
        returns (exitCode: int)
      requires Sorted(messages)
      modifies this
      ensures !firstWritten ==>
        exitCode == 1 && messages == old(messages) && written == old(written) && report == old(report)
      ensures firstWritten && (start < 0 || size < 1) ==>
        && exitCode == 1 && messages == old(messages) && written == old(written)
        && (if lastWritten then report.status == Failed && report.failure == Some(InvalidArgument)
            else report.status == InProgress && report.failure.None?)
        && report == ReportOf(report.status, report.failure, start, size, [])
      ensures firstWritten && start >= 0 && size >= 1 ==>
        var r := RunFrom(judge, old(messages), start, size, faults, 0);
        && messages == r.messages && written == old(written) + r.written
        && (exitCode == 0 <==> r.failure.None? && lastWritten)
        && report.failure == (if lastWritten then r.failure else None)
        && report.status == (if !lastWritten then InProgress else if r.failure.None? then Completed else Failed)
        && (lastWritten ==> report == ReportOf(report.status, report.failure, start, size, r.batches))
        && CanLeave(judge, old(messages), start, size, faults, report)
    {
      hide RunFrom, HasRuns;
      if !firstWritten { return 1; }
      report := ReportOf(InProgress, None, start, size, []);
      if start < 0 || size < 1 {
        if lastWritten {
          report := ReportOf(Failed, Some(InvalidArgument), start, size, []);
        }
        return 1;
      }
      ghost var first, points, next := RunsHaveRuns(judge, size, faults, messages, start);
      ghost var reported;
      var failure, batches;
      failure, batches, reported := RunMessageMigration(start, size, faults, first, points, next);
      if !lastWritten { return 1; }
      report := ReportOf(if failure.None? then Completed else Failed, failure, start, size, batches);
      exitCode := if failure.None? then 0 else 1;
      assert batches[..|batches|] == batches;
    }
  }
}
