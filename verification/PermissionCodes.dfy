/**
 * The migration of permission codes: step 1 merges redundant permissions into others and deletes
 * them, step 2 renames codes. Both tables the script carries are parameters here.
 */
module PermissionCodes {
  import opened Wrappers

  /** `rest` stands for the columns the script never writes. */
  datatype Permission = Permission(
    id: int, code: string, name: string, resource: string, action: string, scope: Option<string>, rest: string)

  /** A row of `role_permissions`; nothing keeps a role from having two rows for one permission. */
  datatype Grant = Grant(role: int, permission: int)

  datatype Db = Db(permissions: seq<Permission>, grants: seq<Grant>)

  datatype Merge = Merge(formerly: string, target: string)

  datatype Update = Update(
    formerly: string, code: string, name: string, resource: string, action: string, scope: Option<string>)

  // ----- Rows -----

  function IndexOf(permissions: seq<Permission>, code: string): (i: int)
    ensures -1 <= i < |permissions|
    ensures i >= 0 ==> permissions[i].code == code && forall j :: 0 <= j < i ==> permissions[j].code != code
    ensures i < 0 ==> forall j :: 0 <= j < |permissions| ==> permissions[j].code != code
  {
    if permissions == [] then -1
    else if permissions[0].code == code then 0
    else
      var i := IndexOf(permissions[1..], code);
      if i < 0 then -1 else i + 1
  }

  ghost predicate Unique(permissions: seq<Permission>) {
    forall i, j :: 0 <= i < j < |permissions| ==>
      && permissions[i].id != permissions[j].id
      && permissions[i].code != permissions[j].code
      && permissions[i].name != permissions[j].name
  }

  /** The rows of `from` again, for `to`. */
  function Moved(grants: seq<Grant>, from: int, to: int): seq<Grant> {
    if grants == [] then []
    else
      var before, last := Moved(grants[..|grants| - 1], from, to), grants[|grants| - 1];
      if last.permission == from then before + [Grant(last.role, to)] else before
  }

  function Without(grants: seq<Grant>, permission: int): seq<Grant> {
    if grants == [] then []
    else
      var before, last := Without(grants[..|grants| - 1], permission), grants[|grants| - 1];
      if last.permission == permission then before else before + [last]
  }

  function Count(grants: seq<Grant>, g: Grant): nat {
    if grants == [] then 0 else Count(grants[..|grants| - 1], g) + if grants[|grants| - 1] == g then 1 else 0
  }

  function Exists(db: Db, code: string): bool {
    IndexOf(db.permissions, code) >= 0
  }

  /** How many rows give the role the permission with this code. */
  function Held(db: Db, role: int, code: string): nat {
    var i := IndexOf(db.permissions, code);
    if i < 0 then 0 else Count(db.grants, Grant(role, db.permissions[i].id))
  }

  lemma {:induction false} CountAdd(a: seq<Grant>, b: seq<Grant>, g: Grant)
    ensures Count(a + b, g) == Count(a, g) + Count(b, g)
  {
    if b == [] {
      assert a + b == a;
    } else {
      assert (a + b)[..|a + b| - 1] == a + b[..|b| - 1];
      CountAdd(a, b[..|b| - 1], g);
    }
  }

  lemma {:induction false} CountMoved(grants: seq<Grant>, from: int, to: int, g: Grant)
    ensures Count(Moved(grants, from, to), g) == if g.permission == to then Count(grants, Grant(g.role, from)) else 0
  {
    if grants != [] {
      CountMoved(grants[..|grants| - 1], from, to, g);
      var before := Moved(grants[..|grants| - 1], from, to);
      assert forall x: Grant :: (before + [x])[..|before|] == before;
    }
  }

  lemma {:induction false} CountWithout(grants: seq<Grant>, permission: int, g: Grant)
    ensures Count(Without(grants, permission), g) == if g.permission == permission then 0 else Count(grants, g)
  {
    if grants != [] {
      CountWithout(grants[..|grants| - 1], permission, g);
      var before := Without(grants[..|grants| - 1], permission);
      assert forall x: Grant :: (before + [x])[..|before|] == before;
    }
  }

  // ----- Step 1 -----

  function MergeOne(db: Db, m: Merge): Db {
    var i, t := IndexOf(db.permissions, m.formerly), IndexOf(db.permissions, m.target);
    if i < 0 then db
    else
      var id := db.permissions[i].id;
      var grants := if t < 0 then db.grants else db.grants + Moved(db.grants, id, db.permissions[t].id);
      Db(db.permissions[..i] + db.permissions[i + 1..], Without(grants, id))
  }

  function Step1(db: Db, merges: seq<Merge>): Db {
    if merges == [] then db else MergeOne(Step1(db, merges[..|merges| - 1]), merges[|merges| - 1])
  }

  /** Each redundant code is named once, and none is the target of another. */
  ghost predicate MergesFit(merges: seq<Merge>) {
    && (forall i, j :: 0 <= i < j < |merges| ==> merges[i].formerly != merges[j].formerly)
    && (forall i, j :: 0 <= i < |merges| && 0 <= j < |merges| ==> merges[i].target != merges[j].formerly)
  }

  predicate Deleted(merges: seq<Merge>, code: string) {
    exists i :: 0 <= i < |merges| && merges[i].formerly == code
  }

  /** The rows a role has for the codes merged into this one. */
  function MergedInto(db: Db, merges: seq<Merge>, role: int, code: string): nat {
    if merges == [] then 0
    else
      var last := merges[|merges| - 1];
      MergedInto(db, merges[..|merges| - 1], role, code) + if last.target == code then Held(db, role, last.formerly) else 0
  }

  lemma CutStaysUnique(permissions: seq<Permission>, i: nat)
    requires Unique(permissions) && i < |permissions|
    ensures Unique(permissions[..i] + permissions[i + 1..])
  {
    var cut := permissions[..i] + permissions[i + 1..];
    assert forall k :: 0 <= k < |cut| ==> cut[k] == permissions[if k < i then k else k + 1];
  }

  lemma CutKeeps(permissions: seq<Permission>, i: nat, code: string)
    requires Unique(permissions) && i < |permissions|
    ensures var cut := permissions[..i] + permissions[i + 1..];
      var at, before := IndexOf(cut, code), IndexOf(permissions, code);
      && Unique(cut)
      && (code == permissions[i].code ==> at < 0)
      && (code != permissions[i].code ==> (at >= 0 <==> before >= 0) && (at >= 0 ==> cut[at] == permissions[before]))
  {
    var cut := permissions[..i] + permissions[i + 1..];
    CutStaysUnique(permissions, i);
    assert forall k :: 0 <= k < |cut| ==> cut[k] == permissions[if k < i then k else k + 1];
    assert forall k :: 0 <= k < |permissions| && k != i ==> permissions[k].code != permissions[i].code;
    hide Unique;
    var before := IndexOf(permissions, code);
    if code != permissions[i].code && before >= 0 {
      var k := if before < i then before else before - 1;
      assert cut[k] == permissions[before];
    }
  }

  /** One merge: the code is gone, its rows are the target's if there is a target, all else stays. */
  lemma MergeOneMoves(db: Db, m: Merge, role: int, code: string)
    requires Unique(db.permissions) && m.formerly != m.target
    ensures var after := MergeOne(db, m);
      && Unique(after.permissions)
      && (Exists(after, code) <==> Exists(db, code) && code != m.formerly)
      && Held(after, role, code) ==
           if code == m.formerly then 0
           else Held(db, role, code) + if code == m.target && Exists(db, code) then Held(db, role, m.formerly) else 0
  {
    hide IndexOf, Count, Moved, Without;
    var i, t := IndexOf(db.permissions, m.formerly), IndexOf(db.permissions, m.target);
    if i >= 0 {
      var id, at := db.permissions[i].id, IndexOf(db.permissions, code);
      CutKeeps(db.permissions, i, code);
      if at >= 0 && at != i {
        var g := Grant(role, db.permissions[at].id);
        if t >= 0 {
          var moved := Moved(db.grants, id, db.permissions[t].id);
          CountAdd(db.grants, moved, g);
          CountMoved(db.grants, id, db.permissions[t].id, g);
          CountWithout(db.grants + moved, id, g);
        } else {
          CountWithout(db.grants, id, g);
        }
      }
    }
  }

  /**
   * Step 1, exactly: a redundant code is gone; any other code keeps its rows and gets those of the
   * codes merged into it, if its permission exists. Nothing else is granted.
   */
  lemma {:induction false} Step1MovesGrants(db: Db, merges: seq<Merge>, role: int, code: string)
    requires Unique(db.permissions) && MergesFit(merges)
    ensures var after := Step1(db, merges);
      && Unique(after.permissions)
      && (Exists(after, code) <==> Exists(db, code) && !Deleted(merges, code))
      && Held(after, role, code) ==
           if Deleted(merges, code) then 0
           else Held(db, role, code) + if Exists(db, code) then MergedInto(db, merges, role, code) else 0
  {
    if merges != [] {
      var n := |merges| - 1;
      var last := merges[n];
      MergesFitBefore(merges, n);
      DeletedByLast(merges, code);
      DeletedByLast(merges, last.formerly);
      Step1MovesGrants(db, merges[..n], role, code);
      Step1MovesGrants(db, merges[..n], role, last.formerly);
      NotMergedInto(db, merges[..n], role, last.formerly);
      MergeOneMoves(Step1(db, merges[..n]), last, role, code);
    }
  }

  lemma DeletedByLast(merges: seq<Merge>, code: string)
    requires merges != []
    ensures var n := |merges| - 1; Deleted(merges, code) <==> Deleted(merges[..n], code) || merges[n].formerly == code
  {
    var n := |merges| - 1;
    if Deleted(merges[..n], code) {
      var k :| 0 <= k < n && merges[..n][k].formerly == code;
      assert merges[k].formerly == code;
    }
  }

  lemma MergesFitBefore(merges: seq<Merge>, n: nat)
    requires MergesFit(merges) && n < |merges|
    ensures MergesFit(merges[..n]) && !Deleted(merges[..n], merges[n].formerly) && merges[n].formerly != merges[n].target
    ensures forall i :: 0 <= i < n ==> merges[..n][i].target != merges[n].formerly
  {
    assert forall k :: 0 <= k < n ==> merges[..n][k] == merges[k];
  }

  lemma {:induction false} NotMergedInto(db: Db, merges: seq<Merge>, role: int, code: string)
    requires forall i :: 0 <= i < |merges| ==> merges[i].target != code
    ensures MergedInto(db, merges, role, code) == 0
  {
    if merges != [] {
      NotMergedInto(db, merges[..|merges| - 1], role, code);
    }
  }

  /** A role that held a redundant code holds its target afterwards exactly if the target's permission exists. */
  lemma {:induction false} MergeIsKeptIff(db: Db, merges: seq<Merge>, i: nat, role: int)
    requires Unique(db.permissions) && MergesFit(merges) && i < |merges| && Held(db, role, merges[i].formerly) > 0
    ensures Held(Step1(db, merges), role, merges[i].target) > 0 <==> Exists(db, merges[i].target)
  {
    Step1MovesGrants(db, merges, role, merges[i].target);
    MergedIntoHasEach(db, merges, i, role);
    assert !Deleted(merges, merges[i].target);
  }

  lemma {:induction false} MergedIntoHasEach(db: Db, merges: seq<Merge>, i: nat, role: int)
    requires i < |merges|
    ensures MergedInto(db, merges, role, merges[i].target) >= Held(db, role, merges[i].formerly)
  {
    if i < |merges| - 1 {
      MergedIntoHasEach(db, merges[..|merges| - 1], i, role);
    }
  }

  // ----- Step 2 -----

  /** `Raised`: the unique index on names refuses the row. */
  datatype Outcome = Done(db: Db) | Raised

  predicate NameTaken(permissions: seq<Permission>, i: nat, name: string) {
    exists j :: 0 <= j < |permissions| && j != i && permissions[j].name == name
  }

  function Renamed(p: Permission, u: Update): Permission {
    p.(code := u.code, name := u.name, resource := u.resource, action := u.action, scope := u.scope)
  }

  /** The code to update is there, and the new one is not taken. */
  predicate Applies(db: Db, u: Update) {
    Exists(db, u.formerly) && (u.formerly == u.code || !Exists(db, u.code))
  }

  /** How many updates apply when their turn comes. */
  function Applied(db: Db, updates: seq<Update>): nat {
    if updates == [] then 0
    else
      var before, last := updates[..|updates| - 1], updates[|updates| - 1];
      Applied(db, before) + if Step2(db, before).Done? && Applies(Step2(db, before).db, last) then 1 else 0
  }

  function UpdateOne(db: Db, u: Update): Outcome {
    var i := IndexOf(db.permissions, u.formerly);
    if i < 0 then Done(db)
    else if u.formerly != u.code && Exists(db, u.code) then Done(db)
    else if NameTaken(db.permissions, i, u.name) then Raised
    else Done(db.(permissions := db.permissions[i := Renamed(db.permissions[i], u)]))
  }

  function Step2(db: Db, updates: seq<Update>): Outcome {
    if updates == [] then Done(db)
    else
      match Step2(db, updates[..|updates| - 1])
      case Raised => Raised
      case Done(before) => UpdateOne(before, updates[|updates| - 1])
  }

  /** Keys are distinct, and a new code that is also a key is the new code of that key alone. */
  ghost predicate UpdatesFit(updates: seq<Update>) {
    && (forall i, j :: 0 <= i < j < |updates| ==> updates[i].formerly != updates[j].formerly)
    && (forall i, j :: 0 <= i < |updates| && 0 <= j < |updates| && updates[i].code == updates[j].formerly ==> i == j)
  }

  /** Step 2 keeps every grant and every permission's id in place; only the five columns change. */
  ghost predicate SameRows(a: Db, b: Db) {
    && b.grants == a.grants && |b.permissions| == |a.permissions|
    && forall i :: 0 <= i < |a.permissions| ==>
         b.permissions[i].id == a.permissions[i].id && b.permissions[i].rest == a.permissions[i].rest
  }

  lemma UpdateOneKeeps(db: Db, u: Update)
    requires Unique(db.permissions) && UpdateOne(db, u).Done?
    ensures Unique(UpdateOne(db, u).db.permissions) && SameRows(db, UpdateOne(db, u).db)
  {
  }

  lemma {:induction false} Step2KeepsRows(db: Db, updates: seq<Update>)
    requires Unique(db.permissions) && Step2(db, updates).Done?
    ensures Unique(Step2(db, updates).db.permissions) && SameRows(db, Step2(db, updates).db)
  {
    if updates != [] {
      var before := updates[..|updates| - 1];
      Step2KeepsRows(db, before);
      UpdateOneKeeps(Step2(db, before).db, updates[|updates| - 1]);
    }
  }

  /** The update has nothing left to do. */
  ghost predicate Settled(db: Db, u: Update) {
    var i := IndexOf(db.permissions, u.formerly);
    || i < 0
    || (u.formerly != u.code && Exists(db, u.code))
    || (u.formerly == u.code && db.permissions[i] == Renamed(db.permissions[i], u))
  }

  lemma SettledMeansIdle(db: Db, u: Update)
    requires Unique(db.permissions) && Settled(db, u)
    ensures UpdateOne(db, u) == Done(db)
  {
    var i := IndexOf(db.permissions, u.formerly);
    if i >= 0 && u.formerly == u.code {
      assert db.permissions[i].name == u.name;
      assert db.permissions[i := Renamed(db.permissions[i], u)] == db.permissions;
    }
  }

  lemma UpdateSettles(db: Db, u: Update)
    requires Unique(db.permissions) && UpdateOne(db, u).Done?
    ensures Settled(UpdateOne(db, u).db, u)
  {
    var i := IndexOf(db.permissions, u.formerly);
    var after := UpdateOne(db, u).db;
    if i >= 0 && (u.formerly == u.code || !Exists(db, u.code)) {
      assert after.permissions[i] == Renamed(db.permissions[i], u);
      assert forall j :: 0 <= j < |after.permissions| && j != i ==> after.permissions[j] == db.permissions[j];
      assert forall j :: 0 <= j < i ==> db.permissions[j].code != db.permissions[i].code;
      if u.formerly == u.code {
        assert IndexOf(after.permissions, u.formerly) == i;
      } else {
        assert IndexOf(after.permissions, u.formerly) < 0;
      }
    }
  }

  /** Where a code is after an update of other codes. */
  lemma OthersStay(db: Db, u: Update, code: string)
    requires Unique(db.permissions) && UpdateOne(db, u).Done? && code != u.formerly && code != u.code
    ensures var after := UpdateOne(db, u).db;
      var i := IndexOf(db.permissions, code);
      IndexOf(after.permissions, code) == i && (i >= 0 ==> after.permissions[i] == db.permissions[i])
  {
    var after, at := UpdateOne(db, u).db, IndexOf(db.permissions, u.formerly);
    assert forall j :: 0 <= j < |db.permissions| && j != at ==> after.permissions[j] == db.permissions[j];
    var i, k := IndexOf(db.permissions, code), IndexOf(after.permissions, code);
    if i >= 0 {
      assert after.permissions[i].code == code;
    }
    if k >= 0 {
      assert db.permissions[k].code == code;
    }
  }

  lemma SettledStays(db: Db, u: Update, other: Update)
    requires Unique(db.permissions) && UpdateOne(db, other).Done? && Settled(db, u)
    requires u.formerly != other.formerly && u.code != other.formerly && other.code != u.formerly
    ensures Settled(UpdateOne(db, other).db, u)
  {
    OthersStay(db, other, u.formerly);
    if u.code != other.code {
      OthersStay(db, other, u.code);
    } else if Exists(db, u.code) {
      CodeStays(db, other);
    }
  }

  /** An update never removes the code it is to create. */
  lemma CodeStays(db: Db, u: Update)
    requires UpdateOne(db, u).Done? && Exists(db, u.code)
    ensures Exists(UpdateOne(db, u).db, u.code)
  {
    var after, i := UpdateOne(db, u).db, IndexOf(db.permissions, u.formerly);
    assert after.permissions[IndexOf(db.permissions, u.code)].code == u.code;
  }

  lemma {:induction false} AllSettled(db: Db, updates: seq<Update>, k: nat)
    requires Unique(db.permissions) && UpdatesFit(updates) && Step2(db, updates).Done? && k < |updates|
    ensures Settled(Step2(db, updates).db, updates[k])
  {
    var n := |updates| - 1;
    var before := Step2(db, updates[..n]).db;
    Step2KeepsRows(db, updates[..n]);
    assert forall i :: 0 <= i < n ==> updates[..n][i] == updates[i];
    if k == n {
      UpdateSettles(before, updates[n]);
    } else {
      AllSettled(db, updates[..n], k);
      SettledStays(before, updates[k], updates[n]);
    }
  }

  lemma {:induction false} SettledStep2IsIdle(db: Db, updates: seq<Update>)
    requires Unique(db.permissions) && forall k :: 0 <= k < |updates| ==> Settled(db, updates[k])
    ensures Step2(db, updates) == Done(db)
  {
    if updates != [] {
      SettledStep2IsIdle(db, updates[..|updates| - 1]);
      SettledMeansIdle(db, updates[|updates| - 1]);
    }
  }

  lemma {:induction false} Step2AddsNoDeleted(db: Db, updates: seq<Update>, code: string)
    requires Unique(db.permissions) && Step2(db, updates).Done? && !Exists(db, code)
    requires forall i :: 0 <= i < |updates| ==> updates[i].code != code
    ensures !Exists(Step2(db, updates).db, code)
  {
    if updates != [] {
      var n := |updates| - 1;
      Step2AddsNoDeleted(db, updates[..n], code);
      Step2KeepsRows(db, updates[..n]);
      var before := Step2(db, updates[..n]).db;
      if code != updates[n].formerly {
        OthersStay(before, updates[n], code);
      }
    }
  }

  lemma {:induction false} Step1WithoutDeletedIsIdle(db: Db, merges: seq<Merge>)
    requires forall i :: 0 <= i < |merges| ==> !Exists(db, merges[i].formerly)
    ensures Step1(db, merges) == db
  {
    if merges != [] {
      Step1WithoutDeletedIsIdle(db, merges[..|merges| - 1]);
    }
  }

  // ----- Both steps -----

  function Steps(db: Db, merges: seq<Merge>, updates: seq<Update>): Outcome {
    Step2(Step1(db, merges), updates)
  }

  lemma {:induction false} Step1KeepsUnique(db: Db, merges: seq<Merge>)
    requires Unique(db.permissions) && MergesFit(merges)
    ensures Unique(Step1(db, merges).permissions)
  {
    Step1MovesGrants(db, merges, 0, "");
  }

  /** Running the migration twice is running it once, and codes stay unique. */
  lemma MigratingTwiceIsOnce(db: Db, merges: seq<Merge>, updates: seq<Update>)
    requires Unique(db.permissions) && MergesFit(merges) && UpdatesFit(updates)
    requires forall i :: 0 <= i < |updates| ==> !Deleted(merges, updates[i].code)
    requires Steps(db, merges, updates).Done?
    ensures var once := Steps(db, merges, updates).db;
      Unique(once.permissions) && Steps(once, merges, updates) == Done(once)
  {
    var middle := Step1(db, merges);
    var once := Step2(middle, updates).db;
    Step1KeepsUnique(db, merges);
    Step2KeepsRows(middle, updates);
    forall i | 0 <= i < |merges| ensures !Exists(once, merges[i].formerly) {
      assert Deleted(merges, merges[i].formerly);
      Step1MovesGrants(db, merges, 0, merges[i].formerly);
      Step2AddsNoDeleted(middle, updates, merges[i].formerly);
    }
    Step1WithoutDeletedIsIdle(once, merges);
    forall k | 0 <= k < |updates| ensures Settled(once, updates[k]) {
      AllSettled(middle, updates, k);
    }
    SettledStep2IsIdle(once, updates);
  }

  // ----- What step 2 makes of codes and names -----

  ghost predicate CodesDiffer(updates: seq<Update>) {
    forall i, j :: 0 <= i < j < |updates| ==> updates[i].code != updates[j].code
  }

  /** The code whose permission goes by `code` after the updates that apply to the original table. */
  function Source(db: Db, updates: seq<Update>, code: string): Option<string> {
    if updates == [] then if Exists(db, code) then Some(code) else None
    else
      var before, last := updates[..|updates| - 1], updates[|updates| - 1];
      if !Applies(db, last) then Source(db, before, code)
      else if last.code == code then Some(last.formerly)
      else if last.formerly == code then None
      else Source(db, before, code)
  }

  /** A permission as these updates leave it. */
  function RowAfter(db: Db, updates: seq<Update>, p: Permission): Permission {
    if updates == [] then p
    else
      var last := updates[|updates| - 1];
      if last.formerly == p.code && Applies(db, last) then Renamed(p, last)
      else RowAfter(db, updates[..|updates| - 1], p)
  }

  /** The update applies, and when its turn comes another permission has the name it assigns. */
  predicate Clashes(db: Db, updates: seq<Update>, k: nat)
    requires k < |updates|
  {
    Applies(db, updates[k]) &&
    exists j :: 0 <= j < |db.permissions| && db.permissions[j].code != updates[k].formerly
      && RowAfter(db, updates[..k], db.permissions[j]).name == updates[k].name
  }

  /** No update has this code as its old or new one. */
  predicate Untouched(updates: seq<Update>, code: string) {
    forall i :: 0 <= i < |updates| ==> updates[i].formerly != code && updates[i].code != code
  }

  ghost predicate TablesFit(updates: seq<Update>) {
    UpdatesFit(updates) && CodesDiffer(updates)
  }

  lemma TablesFitBefore(updates: seq<Update>, n: nat)
    requires TablesFit(updates) && n < |updates|
    ensures TablesFit(updates[..n]) && Untouched(updates[..n], updates[n].formerly)
    ensures updates[n].code != updates[n].formerly ==> Untouched(updates[..n], updates[n].code)
  {
    assert forall i :: 0 <= i < n ==> updates[..n][i] == updates[i];
  }

  lemma {:induction false} UntouchedSource(db: Db, updates: seq<Update>, code: string)
    requires Untouched(updates, code)
    ensures Source(db, updates, code) == if Exists(db, code) then Some(code) else None
  {
    if updates != [] {
      UntouchedSource(db, updates[..|updates| - 1], code);
    }
  }

  lemma {:induction false} UntouchedRow(db: Db, updates: seq<Update>, p: Permission, code: string)
    requires Untouched(updates, code)
    ensures RowAfter(db, updates, p).code == code <==> p.code == code
    ensures p.code == code ==> RowAfter(db, updates, p) == p
  {
    if updates != [] {
      UntouchedRow(db, updates[..|updates| - 1], p, code);
    }
  }

  /** What one update makes of the rows that give a role a code. */
  lemma UpdateMovesGrants(db: Db, u: Update, role: int, code: string)
    requires Unique(db.permissions) && UpdateOne(db, u).Done?
    ensures var after := UpdateOne(db, u).db;
      if !Applies(db, u) then after == db
      else if code == u.code then Exists(after, code) && Held(after, role, code) == Held(db, role, u.formerly)
      else if code == u.formerly then !Exists(after, code)
      else (Exists(after, code) <==> Exists(db, code)) && Held(after, role, code) == Held(db, role, code)
  {
    var after, i := UpdateOne(db, u).db, IndexOf(db.permissions, u.formerly);
    if Applies(db, u) {
      assert after.permissions == db.permissions[i := Renamed(db.permissions[i], u)];
      if code == u.code {
        assert after.permissions[i].code == code;
        assert IndexOf(after.permissions, code) == i;
      } else if code == u.formerly {
        UpdateSettles(db, u);
      } else {
        OthersStay(db, u, code);
      }
    }
  }

  ghost predicate HeldAs(db: Db, after: Db, source: Option<string>, role: int, code: string) {
    && (Exists(after, code) <==> source.Some?)
    && Held(after, role, code) == if source.Some? then Held(db, role, source.value) else 0
  }

  lemma {:induction false} Step2MovesGrants(db: Db, updates: seq<Update>, role: int, code: string)
    requires Unique(db.permissions) && TablesFit(updates) && Step2(db, updates).Done?
    ensures HeldAs(db, Step2(db, updates).db, Source(db, updates, code), role, code)
  {
    if updates != [] {
      hide TablesFit;
      var n := |updates| - 1;
      var u, before := updates[n], Step2(db, updates[..n]).db;
      TablesFitBefore(updates, n);
      Step2KeepsRows(db, updates[..n]);
      Step2MovesGrants(db, updates[..n], role, code);
      Step2MovesGrants(db, updates[..n], role, u.formerly);
      Step2MovesGrants(db, updates[..n], role, u.code);
      UntouchedSource(db, updates[..n], u.formerly);
      if u.code != u.formerly {
        UntouchedSource(db, updates[..n], u.code);
      }
      UpdateMovesGrants(before, u, role, code);
    }
  }

  lemma AppliesAsBefore(db: Db, updates: seq<Update>, n: nat)
    requires Unique(db.permissions) && TablesFit(updates) && n < |updates| && Step2(db, updates[..n]).Done?
    ensures Applies(Step2(db, updates[..n]).db, updates[n]) == Applies(db, updates[n])
  {
    hide TablesFit;
    var u := updates[n];
    TablesFitBefore(updates, n);
    Step2MovesGrants(db, updates[..n], 0, u.formerly);
    Step2MovesGrants(db, updates[..n], 0, u.code);
    UntouchedSource(db, updates[..n], u.formerly);
    if u.code != u.formerly {
      UntouchedSource(db, updates[..n], u.code);
    }
  }

  /** How many updates apply to the table as it is. */
  function Applying(db: Db, updates: seq<Update>): nat {
    if updates == [] then 0
    else Applying(db, updates[..|updates| - 1]) + if Applies(db, updates[|updates| - 1]) then 1 else 0
  }

  /** The count that step 2 reports is that of the updates that apply to the table it was given. */
  lemma {:induction false} UpdatedIsApplying(db: Db, updates: seq<Update>)
    requires Unique(db.permissions) && TablesFit(updates) && Step2(db, updates).Done?
    ensures Applied(db, updates) == Applying(db, updates)
  {
    if updates != [] {
      hide TablesFit, Applies;
      var n := |updates| - 1;
      TablesFitBefore(updates, n);
      UpdatedIsApplying(db, updates[..n]);
      AppliesAsBefore(db, updates, n);
    }
  }

  ghost predicate RowsAre(db: Db, after: Db, updates: seq<Update>) {
    && |after.permissions| == |db.permissions|
    && forall j :: 0 <= j < |db.permissions| ==> after.permissions[j] == RowAfter(db, updates, db.permissions[j])
  }

  /** The rows after step 2; and it raises if and only if an update clashes. */
  lemma {:induction false} Step2RaisesIff(db: Db, updates: seq<Update>)
    requires Unique(db.permissions) && TablesFit(updates)
    ensures Step2(db, updates).Raised? <==> exists k :: 0 <= k < |updates| && Clashes(db, updates, k)
    ensures Step2(db, updates).Done? ==> RowsAre(db, Step2(db, updates).db, updates)
  {
    if updates != [] {
      hide TablesFit, Clashes;
      var n := |updates| - 1;
      TablesFitBefore(updates, n);
      Step2RaisesIff(db, updates[..n]);
      forall k | 0 <= k < n ensures Clashes(db, updates[..n], k) == Clashes(db, updates, k) {
        ClashesEarlier(db, updates, n, k);
      }
      if Step2(db, updates[..n]).Done? {
        AppliesAsBefore(db, updates, n);
        LastRaisesIff(db, updates, n);
      }
    }
  }

  /** Only the update of its own code writes a row, and it writes five columns. */
  lemma {:induction false} RowIsUpdated(db: Db, updates: seq<Update>, p: Permission, k: nat)
    requires TablesFit(updates) && k < |updates| && updates[k].formerly == p.code && Applies(db, updates[k])
    ensures var u := updates[k];
      RowAfter(db, updates, p) == Permission(p.id, u.code, u.name, u.resource, u.action, u.scope, p.rest)
  {
    var n := |updates| - 1;
    if k < n {
      TablesFitBefore(updates, n);
      RowIsUpdated(db, updates[..n], p, k);
    }
  }

  lemma {:induction false} RowIsKept(db: Db, updates: seq<Update>, p: Permission)
    requires forall k :: 0 <= k < |updates| && updates[k].formerly == p.code ==> !Applies(db, updates[k])
    ensures RowAfter(db, updates, p) == p
  {
    if updates != [] {
      RowIsKept(db, updates[..|updates| - 1], p);
    }
  }

  /**
   * After step 2, row `j`: if there is an update of its code that applies, it has that update's
   * code, name, resource, action and scope, and its own id and other columns; if not, it is unchanged.
   */
  lemma Step2WritesRows(db: Db, updates: seq<Update>, j: nat, k: nat)
    requires Unique(db.permissions) && TablesFit(updates) && Step2(db, updates).Done? && j < |db.permissions|
    ensures j < |Step2(db, updates).db.permissions|
    ensures var p, after := db.permissions[j], Step2(db, updates).db.permissions[j];
      && (k < |updates| && updates[k].formerly == p.code && Applies(db, updates[k]) ==>
            && after.code == updates[k].code && after.name == updates[k].name && after.resource == updates[k].resource
            && after.action == updates[k].action && after.scope == updates[k].scope
            && after.id == p.id && after.rest == p.rest)
      && ((forall i :: 0 <= i < |updates| && updates[i].formerly == p.code ==> !Applies(db, updates[i])) ==> after == p)
  {
    hide TablesFit;
    Step2RaisesIff(db, updates);
    var p := db.permissions[j];
    if k < |updates| && updates[k].formerly == p.code && Applies(db, updates[k]) {
      RowIsUpdated(db, updates, p, k);
    }
    if forall i :: 0 <= i < |updates| && updates[i].formerly == p.code ==> !Applies(db, updates[i]) {
      RowIsKept(db, updates, p);
    }
  }

  lemma ClashesEarlier(db: Db, updates: seq<Update>, n: nat, k: nat)
    requires k < n <= |updates|
    ensures Clashes(db, updates[..n], k) == Clashes(db, updates, k)
  {
    assert updates[..n][..k] == updates[..k];
  }

  lemma LastRaisesIff(db: Db, updates: seq<Update>, n: nat)
    requires Unique(db.permissions) && TablesFit(updates) && n == |updates| - 1 && Step2(db, updates[..n]).Done?
    requires Applies(Step2(db, updates[..n]).db, updates[n]) == Applies(db, updates[n])
    requires RowsAre(db, Step2(db, updates[..n]).db, updates[..n])
    ensures var before := Step2(db, updates[..n]).db;
      && (UpdateOne(before, updates[n]).Raised? <==> Clashes(db, updates, n))
      && (UpdateOne(before, updates[n]).Done? ==> RowsAre(db, UpdateOne(before, updates[n]).db, updates))
  {
    hide TablesFit;
    var u, before := updates[n], Step2(db, updates[..n]).db;
    TablesFitBefore(updates, n);
    forall j | 0 <= j < |db.permissions|
      ensures before.permissions[j].code == u.formerly <==> db.permissions[j].code == u.formerly
      ensures db.permissions[j].code == u.formerly ==> before.permissions[j] == db.permissions[j]
    {
      UntouchedRow(db, updates[..n], db.permissions[j], u.formerly);
    }
    var i := IndexOf(before.permissions, u.formerly);
    assert i == IndexOf(db.permissions, u.formerly);
  }

  /** Does an update clash, once step 1 is done? */
  predicate SomeClash(db: Db, updates: seq<Update>) {
    exists k :: 0 <= k < |updates| && Clashes(db, updates, k)
  }

  /** The rows of the code that goes by this one now, and those of the redundant codes merged into that code. */
  function HoldsAfter(db: Db, merges: seq<Merge>, updates: seq<Update>, role: int, code: string): nat {
    match Source(Step1(db, merges), updates, code)
    case None => 0
    case Some(source) => Held(db, role, source) + MergedInto(db, merges, role, source)
  }

  /**
   * The migration raises exactly if an update clashes; otherwise this is what a role holds after
   * both steps, in terms of the original table. Nothing else is granted.
   */
  lemma HeldAfterBoth(db: Db, merges: seq<Merge>, updates: seq<Update>, role: int, code: string)
    requires Unique(db.permissions) && MergesFit(merges) && TablesFit(updates)
    ensures Steps(db, merges, updates).Raised? <==> SomeClash(Step1(db, merges), updates)
    ensures Steps(db, merges, updates).Done? ==>
      Held(Steps(db, merges, updates).db, role, code) == HoldsAfter(db, merges, updates, role, code)
  {
    hide TablesFit;
    Step1KeepsUnique(db, merges);
    var middle := Step1(db, merges);
    Step2RaisesIff(middle, updates);
    if Step2(middle, updates).Done? {
      Step2MovesGrants(middle, updates, role, code);
      var source := Source(middle, updates, code);
      if source.Some? {
        SourceExists(middle, updates, code);
        Step1MovesGrants(db, merges, role, source.value);
      }
    }
  }

  lemma {:induction false} SourceExists(db: Db, updates: seq<Update>, code: string)
    ensures var source := Source(db, updates, code); source.Some? ==> Exists(db, source.value)
  {
    if updates != [] {
      SourceExists(db, updates[..|updates| - 1], code);
    }
  }

  /**
   * Step 1 looks for a target that only step 2 creates: the role loses the permission although
   * its target exists in the end.
   */
  lemma TargetCreatedTooLate(merge: Merge, update: Update)
    requires merge.target == update.code && update.formerly != update.code && merge.formerly != update.formerly && merge.formerly != update.code
    ensures var redundant := Permission(1, merge.formerly, "a", "", "", None, "");
      var other := Permission(2, update.formerly, "b", "", "", None, "");
      var db := Db([redundant, other], [Grant(7, 1)]);
      && Held(db, 7, merge.formerly) == 1
      && Steps(db, [merge], [update]) == Done(Db([Renamed(other, update)], []))
  {
    var redundant := Permission(1, merge.formerly, "a", "", "", None, "");
    var other := Permission(2, update.formerly, "b", "", "", None, "");
    var db := Db([redundant, other], [Grant(7, 1)]);
    assert Count(db.grants, Grant(7, 1)) == Count(db.grants[..0], Grant(7, 1)) + 1;
    assert [Grant(7, 1)][..0] == [] && [merge][..0] == [] && [update][..0] == [];
    assert IndexOf(db.permissions, merge.formerly) == 0 && IndexOf(db.permissions, merge.target) == -1;
    assert db.permissions[..0] + db.permissions[1..] == [other];
    assert Without([Grant(7, 1)], 1) == [];
    assert Step1(db, []) == db && Step1(db, [merge]) == Db([other], []);
    assert IndexOf([other], update.formerly) == 0 && IndexOf([other], update.code) == -1;
    assert !NameTaken([other], 0, update.name);
    assert [other][0 := Renamed(other, update)] == [Renamed(other, update)];
    assert UpdateOne(Db([other], []), update) == Done(Db([Renamed(other, update)], []));
    assert Step2(Db([other], []), []) == Done(Db([other], []));
    assert Step2(Db([other], []), [update]) == Done(Db([Renamed(other, update)], []));
  }

  // ----- The script -----

  class PermissionTables {
    var permissions: seq<Permission>
    var grants: seq<Grant>

    constructor (permissions: seq<Permission>, grants: seq<Grant>)
      ensures Current() == Db(permissions, grants)
    {
      this.permissions, this.grants := permissions, grants;
    }

    function Current(): Db
      reads this
    {
      Db(permissions, grants)
    }

    method InsertMoved(from: int, to: int)
      modifies this`grants
      ensures grants == old(grants) + Moved(old(grants), from, to)
    {
      var selected := [];
      for i := 0 to |grants|
        invariant grants == old(grants) && selected == Moved(grants[..i], from, to)
      {
        assert grants[..i + 1][..i] == grants[..i];
        if grants[i].permission == from {
          selected := selected + [Grant(grants[i].role, to)];
        }
      }
      assert grants[..|grants|] == grants;
      grants := grants + selected;
    }

    method DeleteGrants(permission: int)
      modifies this`grants
      ensures grants == Without(old(grants), permission)
    {
      var kept := [];
      for i := 0 to |grants|
        invariant grants == old(grants) && kept == Without(grants[..i], permission)
      {
        assert grants[..i + 1][..i] == grants[..i];
        if grants[i].permission != permission {
          kept := kept + [grants[i]];
        }
      }
      assert grants[..|grants|] == grants;
      grants := kept;
    }

    method DeleteRedundantPermissions(merges: seq<Merge>) returns (deleted: nat)
      modifies this
      ensures Current() == Step1(old(Current()), merges)
      ensures deleted == |old(permissions)| - |permissions|
    {
      deleted := 0;
      for k := 0 to |merges|
        invariant Current() == Step1(old(Current()), merges[..k]) && deleted == |old(permissions)| - |permissions|
      {
        assert merges[..k + 1][..k] == merges[..k];
        var at := IndexOf(permissions, merges[k].formerly);
        if at < 0 { continue; }
        var id, target := permissions[at].id, IndexOf(permissions, merges[k].target);
        if target >= 0 {
          InsertMoved(id, permissions[target].id);
        }
        DeleteGrants(id);
        permissions := permissions[..at] + permissions[at + 1..];
        deleted := deleted + 1;
      }
      assert merges[..|merges|] == merges;
    }

    method UpdatePermissions(updates: seq<Update>) returns (raised: bool, updated: nat)
      modifies this`permissions
      ensures if raised then Step2(old(Current()), updates).Raised? else Step2(old(Current()), updates) == Done(Current())
      ensures !raised ==> updated == Applied(old(Current()), updates)
    {
      hide IndexOf, NameTaken, Renamed;
      updated := 0;
      for k := 0 to |updates|
        invariant Step2(old(Current()), updates[..k]) == Done(Current()) && updated == Applied(old(Current()), updates[..k])
      {
        assert updates[..k + 1][..k] == updates[..k];
        var u := updates[k];
        var at := IndexOf(permissions, u.formerly);
        if at < 0 { continue; }
        if u.formerly != u.code && IndexOf(permissions, u.code) >= 0 { continue; }
        if NameTaken(permissions, at, u.name) {
          RaisedStays(old(Current()), updates, k + 1);
          return true, updated;
        }
        permissions := permissions[at := Renamed(permissions[at], u)];
        updated := updated + 1;
      }
      assert updates[..|updates|] == updates;
      raised := false;
    }

    /** An exception rolls both steps back. */
    method Migrate(merges: seq<Merge>, updates: seq<Update>) returns (exitCode: nat)
      modifies this
      ensures match Steps(old(Current()), merges, updates)
        case Done(db) => exitCode == 0 && Current() == db
        case Raised => exitCode == 1 && Current() == old(Current())
    {
      var savedPermissions, savedGrants := permissions, grants;
      var _ := DeleteRedundantPermissions(merges);
      var raised, _ := UpdatePermissions(updates);
      if raised {
        permissions, grants := savedPermissions, savedGrants;
        return 1;
      }
      return 0;
    }
  }

  lemma {:induction false} RaisedStays(db: Db, updates: seq<Update>, n: nat)
    requires n <= |updates| && Step2(db, updates[..n]).Raised?
    ensures Step2(db, updates).Raised?
  {
    if n < |updates| {
      assert updates[..|updates| - 1][..n] == updates[..n];
      RaisedStays(db, updates[..|updates| - 1], n);
    } else {
      assert updates[..n] == updates;
    }
  }
}
