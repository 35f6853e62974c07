/**
 * Copying configuration tables to every team. Rows without a team are the templates; each team gets
 * a copy of every template parent row, and a copy of every template child row whose foreign key
 * points to that team's own parent copy.
 */
module TeamIsolation {
  import opened Wrappers

  /** In a parent table `fk` is a column like any other. */
  datatype Row = Row(id: int, team: Option<int>, fk: int, data: string)

  function Templates(rows: seq<Row>): seq<Row> {
    if rows == [] then []
    else
      var before, last := Templates(rows[..|rows| - 1]), rows[|rows| - 1];
      if last.team.None? then before + [last] else before
  }

  ghost predicate UniqueIds(rows: seq<Row>) {
    forall i, j :: 0 <= i < j < |rows| ==> rows[i].id != rows[j].id
  }

  ghost predicate Distinct(teams: seq<int>) {
    forall i, j :: 0 <= i < j < |teams| ==> teams[i] != teams[j]
  }

  function Ids(rows: seq<Row>): set<int> {
    set i | 0 <= i < |rows| :: rows[i].id
  }

  function Remapped(fk: int, ids: map<int, int>): int {
    if fk in ids then ids[fk] else fk
  }

  function Copy(template: Row, team: int, id: int, ids: map<int, int>): Row {
    Row(id, Some(team), Remapped(template.fk, ids), template.data)
  }

  /** One team's copies, with consecutive ids. */
  function Copies(templates: seq<Row>, team: int, first: int, ids: map<int, int>): (copies: seq<Row>)
    ensures |copies| == |templates|
    ensures forall i :: 0 <= i < |copies| ==> copies[i] == Copy(templates[i], team, first + i, ids)
  {
    seq(|templates|, i requires 0 <= i < |templates| => Copy(templates[i], team, first + i, ids))
  }

  function TeamMapping(templates: seq<Row>, first: int): map<int, int> {
    if templates == [] then map[]
    else
      var n := |templates| - 1;
      TeamMapping(templates[..n], first)[templates[n].id := first + n]
  }

  function ParentCopies(templates: seq<Row>, teams: seq<int>, first: int): seq<Row> {
    if teams == [] then []
    else
      var before := ParentCopies(templates, teams[..|teams| - 1], first);
      before + Copies(templates, teams[|teams| - 1], first + |before|, map[])
  }

  /** Old id to new id, for each team; empty without templates. */
  function Mapping(templates: seq<Row>, teams: seq<int>, first: int): map<int, map<int, int>> {
    if teams == [] || templates == [] then map[]
    else
      var n := |teams| - 1;
      Mapping(templates, teams[..n], first)
        [teams[n] := TeamMapping(templates, first + |ParentCopies(templates, teams[..n], first)|)]
  }

  function IdsFor(mapping: map<int, map<int, int>>, team: int): map<int, int> {
    if team in mapping then mapping[team] else map[]
  }

  function ChildCopies(templates: seq<Row>, teams: seq<int>, first: int, mapping: map<int, map<int, int>>): seq<Row> {
    if teams == [] then []
    else
      var before := ChildCopies(templates, teams[..|teams| - 1], first, mapping);
      var ids := IdsFor(mapping, teams[|teams| - 1]);
      if ids == map[] then before else before + Copies(templates, teams[|teams| - 1], first + |before|, ids)
  }

  /** A team without parent copies gets no children. */
  function CopiesIfMapped(templates: seq<Row>, team: int, first: int, ids: map<int, int>): seq<Row> {
    if ids == map[] then [] else Copies(templates, team, first, ids)
  }

  /** Where the copies of the `k`th team begin. */
  function Slot(k: nat, size: nat): nat {
    if k == 0 then 0 else Slot(k - 1, size) + size
  }

  /** Every place below the last slot belongs to one team and one template. */
  lemma {:induction false} PlaceHasOwner(j: nat, k: nat, size: nat) returns (team: nat, i: nat)
    requires j < Slot(k, size)
    ensures team < k && i < size && j == Slot(team, size) + i
  {
    if j >= Slot(k - 1, size) {
      team, i := k - 1, j - Slot(k - 1, size);
    } else {
      team, i := PlaceHasOwner(j, k - 1, size);
    }
  }

  lemma {:induction false} TeamMappingAt(templates: seq<Row>, first: int)
    requires UniqueIds(templates)
    ensures TeamMapping(templates, first).Keys == Ids(templates)
    ensures forall i :: 0 <= i < |templates| ==>
      templates[i].id in TeamMapping(templates, first) && TeamMapping(templates, first)[templates[i].id] == first + i
  {
    hide Ids;
    if templates != [] {
      var n := |templates| - 1;
      TeamMappingAt(templates[..n], first);
      assert forall i :: 0 <= i < n ==> templates[..n][i] == templates[i];
      LastIdIsAdded(templates);
    } else {
      NoIds();
    }
  }

  lemma LastIdIsAdded(rows: seq<Row>)
    requires rows != []
    ensures Ids(rows) == Ids(rows[..|rows| - 1]) + {rows[|rows| - 1].id}
  {
    assert forall i :: 0 <= i < |rows| - 1 ==> rows[..|rows| - 1][i] == rows[i];
  }

  lemma NoIds()
    ensures Ids([]) == {}
  {
  }

  lemma {:induction false} ParentCopiesFill(templates: seq<Row>, teams: seq<int>, first: int)
    ensures |ParentCopies(templates, teams, first)| == Slot(|teams|, |templates|)
  {
    if teams != [] {
      ParentCopiesFill(templates, teams[..|teams| - 1], first);
    }
  }

  lemma {:induction false} ParentCopyAt(templates: seq<Row>, teams: seq<int>, first: int, k: nat, i: nat)
    requires k < |teams| && i < |templates|
    ensures var at := Slot(k, |templates|) + i;
      var copies := ParentCopies(templates, teams, first);
      at < |copies| && copies[at] == Copy(templates[i], teams[k], first + at, map[])
  {
    var n := |teams| - 1;
    ParentCopiesFill(templates, teams[..n], first);
    ParentCopiesFill(templates, teams, first);
    if k < n {
      ParentCopyAt(templates, teams[..n], first, k, i);
    }
  }

  lemma {:induction false} MappingAt(templates: seq<Row>, teams: seq<int>, first: int, k: nat)
    requires k < |teams| && Distinct(teams) && templates != []
    ensures teams[k] in Mapping(templates, teams, first)
    ensures Mapping(templates, teams, first)[teams[k]] == TeamMapping(templates, first + Slot(k, |templates|))
  {
    hide ParentCopies, TeamMapping, Slot;
    var n := |teams| - 1;
    ParentCopiesFill(templates, teams[..n], first);
    if k < n {
      MappingAt(templates, teams[..n], first, k);
    }
  }

  // ----- The copy is an isomorphism -----

  ghost predicate Injective(m: map<int, int>) {
    forall a, b :: a in m && b in m && m[a] == m[b] ==> a == b
  }

  /** Team `k` has a copy of template `i` at its place, and its mapping says so. */
  ghost predicate PlacedAt(
      templates: seq<Row>, teams: seq<int>, first: int, copies: seq<Row>, mapping: map<int, map<int, int>>, k: nat, i: nat)
    requires k < |teams| && i < |templates|
  {
    var at := Slot(k, |templates|) + i;
    && at < |copies| && copies[at] == Row(first + at, Some(teams[k]), templates[i].fk, templates[i].data)
    && teams[k] in mapping && templates[i].id in mapping[teams[k]] && mapping[teams[k]][templates[i].id] == first + at
  }

  ghost predicate MappedFor(templates: seq<Row>, teams: seq<int>, mapping: map<int, map<int, int>>, k: nat)
    requires k < |teams|
  {
    teams[k] in mapping && mapping[teams[k]].Keys == Ids(templates)
  }

  /** All copies are at their places, and there are no others. */
  ghost predicate AllPlaced(
      templates: seq<Row>, teams: seq<int>, first: int, copies: seq<Row>, mapping: map<int, map<int, int>>)
  {
    && |copies| == Slot(|teams|, |templates|)
    && (forall k: nat, i: nat :: k < |teams| && i < |templates| ==> PlacedAt(templates, teams, first, copies, mapping, k, i))
    && (forall k: nat :: k < |teams| ==> MappedFor(templates, teams, mapping, k))
  }

  lemma CopiesArePlaced(
      templates: seq<Row>, teams: seq<int>, first: int, copies: seq<Row>, mapping: map<int, map<int, int>>)
    requires UniqueIds(templates) && Distinct(teams) && templates != []
    requires copies == ParentCopies(templates, teams, first) && mapping == Mapping(templates, teams, first)
    ensures AllPlaced(templates, teams, first, copies, mapping)
  {
    hide ParentCopies, Mapping, TeamMapping, Slot, PlacedAt;
    ParentCopiesFill(templates, teams, first);
    forall k: nat | k < |teams| ensures MappedFor(templates, teams, mapping, k) {
      MappingAt(templates, teams, first, k);
      TeamMappingAt(templates, first + Slot(k, |templates|));
    }
    forall k: nat, i: nat | k < |teams| && i < |templates| ensures PlacedAt(templates, teams, first, copies, mapping, k, i) {
      CopyIsPlaced(templates, teams, first, copies, mapping, k, i);
    }
  }

  lemma CopyIsPlaced(
      templates: seq<Row>, teams: seq<int>, first: int, copies: seq<Row>, mapping: map<int, map<int, int>>, k: nat, i: nat)
    requires UniqueIds(templates) && Distinct(teams) && k < |teams| && i < |templates|
    requires copies == ParentCopies(templates, teams, first) && mapping == Mapping(templates, teams, first)
    ensures PlacedAt(templates, teams, first, copies, mapping, k, i)
  {
    hide Mapping, ParentCopies, TeamMapping, Slot;
    MappingAt(templates, teams, first, k);
    TeamMappingAt(templates, first + Slot(k, |templates|));
    assert mapping[teams[k]][templates[i].id] == first + Slot(k, |templates|) + i;
    ParentCopyAt(templates, teams, first, k, i);
  }

  /** Bijection from the templates onto each team's own rows, which equal their templates up to id and team. */
  ghost predicate CopiedOnceForEachTeam(
      templates: seq<Row>, teams: seq<int>, first: int, copies: seq<Row>, mapping: map<int, map<int, int>>)
  {
    && (forall team :: team in teams ==>
          team in mapping && mapping[team].Keys == Ids(templates) && Injective(mapping[team]))
    && (forall team, i :: team in teams && 0 <= i < |templates| ==> team in mapping && CopyIsThere(templates, first, copies, mapping[team], team, i))
    && (forall j :: 0 <= j < |copies| ==>
          && copies[j].id == first + j && copies[j].team.Some? && copies[j].team.value in teams
          && copies[j].team.value in mapping && copies[j].id in mapping[copies[j].team.value].Values)
  }

  ghost predicate CopyIsThere(templates: seq<Row>, first: int, copies: seq<Row>, ids: map<int, int>, team: int, i: nat)
    requires i < |templates|
  {
    && templates[i].id in ids
    && var id := ids[templates[i].id];
       first <= id < first + |copies| && copies[id - first] == Row(id, Some(team), templates[i].fk, templates[i].data)
  }

  lemma {:induction false} ParentsAreCopiedOnceForEachTeam(templates: seq<Row>, teams: seq<int>, first: int)
    requires UniqueIds(templates) && Distinct(teams) && templates != []
    ensures CopiedOnceForEachTeam(templates, teams, first, ParentCopies(templates, teams, first), Mapping(templates, teams, first))
  {
    var copies, mapping := ParentCopies(templates, teams, first), Mapping(templates, teams, first);
    CopiesArePlaced(templates, teams, first, copies, mapping);
    PlacedCopiesAreBijective(templates, teams, first, copies, mapping);
  }

  lemma PlacedCopiesAreBijective(
      templates: seq<Row>, teams: seq<int>, first: int, copies: seq<Row>, mapping: map<int, map<int, int>>)
    requires UniqueIds(templates) && AllPlaced(templates, teams, first, copies, mapping)
    ensures CopiedOnceForEachTeam(templates, teams, first, copies, mapping)
  {
    forall team | team in teams
      ensures team in mapping && mapping[team].Keys == Ids(templates) && Injective(mapping[team])
      ensures forall i :: 0 <= i < |templates| ==> CopyIsThere(templates, first, copies, mapping[team], team, i)
    {
      var k :| 0 <= k < |teams| && teams[k] == team;
      assert MappedFor(templates, teams, mapping, k);
      forall i | 0 <= i < |templates| ensures CopyIsThere(templates, first, copies, mapping[team], team, i) {
        assert PlacedAt(templates, teams, first, copies, mapping, k, i);
      }
      forall a, b | a in mapping[team] && b in mapping[team] && mapping[team][a] == mapping[team][b] ensures a == b {
        var i :| 0 <= i < |templates| && templates[i].id == a;
        var j :| 0 <= j < |templates| && templates[j].id == b;
        assert PlacedAt(templates, teams, first, copies, mapping, k, i);
        assert PlacedAt(templates, teams, first, copies, mapping, k, j);
      }
    }
    forall j | 0 <= j < |copies|
      ensures copies[j].id == first + j && copies[j].team.Some? && copies[j].team.value in teams
      ensures copies[j].team.value in mapping && copies[j].id in mapping[copies[j].team.value].Values
    {
      var k, i := PlaceHasOwner(j, |teams|, |templates|);
      assert PlacedAt(templates, teams, first, copies, mapping, k, i);
    }
  }

  predicate HasIds(mapping: map<int, map<int, int>>, team: int) {
    IdsFor(mapping, team) != map[]
  }

  lemma {:induction false} ChildCopiesFill(templates: seq<Row>, teams: seq<int>, first: int, mapping: map<int, map<int, int>>)
    requires forall k :: 0 <= k < |teams| ==> HasIds(mapping, teams[k])
    ensures |ChildCopies(templates, teams, first, mapping)| == Slot(|teams|, |templates|)
  {
    if teams != [] {
      ChildCopiesFill(templates, teams[..|teams| - 1], first, mapping);
    }
  }

  lemma {:induction false} ChildCopyAt(
      templates: seq<Row>, teams: seq<int>, first: int, mapping: map<int, map<int, int>>, k: nat, i: nat)
    requires forall n :: 0 <= n < |teams| ==> HasIds(mapping, teams[n])
    requires k < |teams| && i < |templates|
    ensures var at := Slot(k, |templates|) + i;
      var copies := ChildCopies(templates, teams, first, mapping);
      at < |copies| && copies[at] == Copy(templates[i], teams[k], first + at, IdsFor(mapping, teams[k]))
  {
    var n := |teams| - 1;
    ChildCopiesFill(templates, teams[..n], first, mapping);
    ChildCopiesFill(templates, teams, first, mapping);
    if k < n {
      ChildCopyAt(templates, teams[..n], first, mapping, k, i);
    }
  }

  /** Without template parents no child is copied, whatever it references. */
  lemma {:induction false} NoParentsNoChildren(templates: seq<Row>, teams: seq<int>, first: int)
    ensures ChildCopies(templates, teams, first, map[]) == []
  {
    if teams != [] {
      NoParentsNoChildren(templates, teams[..|teams| - 1], first);
    }
  }

  /**
   * Team `k`'s copy of child `i` has its own place and its own id, keeps the data, and references
   * the same team's copy of the parent that the template references. The places fill the new rows.
   */
  lemma ChildrenFollowTheirParents(
      parents: seq<Row>, firstParent: int, children: seq<Row>, firstChild: int, teams: seq<int>, k: nat, i: nat, p: nat)
    requires UniqueIds(parents) && Distinct(teams)
    requires k < |teams| && i < |children| && p < |parents| && children[i].fk == parents[p].id
    ensures var mapping := Mapping(parents, teams, firstParent);
      var parentCopies := ParentCopies(parents, teams, firstParent);
      var copies := ChildCopies(children, teams, firstChild, mapping);
      var at, parentAt := Slot(k, |children|) + i, Slot(k, |parents|) + p;
      && |copies| == Slot(|teams|, |children|) && at < |copies| && parentAt < |parentCopies|
      && copies[at] == Row(firstChild + at, Some(teams[k]), parentCopies[parentAt].id, children[i].data)
      && parentCopies[parentAt] == Row(firstParent + parentAt, Some(teams[k]), parents[p].fk, parents[p].data)
  {
    var mapping := Mapping(parents, teams, firstParent);
    var parentCopies := ParentCopies(parents, teams, firstParent);
    CopiesArePlaced(parents, teams, firstParent, parentCopies, mapping);
    assert PlacedAt(parents, teams, firstParent, parentCopies, mapping, k, p);
    EveryTeamHasIds(parents, teams, firstParent);
    ChildIsPlaced(children, firstChild, teams, mapping, k, i);
  }

  lemma ChildIsPlaced(children: seq<Row>, first: int, teams: seq<int>, mapping: map<int, map<int, int>>, k: nat, i: nat)
    requires forall n :: 0 <= n < |teams| ==> HasIds(mapping, teams[n])
    requires k < |teams| && i < |children|
    ensures var copies, at := ChildCopies(children, teams, first, mapping), Slot(k, |children|) + i;
      && |copies| == Slot(|teams|, |children|) && at < |copies|
      && copies[at] == Row(first + at, Some(teams[k]), Remapped(children[i].fk, IdsFor(mapping, teams[k])), children[i].data)
  {
    ChildCopiesFill(children, teams, first, mapping);
    ChildCopyAt(children, teams, first, mapping, k, i);
  }

  lemma EveryTeamHasIds(parents: seq<Row>, teams: seq<int>, first: int)
    requires UniqueIds(parents) && Distinct(teams) && parents != []
    ensures forall k :: 0 <= k < |teams| ==> HasIds(Mapping(parents, teams, first), teams[k])
  {
    var copies, mapping := ParentCopies(parents, teams, first), Mapping(parents, teams, first);
    CopiesArePlaced(parents, teams, first, copies, mapping);
    forall k | 0 <= k < |teams| ensures HasIds(mapping, teams[k]) {
      assert PlacedAt(parents, teams, first, copies, mapping, k, 0);
    }
  }

  /** The child references a new parent row of its own team. */
  predicate StaysInTeam(child: Row, firstParent: int, parentCopies: seq<Row>) {
    && firstParent <= child.fk < firstParent + |parentCopies|
    && parentCopies[child.fk - firstParent].id == child.fk
    && parentCopies[child.fk - firstParent].team == child.team
  }

  /** If template children reference template parents, no copy references another team's parent. */
  lemma NoChildCrossesTeams(parents: seq<Row>, firstParent: int, children: seq<Row>, firstChild: int, teams: seq<int>)
    requires UniqueIds(parents) && Distinct(teams)
    requires forall i :: 0 <= i < |children| ==> children[i].fk in Ids(parents)
    ensures var parentCopies := ParentCopies(parents, teams, firstParent);
      var copies := ChildCopies(children, teams, firstChild, Mapping(parents, teams, firstParent));
      && |copies| == Slot(|teams|, |children|)
      && forall j :: 0 <= j < |copies| ==> StaysInTeam(copies[j], firstParent, parentCopies)
  {
    hide ParentCopies, ChildCopies, Mapping, Slot;
    var parentCopies := ParentCopies(parents, teams, firstParent);
    var mapping := Mapping(parents, teams, firstParent);
    var copies := ChildCopies(children, teams, firstChild, mapping);
    if children == [] {
      NothingToCopy(teams, firstChild, mapping);
    } else {
      assert children[0].fk in Ids(parents) && parents != [];
      EveryTeamHasIds(parents, teams, firstParent);
      ChildCopiesFill(children, teams, firstChild, mapping);
      forall j | 0 <= j < |copies| ensures StaysInTeam(copies[j], firstParent, parentCopies) {
        var k, i := PlaceHasOwner(j, |teams|, |children|);
        var p :| 0 <= p < |parents| && parents[p].id == children[i].fk;
        ChildrenFollowTheirParents(parents, firstParent, children, firstChild, teams, k, i, p);
      }
    }
  }

  lemma {:induction false} NothingToCopy(teams: seq<int>, first: int, mapping: map<int, map<int, int>>)
    ensures ChildCopies([], teams, first, mapping) == [] && Slot(|teams|, 0) == 0
  {
    if teams != [] {
      NothingToCopy(teams[..|teams| - 1], first, mapping);
    }
  }

  lemma {:induction false} CopiesAreNoTemplates(rows: seq<Row>, copies: seq<Row>)
    requires forall j :: 0 <= j < |copies| ==> copies[j].team.Some?
    ensures Templates(rows + copies) == Templates(rows)
  {
    if copies == [] {
      assert rows + copies == rows;
    } else {
      var n := |copies| - 1;
      assert (rows + copies)[..|rows| + n] == rows + copies[..n];
      CopiesAreNoTemplates(rows, copies[..n]);
    }
  }

  // ----- The final tables -----

  /** Ids are unique and below the next one the database will give. */
  ghost predicate Keyed(rows: seq<Row>, nextId: int) {
    UniqueIds(rows) && forall i :: 0 <= i < |rows| ==> rows[i].id < nextId
  }

  /** Old rows stay as they are; the new ones are the copies. */
  ghost predicate CopiedWithParents(
      parents: seq<Row>, firstParent: int, newParents: seq<Row>,
      children: seq<Row>, firstChild: int, newChildren: seq<Row>, teams: seq<int>)
  {
    && newParents == parents + ParentCopies(Templates(parents), teams, firstParent)
    && newChildren == children + ChildCopies(Templates(children), teams, firstChild, Mapping(Templates(parents), teams, firstParent))
  }

  /** Template children reference template parents. */
  ghost predicate TemplatesReference(parents: seq<Row>, children: seq<Row>) {
    forall i :: 0 <= i < |Templates(children)| ==> Templates(children)[i].fk in Ids(Templates(parents))
  }

  /** The child has a team and a parent row, and every parent row it references is of that team. */
  ghost predicate HasParentOfItsTeam(parents: seq<Row>, child: Row) {
    && child.team.Some?
    && (exists p :: 0 <= p < |parents| && parents[p].id == child.fk)
    && (forall p :: 0 <= p < |parents| && parents[p].id == child.fk ==> parents[p].team == child.team)
  }

  /** The rows behind the old ones have ids that none of the old ones has. */
  ghost predicate FreshBehind(earlier: seq<Row>, rows: seq<Row>) {
    forall j :: |earlier| <= j < |rows| ==> rows[j].id !in Ids(earlier)
  }

  /** Rows of teams, with consecutive ids. */
  ghost predicate Consecutive(copies: seq<Row>, first: int) {
    forall j :: 0 <= j < |copies| ==> copies[j].id == first + j && copies[j].team.Some?
  }

  lemma {:induction false} ParentIdsFollow(templates: seq<Row>, teams: seq<int>, first: int)
    ensures Consecutive(ParentCopies(templates, teams, first), first)
  {
    if teams != [] {
      ParentIdsFollow(templates, teams[..|teams| - 1], first);
    }
  }

  lemma {:induction false} ChildIdsFollow(templates: seq<Row>, teams: seq<int>, first: int, mapping: map<int, map<int, int>>)
    ensures Consecutive(ChildCopies(templates, teams, first, mapping), first)
  {
    if teams != [] {
      ChildIdsFollow(templates, teams[..|teams| - 1], first, mapping);
    }
  }

  lemma KeyedStays(rows: seq<Row>, first: int, copies: seq<Row>)
    requires Keyed(rows, first) && Consecutive(copies, first)
    ensures Keyed(rows + copies, first + |copies|) && FreshBehind(rows, rows + copies)
  {
    var all := rows + copies;
    forall i, j | 0 <= i < j < |all| ensures all[i].id != all[j].id {
      assert i < |rows| <= j ==> all[i].id < first <= all[j].id;
    }
  }

  lemma {:induction false} TemplateIsARow(rows: seq<Row>, t: nat) returns (i: nat)
    requires t < |Templates(rows)|
    ensures i < |rows| && rows[i] == Templates(rows)[t]
  {
    var n := |rows| - 1;
    if t < |Templates(rows[..n])| {
      i := TemplateIsARow(rows[..n], t);
    } else {
      i := n;
    }
  }

  lemma {:induction false} TemplatesAreUnique(rows: seq<Row>)
    requires UniqueIds(rows)
    ensures UniqueIds(Templates(rows))
  {
    if rows != [] {
      var n := |rows| - 1;
      var before := Templates(rows[..n]);
      TemplatesAreUnique(rows[..n]);
      forall t | 0 <= t < |before| ensures before[t].id != rows[n].id {
        var i := TemplateIsARow(rows[..n], t);
        assert rows[..n][i] == rows[i];
      }
    }
  }

  /**
   * After the migration ids are unique in both tables, the new ones fresh, and every copied child
   * references parent rows of its own team only: no row of another team, old or new, has that id.
   */
  lemma {:induction false} CopiedTablesKeepTeamsApart(
      parents: seq<Row>, firstParent: int, newParents: seq<Row>,
      children: seq<Row>, firstChild: int, newChildren: seq<Row>, teams: seq<int>)
    requires Keyed(parents, firstParent) && Keyed(children, firstChild) && Distinct(teams)
    requires CopiedWithParents(parents, firstParent, newParents, children, firstChild, newChildren, teams)
    ensures Keyed(newParents, firstParent + |newParents| - |parents|) && FreshBehind(parents, newParents)
    ensures Keyed(newChildren, firstChild + |newChildren| - |children|) && FreshBehind(children, newChildren)
    ensures TemplatesReference(parents, children) ==>
      forall j :: |children| <= j < |newChildren| ==> HasParentOfItsTeam(newParents, newChildren[j])
  {
    hide Templates, ParentCopies, ChildCopies, Mapping;
    var templates, childTemplates := Templates(parents), Templates(children);
    var copies, mapping := ParentCopies(templates, teams, firstParent), Mapping(templates, teams, firstParent);
    var childCopies := ChildCopies(childTemplates, teams, firstChild, mapping);
    ParentIdsFollow(templates, teams, firstParent);
    ChildIdsFollow(childTemplates, teams, firstChild, mapping);
    KeyedStays(parents, firstParent, copies);
    KeyedStays(children, firstChild, childCopies);
    if TemplatesReference(parents, children) {
      TemplatesAreUnique(parents);
      NoChildCrossesTeams(templates, firstParent, childTemplates, firstChild, teams);
      forall j | |children| <= j < |newChildren| ensures HasParentOfItsTeam(newParents, newChildren[j]) {
        assert newChildren[j] == childCopies[j - |children|];
        ReferencedParentIsUnique(parents, firstParent, copies, newChildren[j]);
      }
    }
  }

  lemma ReferencedParentIsUnique(parents: seq<Row>, firstParent: int, copies: seq<Row>, child: Row)
    requires Keyed(parents, firstParent) && child.team.Some? && StaysInTeam(child, firstParent, copies)
    requires Consecutive(copies, firstParent)
    ensures HasParentOfItsTeam(parents + copies, child)
  {
    assert (parents + copies)[|parents| + child.fk - firstParent] == copies[child.fk - firstParent];
  }
}
