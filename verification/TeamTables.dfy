/**
 * What the copying does to the tables themselves, said of their rows and of nothing in between: for
 * each team and each row without a team, in order, one new row.
 */
module TeamTables {
  import opened Wrappers
  import opened TeamIsolation

  /** How many of the first `n` rows have no team. */
  function Teamless(rows: seq<Row>, n: nat): nat
    requires n <= |rows|
  {
    if n == 0 then 0 else Teamless(rows, n - 1) + if rows[n - 1].team.None? then 1 else 0
  }

  function TeamlessRows(rows: seq<Row>): nat {
    Teamless(rows, |rows|)
  }

  // ----- Which rows are selected -----

  lemma {:induction false} TeamlessOfPrefix(rows: seq<Row>, m: nat, n: nat)
    requires n <= m <= |rows|
    ensures Teamless(rows[..m], n) == Teamless(rows, n)
  {
    if n > 0 {
      TeamlessOfPrefix(rows, m, n - 1);
    }
  }

  lemma {:induction false} TeamlessGrows(rows: seq<Row>, i: nat, n: nat)
    requires i <= n <= |rows|
    ensures Teamless(rows, i) <= Teamless(rows, n)
    ensures i < n && rows[i].team.None? ==> Teamless(rows, i) < Teamless(rows, n)
  {
    if i < n {
      TeamlessGrows(rows, i, n - 1);
    }
  }

  /** The selected rows are all rows without a team, in order and as often as they are there. */
  lemma {:induction false} TemplatesAreTheTeamless(rows: seq<Row>)
    ensures |Templates(rows)| == TeamlessRows(rows)
    ensures forall i :: 0 <= i < |rows| && rows[i].team.None? ==>
      Teamless(rows, i) < |Templates(rows)| && Templates(rows)[Teamless(rows, i)] == rows[i]
  {
    if rows != [] {
      var n := |rows| - 1;
      TemplatesAreTheTeamless(rows[..n]);
      TeamlessOfPrefix(rows, n, n);
      forall i | 0 <= i < |rows| && rows[i].team.None?
        ensures Teamless(rows, i) < |Templates(rows)| && Templates(rows)[Teamless(rows, i)] == rows[i]
      {
        if i < n {
          TeamlessOfPrefix(rows, n, i);
          assert rows[..n][i] == rows[i];
        }
      }
    }
  }

  lemma {:induction false} TeamlessRowAt(rows: seq<Row>, n: nat, t: nat) returns (i: nat)
    requires n <= |rows| && t < Teamless(rows, n)
    ensures i < n && rows[i].team.None? && Teamless(rows, i) == t
  {
    if t < Teamless(rows, n - 1) {
      i := TeamlessRowAt(rows, n - 1, t);
    } else {
      i := n - 1;
    }
  }

  // ----- Where the copies are -----

  /** Among the new rows, the place of the copy of row `i` for the `k`th team that gets copies. */
  function Place(rows: seq<Row>, k: nat, i: nat): nat
    requires i <= |rows|
  {
    Slot(k, TeamlessRows(rows)) + Teamless(rows, i)
  }

  lemma {:induction false} SlotsInside(k: nat, m: nat, size: nat)
    requires k < m
    ensures Slot(k, size) + size <= Slot(m, size)
  {
    if k < m - 1 {
      SlotsInside(k, m - 1, size);
    }
  }

  /** Different teams and rows have different places. */
  lemma PlacesDiffer(rows: seq<Row>, k: nat, i: nat, l: nat, j: nat)
    requires i < |rows| && j < |rows| && rows[i].team.None? && rows[j].team.None? && (k != l || i != j)
    ensures Place(rows, k, i) != Place(rows, l, j)
  {
    TeamlessGrows(rows, i, |rows|);
    TeamlessGrows(rows, j, |rows|);
    if k < l {
      SlotsInside(k, l, TeamlessRows(rows));
    } else if l < k {
      SlotsInside(l, k, TeamlessRows(rows));
    } else if i < j {
      TeamlessGrows(rows, i, j);
    } else {
      TeamlessGrows(rows, j, i);
    }
  }

  /** And every place is that of a team and a row. */
  lemma EveryPlaceIsTaken(rows: seq<Row>, m: nat, j: nat) returns (k: nat, i: nat)
    requires j < Slot(m, TeamlessRows(rows))
    ensures k < m && i < |rows| && rows[i].team.None? && Place(rows, k, i) == j
  {
    var t;
    k, t := PlaceHasOwner(j, m, TeamlessRows(rows));
    i := TeamlessRowAt(rows, |rows|, t);
  }

  // ----- Parent tables -----

  ghost predicate ParentCopied(rows: seq<Row>, first: int, after: seq<Row>, teams: seq<int>, k: nat, i: nat)
    requires k < |teams| && i < |rows|
  {
    var place := Place(rows, k, i);
    |rows| + place < |after| && after[|rows| + place] == Row(first + place, Some(teams[k]), rows[i].fk, rows[i].data)
  }

  /** The old rows, then for each team a copy of every row without a team. */
  ghost predicate ParentsCopied(rows: seq<Row>, first: int, after: seq<Row>, teams: seq<int>) {
    && rows <= after && |after| == |rows| + Slot(|teams|, TeamlessRows(rows))
    && forall k: nat, i: nat :: k < |teams| && i < |rows| && rows[i].team.None? ==> ParentCopied(rows, first, after, teams, k, i)
  }

  ghost predicate IdMapped(rows: seq<Row>, first: int, teams: seq<int>, mapping: map<int, map<int, int>>, k: nat, i: nat)
    requires k < |teams| && i < |rows|
  {
    && teams[k] in mapping && rows[i].id in mapping[teams[k]]
    && mapping[teams[k]][rows[i].id] == first + Place(rows, k, i)
  }

  /** The mapping of a team has the ids of exactly the rows without a team. */
  ghost predicate KnowsOnly(rows: seq<Row>, ids: map<int, int>) {
    forall id :: id in ids ==> exists i :: 0 <= i < |rows| && rows[i].team.None? && rows[i].id == id
  }

  /** The mapping says where each team's copies are; without rows to copy it is empty. */
  ghost predicate MappingFits(rows: seq<Row>, first: int, teams: seq<int>, mapping: map<int, map<int, int>>) {
    && (TeamlessRows(rows) == 0 ==> mapping == map[])
    && (forall k: nat, i: nat :: k < |teams| && i < |rows| && rows[i].team.None? ==> IdMapped(rows, first, teams, mapping, k, i))
    && (forall team :: team in mapping ==> team in teams && KnowsOnly(rows, mapping[team]))
  }

  lemma CopiesMakeParents(rows: seq<Row>, first: int, teams: seq<int>)
    ensures ParentsCopied(rows, first, rows + ParentCopies(Templates(rows), teams, first), teams)
  {
    hide ParentCopies, Templates;
    var templates := Templates(rows);
    var copies := ParentCopies(templates, teams, first);
    TemplatesAreTheTeamless(rows);
    ParentCopiesFill(templates, teams, first);
    forall k: nat, i: nat | k < |teams| && i < |rows| && rows[i].team.None?
      ensures ParentCopied(rows, first, rows + copies, teams, k, i)
    {
      ParentCopyAt(templates, teams, first, k, Teamless(rows, i));
      assert (rows + copies)[|rows| + Place(rows, k, i)] == copies[Place(rows, k, i)];
    }
  }

  lemma {:induction false} MappingKnowsOnlyTeams(templates: seq<Row>, teams: seq<int>, first: int)
    ensures forall team :: team in Mapping(templates, teams, first) ==> team in teams
  {
    if teams != [] && templates != [] {
      MappingKnowsOnlyTeams(templates, teams[..|teams| - 1], first);
    }
  }

  lemma MappingMakesFit(rows: seq<Row>, first: int, teams: seq<int>)
    requires UniqueIds(rows) && Distinct(teams)
    ensures MappingFits(rows, first, teams, Mapping(Templates(rows), teams, first))
  {
    hide Mapping, Templates, TeamMapping, Slot;
    var templates := Templates(rows);
    var mapping := Mapping(templates, teams, first);
    TemplatesAreTheTeamless(rows);
    TemplatesAreUnique(rows);
    MappingKnowsOnlyTeams(templates, teams, first);
    if templates == [] {
      NothingMapped(teams, first);
    } else {
      forall k: nat, i: nat | k < |teams| && i < |rows| && rows[i].team.None? ensures IdMapped(rows, first, teams, mapping, k, i) {
        MappingAt(templates, teams, first, k);
        TeamMappingAt(templates, first + Slot(k, |templates|));
        assert templates[Teamless(rows, i)] == rows[i];
      }
      forall team | team in mapping ensures KnowsOnly(rows, mapping[team]) {
        var k :| 0 <= k < |teams| && teams[k] == team;
        MappingAt(templates, teams, first, k);
        TeamMappingAt(templates, first + Slot(k, |templates|));
        TemplateIdsAreTeamless(rows, mapping[team]);
      }
    }
  }

  lemma NothingMapped(teams: seq<int>, first: int)
    ensures Mapping([], teams, first) == map[]
  {
  }

  lemma TemplateIdsAreTeamless(rows: seq<Row>, ids: map<int, int>)
    requires ids.Keys == Ids(Templates(rows))
    ensures KnowsOnly(rows, ids)
  {
    hide Templates;
    TemplatesAreTheTeamless(rows);
    forall id | id in ids ensures exists i :: 0 <= i < |rows| && rows[i].team.None? && rows[i].id == id {
      assert id in Ids(Templates(rows));
      var t :| 0 <= t < |Templates(rows)| && Templates(rows)[t].id == id;
      var i := TeamlessRowAt(rows, |rows|, t);
    }
  }

  // ----- Child tables -----

  /** How many of the first `n` teams have a mapping, and so get children. */
  function MappedTeams(teams: seq<int>, mapping: map<int, map<int, int>>, n: nat): nat
    requires n <= |teams|
  {
    if n == 0 then 0 else MappedTeams(teams, mapping, n - 1) + if HasIds(mapping, teams[n - 1]) then 1 else 0
  }

  ghost predicate ChildCopied(
      rows: seq<Row>, first: int, after: seq<Row>, teams: seq<int>, mapping: map<int, map<int, int>>, k: nat, i: nat)
    requires k < |teams| && i < |rows|
  {
    var place := Place(rows, MappedTeams(teams, mapping, k), i);
    && teams[k] in mapping && |rows| + place < |after|
    && var ids := mapping[teams[k]];
       after[|rows| + place] ==
         Row(first + place, Some(teams[k]), if rows[i].fk in ids then ids[rows[i].fk] else rows[i].fk, rows[i].data)
  }

  /** The old rows, then for each team with a mapping a copy of every row without a team, its foreign key mapped. */
  ghost predicate ChildrenCopied(rows: seq<Row>, first: int, after: seq<Row>, teams: seq<int>, mapping: map<int, map<int, int>>) {
    && rows <= after && |after| == |rows| + Slot(MappedTeams(teams, mapping, |teams|), TeamlessRows(rows))
    && forall k: nat, i: nat :: k < |teams| && HasIds(mapping, teams[k]) && i < |rows| && rows[i].team.None? ==>
         ChildCopied(rows, first, after, teams, mapping, k, i)
  }

  lemma {:induction false} MappedTeamsOfPrefix(teams: seq<int>, mapping: map<int, map<int, int>>, m: nat, n: nat)
    requires n <= m <= |teams|
    ensures MappedTeams(teams[..m], mapping, n) == MappedTeams(teams, mapping, n)
  {
    if n > 0 {
      MappedTeamsOfPrefix(teams, mapping, m, n - 1);
    }
  }

  /** Where the copies of a mapped team are among all children copied. */
  lemma {:induction false} MappedCopyAt(
      templates: seq<Row>, teams: seq<int>, first: int, mapping: map<int, map<int, int>>, k: nat, t: nat)
    requires k < |teams| && HasIds(mapping, teams[k]) && t < |templates|
    ensures var at := Slot(MappedTeams(teams, mapping, k), |templates|) + t;
      var copies := ChildCopies(templates, teams, first, mapping);
      at < |copies| && copies[at] == Copy(templates[t], teams[k], first + at, IdsFor(mapping, teams[k]))
  {
    var n := |teams| - 1;
    MappedTeamsOfPrefix(teams, mapping, n, k);
    if k < n {
      MappedCopyAt(templates, teams[..n], first, mapping, k, t);
    } else {
      MappedCopiesFill(templates, teams[..n], first, mapping);
    }
  }

  lemma {:induction false} MappedCopiesFill(templates: seq<Row>, teams: seq<int>, first: int, mapping: map<int, map<int, int>>)
    ensures |ChildCopies(templates, teams, first, mapping)| == Slot(MappedTeams(teams, mapping, |teams|), |templates|)
  {
    if teams != [] {
      MappedCopiesFill(templates, teams[..|teams| - 1], first, mapping);
      MappedTeamsOfPrefix(teams, mapping, |teams| - 1, |teams| - 1);
    }
  }

  lemma CopiesMakeChildren(rows: seq<Row>, first: int, teams: seq<int>, mapping: map<int, map<int, int>>)
    ensures ChildrenCopied(rows, first, rows + ChildCopies(Templates(rows), teams, first, mapping), teams, mapping)
  {
    hide ChildCopies, Templates, Slot;
    var templates := Templates(rows);
    var copies := ChildCopies(templates, teams, first, mapping);
    TemplatesAreTheTeamless(rows);
    MappedCopiesFill(templates, teams, first, mapping);
    forall k: nat, i: nat | k < |teams| && HasIds(mapping, teams[k]) && i < |rows| && rows[i].team.None?
      ensures ChildCopied(rows, first, rows + copies, teams, mapping, k, i)
    {
      MappedCopyAt(templates, teams, first, mapping, k, Teamless(rows, i));
      var place := Place(rows, MappedTeams(teams, mapping, k), i);
      assert (rows + copies)[|rows| + place] == copies[place];
    }
  }

  // ----- Children and their parents -----

  /** Of team `k`, the copy of child `i`, which references that team's copy of the parent that child `i` references. */
  ghost predicate ChildFollows(
      parents: seq<Row>, newParents: seq<Row>, children: seq<Row>, first: int, newChildren: seq<Row>, teams: seq<int>, k: nat, i: nat)
    requires k < |teams| && i < |children|
  {
    var place := Place(children, k, i);
    && |children| + place < |newChildren|
    && var copy := newChildren[|children| + place];
       && copy.id == first + place && copy.team == Some(teams[k]) && copy.data == children[i].data
       && (forall p: nat :: p < |parents| && parents[p].team.None? && parents[p].id == children[i].fk ==>
             |parents| + Place(parents, k, p) < |newParents| && copy.fk == newParents[|parents| + Place(parents, k, p)].id)
       && ((forall p: nat :: p < |parents| && parents[p].team.None? ==> parents[p].id != children[i].fk) ==>
             copy.fk == children[i].fk)
  }

  /** The old rows, then each team's copies; none at all if there is no parent to copy. */
  ghost predicate ChildrenFollow(
      parents: seq<Row>, newParents: seq<Row>, children: seq<Row>, first: int, newChildren: seq<Row>, teams: seq<int>)
  {
    if TeamlessRows(parents) == 0 then newChildren == children
    else
      && children <= newChildren && |newChildren| == |children| + Slot(|teams|, TeamlessRows(children))
      && forall k: nat, i: nat :: k < |teams| && i < |children| && children[i].team.None? ==>
           ChildFollows(parents, newParents, children, first, newChildren, teams, k, i)
  }

  lemma {:induction false} AllTeamsMapped(
      parents: seq<Row>, first: int, teams: seq<int>, mapping: map<int, map<int, int>>, n: nat)
    requires MappingFits(parents, first, teams, mapping) && TeamlessRows(parents) > 0 && n <= |teams|
    ensures MappedTeams(teams, mapping, n) == n
    ensures forall k: nat :: k < n ==> HasIds(mapping, teams[k])
  {
    if n > 0 {
      var i := TeamlessRowAt(parents, |parents|, 0);
      assert IdMapped(parents, first, teams, mapping, n - 1, i);
      AllTeamsMapped(parents, first, teams, mapping, n - 1);
    }
  }

  lemma {:induction false} NoTeamMapped(teams: seq<int>, n: nat)
    requires n <= |teams|
    ensures MappedTeams(teams, map[], n) == 0
  {
    if n > 0 {
      NoTeamMapped(teams, n - 1);
    }
  }

  /** The mapping that copying the parents returns makes the children follow. */
  lemma {:induction false} MappedChildrenFollow(
      parents: seq<Row>, firstParent: int, newParents: seq<Row>,
      children: seq<Row>, first: int, newChildren: seq<Row>, teams: seq<int>, mapping: map<int, map<int, int>>)
    requires ParentsCopied(parents, firstParent, newParents, teams) && MappingFits(parents, firstParent, teams, mapping)
    requires ChildrenCopied(children, first, newChildren, teams, mapping)
    ensures ChildrenFollow(parents, newParents, children, first, newChildren, teams)
  {
    hide Slot, Place;
    if TeamlessRows(parents) == 0 {
      NoTeamMapped(teams, |teams|);
      assert Slot(0, TeamlessRows(children)) == 0 by { NoSlot(TeamlessRows(children)); }
    } else {
      AllTeamsMapped(parents, firstParent, teams, mapping, |teams|);
      forall k: nat, i: nat | k < |teams| && i < |children| && children[i].team.None?
        ensures ChildFollows(parents, newParents, children, first, newChildren, teams, k, i)
      {
        AllTeamsMapped(parents, firstParent, teams, mapping, k);
        assert ChildCopied(children, first, newChildren, teams, mapping, k, i);
        OneChildFollows(parents, firstParent, newParents, children, first, newChildren, teams, mapping, k, i);
      }
    }
  }

  lemma NoSlot(size: nat)
    ensures Slot(0, size) == 0
  {
  }

  lemma {:induction false} OneChildFollows(
      parents: seq<Row>, firstParent: int, newParents: seq<Row>,
      children: seq<Row>, first: int, newChildren: seq<Row>, teams: seq<int>, mapping: map<int, map<int, int>>, k: nat, i: nat)
    requires ParentsCopied(parents, firstParent, newParents, teams) && MappingFits(parents, firstParent, teams, mapping)
    requires k < |teams| && i < |children| && MappedTeams(teams, mapping, k) == k
    requires ChildCopied(children, first, newChildren, teams, mapping, k, i)
    ensures ChildFollows(parents, newParents, children, first, newChildren, teams, k, i)
  {
    hide Slot, Place, MappedTeams;
    forall p: nat | p < |parents| && parents[p].team.None? && parents[p].id == children[i].fk
      ensures |parents| + Place(parents, k, p) < |newParents|
      ensures newChildren[|children| + Place(children, k, i)].fk == newParents[|parents| + Place(parents, k, p)].id
    {
      assert IdMapped(parents, firstParent, teams, mapping, k, p);
      assert ParentCopied(parents, firstParent, newParents, teams, k, p);
    }
    var team := teams[k];
    assert team in mapping && KnowsOnly(parents, mapping[team]);
  }

  /** So it is on the tables the migration leaves. */
  lemma CopiedTablesFollow(
      parents: seq<Row>, firstParent: int, newParents: seq<Row>,
      children: seq<Row>, first: int, newChildren: seq<Row>, teams: seq<int>)
    requires UniqueIds(parents) && Distinct(teams)
    requires CopiedWithParents(parents, firstParent, newParents, children, first, newChildren, teams)
    ensures ParentsCopied(parents, firstParent, newParents, teams)
    ensures ChildrenFollow(parents, newParents, children, first, newChildren, teams)
  {
    hide ParentCopies, ChildCopies, Mapping, Templates, ParentsCopied, MappingFits, ChildrenCopied;
    var mapping := Mapping(Templates(parents), teams, firstParent);
    CopiesMakeParents(parents, firstParent, teams);
    MappingMakesFit(parents, firstParent, teams);
    CopiesMakeChildren(children, first, teams, mapping);
    MappedChildrenFollow(parents, firstParent, newParents, children, first, newChildren, teams, mapping);
  }
}
