/** The two copying loops over tables, and the steps of the migration that use them. */
module TeamUpgrade {
  import opened Wrappers
  import opened TeamIsolation
  import opened TeamTables


  lemma NoTeams(templates: seq<Row>, first: int, mapping: map<int, map<int, int>>)
    ensures ParentCopies(templates, [], first) == [] && Mapping(templates, [], first) == map[]
    ensures ChildCopies(templates, [], first, mapping) == []
  {
  }

  lemma {:induction false} OneMoreTeam(templates: seq<Row>, teams: seq<int>, first: int, k: nat)
    requires k < |teams|
    ensures var before := ParentCopies(templates, teams[..k], first);
      && ParentCopies(templates, teams[..k + 1], first) == before + Copies(templates, teams[k], first + |before|, map[])
      && (templates == [] ==>
            ParentCopies(templates, teams[..k + 1], first) == before &&
            Mapping(templates, teams[..k], first) == Mapping(templates, teams[..k + 1], first) == map[])
      && (templates != [] ==>
            Mapping(templates, teams[..k + 1], first) ==
            Mapping(templates, teams[..k], first)[teams[k] := TeamMapping(templates, first + |before|)])
  {
    assert teams[..k + 1][..k] == teams[..k];
  }

  lemma OneMoreChildTeam(
      base: seq<Row>, rows: seq<Row>, templates: seq<Row>, teams: seq<int>, first: int, mapping: map<int, map<int, int>>, k: nat)
      returns (all: seq<Row>)
    requires k < |teams| && rows == base + ChildCopies(templates, teams[..k], first, mapping)
    ensures var before := ChildCopies(templates, teams[..k], first, mapping);
      var more := CopiesIfMapped(templates, teams[k], first + |before|, IdsFor(mapping, teams[k]));
      && all == ChildCopies(templates, teams[..k + 1], first, mapping)
      && rows + more == base + all && |all| == |before| + |more|
  {
    assert teams[..k + 1][..k] == teams[..k];
    all := ChildCopies(templates, teams[..k + 1], first, mapping);
  }

  lemma Appended(base: seq<Row>, rows: seq<Row>, copied: seq<Row>, more: seq<Row>) returns (all: seq<Row>)
    requires rows == base + copied
    ensures all == copied + more && rows + more == base + all && |all| == |copied| + |more|
  {
    all := copied + more;
  }

  lemma FitsOnTables(rows: seq<Row>, first: int, teams: seq<int>)
    requires Keyed(rows, first) && Distinct(teams)
    ensures ParentsCopied(rows, first, rows + ParentCopies(Templates(rows), teams, first), teams)
    ensures MappingFits(rows, first, teams, Mapping(Templates(rows), teams, first))
  {
    CopiesMakeParents(rows, first, teams);
    MappingMakesFit(rows, first, teams);
  }

  class Table {
    var rows: seq<Row>
    var nextId: int

    constructor (rows: seq<Row>, nextId: int)
      requires Keyed(rows, nextId)
      ensures this.rows == rows && this.nextId == nextId && Valid()
    {
      this.rows, this.nextId := rows, nextId;
    }

    ghost predicate Valid()
      reads this
    {
      Keyed(rows, nextId)
    }

    /** INSERT, then `LAST_INSERT_ID()`. */
    method Insert(team: int, fk: int, data: string) returns (id: int)
      requires Valid()
      modifies this
      ensures Valid()
      ensures id == old(nextId) && nextId == id + 1 && rows == old(rows) + [Row(id, Some(team), fk, data)]
    {
      id := nextId;
      rows := rows + [Row(id, Some(team), fk, data)];
      nextId := nextId + 1;
    }

    /** The rows of one team, and their ids; the same loop serves parents (no `ids`) and children. */
    method CopyRows(templates: seq<Row>, team: int, ids: map<int, int>) returns (teamMapping: map<int, int>)
      requires Valid()
      modifies this
      ensures Valid()
      ensures rows == old(rows) + Copies(templates, team, old(nextId), ids)
      ensures nextId == old(nextId) + |templates|
      ensures teamMapping == TeamMapping(templates, old(nextId))
    {
      teamMapping := map[];
      for i := 0 to |templates|
        invariant Valid()
        invariant rows == old(rows) + Copies(templates[..i], team, old(nextId), ids)
        invariant nextId == old(nextId) + i
        invariant teamMapping == TeamMapping(templates[..i], old(nextId))
      {
        var row := templates[i];
        assert templates[..i + 1][..i] == templates[..i];
        assert Copies(templates[..i + 1], team, old(nextId), ids)
            == Copies(templates[..i], team, old(nextId), ids) + [Copy(row, team, old(nextId) + i, ids)];
        var newId := Insert(team, Remapped(row.fk, ids), row.data);
        teamMapping := teamMapping[row.id := newId];
      }
      assert templates[..|templates|] == templates;
    }

    /** Select the templates and copy them, if there are any. */
    method CopyTemplates(team: int, ids: map<int, int>) returns (found: bool, teamMapping: map<int, int>)
      requires Valid()
      modifies this
      ensures Valid()
      ensures var templates := Templates(old(rows));
        && found == (templates != [])
        && rows == old(rows) + Copies(templates, team, old(nextId), ids) && nextId == old(nextId) + |templates|
        && teamMapping == TeamMapping(templates, old(nextId))
        && Templates(rows) == templates
    {
      var templates := Templates(rows);
      CopiesAreNoTemplates(rows, Copies(templates, team, nextId, ids));
      if templates == [] { return false, map[]; }
      found := true;
      teamMapping := CopyRows(templates, team, ids);
    }

    method CopyParentTableData(teams: seq<int>) returns (mapping: map<int, map<int, int>>)
      requires Valid() && Distinct(teams)
      modifies this
      ensures Valid()
      ensures var copies := ParentCopies(Templates(old(rows)), teams, old(nextId));
        rows == old(rows) + copies && nextId == old(nextId) + |copies|
      ensures mapping == Mapping(Templates(old(rows)), teams, old(nextId))
      ensures ParentsCopied(old(rows), old(nextId), rows, teams) && MappingFits(old(rows), old(nextId), teams, mapping)
    {
      hide Templates, TeamMapping, Copies, Mapping, ParentCopies, Keyed, ParentsCopied, MappingFits;
      mapping := map[];
      ghost var templates, first, copied := Templates(rows), nextId, [];
      NoTeams(templates, first, map[]);
      for k := 0 to |teams|
        invariant copied == ParentCopies(templates, teams[..k], first)
        invariant Valid() && rows == old(rows) + copied && nextId == first + |copied| && Templates(rows) == templates
        invariant mapping == Mapping(templates, teams[..k], first)
      {
        OneMoreTeam(templates, teams, first, k);
        copied := Appended(old(rows), rows, copied, Copies(templates, teams[k], nextId, map[]));
        var found, teamMapping := CopyTemplates(teams[k], map[]);
        if !found { continue; }
        mapping := mapping[teams[k] := teamMapping];
      }
      assert teams[..|teams|] == teams;
      FitsOnTables(old(rows), first, teams);
    }

    method CopyChildren(team: int, ids: map<int, int>)
      requires Valid()
      modifies this
      ensures Valid()
      ensures var more := CopiesIfMapped(Templates(old(rows)), team, old(nextId), ids);
        rows == old(rows) + more && nextId == old(nextId) + |more| && Templates(rows) == Templates(old(rows))
    {
      if ids == map[] { return; }
      var _, _ := CopyTemplates(team, ids);
    }

    method CopyChildTableData(teams: seq<int>, parentMapping: map<int, map<int, int>>)
      requires Valid()
      modifies this
      ensures Valid()
      ensures var copies := ChildCopies(Templates(old(rows)), teams, old(nextId), parentMapping);
        rows == old(rows) + copies && nextId == old(nextId) + |copies|
      ensures ChildrenCopied(old(rows), old(nextId), rows, teams, parentMapping)
    {
      hide Templates, Copies, ChildCopies, Keyed, ChildrenCopied;
      ghost var templates, first, copied := Templates(rows), nextId, [];
      NoTeams(templates, first, parentMapping);
      for k := 0 to |teams|
        invariant copied == ChildCopies(templates, teams[..k], first, parentMapping)
        invariant Valid() && rows == old(rows) + copied && nextId == first + |copied| && Templates(rows) == templates
      {
        var ids := IdsFor(parentMapping, teams[k]);
        copied := OneMoreChildTeam(old(rows), rows, templates, teams, first, parentMapping, k);
        CopyChildren(teams[k], ids);
      }
      assert teams[..|teams|] == teams;
      CopiesMakeChildren(old(rows), first, teams, parentMapping);
    }
  }

  /**
   * Steps 3 and 4: all parent tables, then the child tables with the mappings of their parents.
   * Afterwards every copied child references its own team's parents only.
   */
  method Upgrade(stages: Table, flows: Table, methods: Table, nodes: Table, stageTemplates: Table, teams: seq<int>)
    requires Distinct(teams)
    requires stages !in {flows, methods, nodes, stageTemplates} && flows !in {methods, nodes, stageTemplates}
    requires methods !in {nodes, stageTemplates} && nodes != stageTemplates
    requires stages.Valid() && flows.Valid() && methods.Valid() && nodes.Valid() && stageTemplates.Valid()
    modifies stages, flows, methods, nodes, stageTemplates
    ensures stages.Valid() && flows.Valid() && methods.Valid() && nodes.Valid() && stageTemplates.Valid()
    ensures stages.rows == old(stages.rows) + ParentCopies(Templates(old(stages.rows)), teams, old(stages.nextId))
    ensures CopiedWithParents(old(flows.rows), old(flows.nextId), flows.rows, old(nodes.rows), old(nodes.nextId), nodes.rows, teams)
    ensures CopiedWithParents(old(methods.rows), old(methods.nextId), methods.rows,
              old(stageTemplates.rows), old(stageTemplates.nextId), stageTemplates.rows, teams)
    ensures ParentsCopied(old(stages.rows), old(stages.nextId), stages.rows, teams)
    ensures ParentsCopied(old(flows.rows), old(flows.nextId), flows.rows, teams)
    ensures ParentsCopied(old(methods.rows), old(methods.nextId), methods.rows, teams)
    ensures ChildrenFollow(old(flows.rows), flows.rows, old(nodes.rows), old(nodes.nextId), nodes.rows, teams)
    ensures ChildrenFollow(old(methods.rows), methods.rows, old(stageTemplates.rows), old(stageTemplates.nextId), stageTemplates.rows, teams)
    ensures TeamsApart(old(flows.rows), flows.rows, old(nodes.rows), nodes.rows)
    ensures TeamsApart(old(methods.rows), methods.rows, old(stageTemplates.rows), stageTemplates.rows)
  {
    hide Templates, ParentCopies, ChildCopies, Mapping, TemplatesReference, HasParentOfItsTeam, FreshBehind, ParentsCopied, ChildrenFollow;
    NoTeams(Templates(stages.rows), stages.nextId, map[]);
    NoTeams(Templates(flows.rows), flows.nextId, map[]);
    NoTeams(Templates(methods.rows), methods.nextId, map[]);
    NoTeams(Templates(nodes.rows), nodes.nextId, map[]);
    NoTeams(Templates(stageTemplates.rows), stageTemplates.nextId, map[]);
    if teams != [] {
      var _ := stages.CopyParentTableData(teams);
      var flowIds := flows.CopyParentTableData(teams);
      var methodIds := methods.CopyParentTableData(teams);
      nodes.CopyChildTableData(teams, flowIds);
      stageTemplates.CopyChildTableData(teams, methodIds);
    }
    CopiesMakeParents(old(stages.rows), old(stages.nextId), teams);
    CopiedTablesFollow(old(flows.rows), old(flows.nextId), flows.rows, old(nodes.rows), old(nodes.nextId), nodes.rows, teams);
    CopiedTablesFollow(old(methods.rows), old(methods.nextId), methods.rows,
      old(stageTemplates.rows), old(stageTemplates.nextId), stageTemplates.rows, teams);
    CopiedTablesKeepTeamsApart(old(flows.rows), old(flows.nextId), flows.rows,
      old(nodes.rows), old(nodes.nextId), nodes.rows, teams);
    CopiedTablesKeepTeamsApart(old(methods.rows), old(methods.nextId), methods.rows,
      old(stageTemplates.rows), old(stageTemplates.nextId), stageTemplates.rows, teams);
  }

  /** New ids are fresh, and a copied child's parents are of its team. */
  ghost predicate TeamsApart(parents: seq<Row>, newParents: seq<Row>, children: seq<Row>, newChildren: seq<Row>) {
    && FreshBehind(parents, newParents) && FreshBehind(children, newChildren)
    && (TemplatesReference(parents, children) ==>
          forall j :: |children| <= j < |newChildren| ==> HasParentOfItsTeam(newParents, newChildren[j]))
  }
}
