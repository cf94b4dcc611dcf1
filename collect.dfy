/**
 * The data collector (pkg/core/db.go:66-146).
 *
 * Three queries are scanned one after the other, and a callback per row
 * updates the project map. The database is a parameter: each scan is given
 * as the rows its callback sees, then the error that ended it, if any (a
 * failed query hands over no rows; a failed row scan ends the scan after the
 * rows before it). Go's `*SecurityGroup` pointers become map entries that are
 * reassigned.
 */
module Collect {
  import opened Wrappers
  import opened Model

  /** A row of the group query: project, group name, bound ports (db.go:40-45). */
  datatype GroupRow = GroupRow(projectID: string, groupName: string, portCount: nat)

  /** A row of the shared-port query, in its column order (db.go:47-55). */
  datatype SharedPortRow = SharedPortRow(portCount: nat, groupName1: string, groupName2: string, projectID: string)

  /** A row of the remote-reference query, in its column order (db.go:57-64). */
  datatype ReferenceRow = ReferenceRow(projectID: string, groupName: string, remoteGroupName: string, referenceCount: nat)

  /** An error from the database driver. */
  datatype DbError = DbError(message: string)

  /** What one `scan` call sees (db.go:133-146). */
  datatype Scan<R> = Scan(rows: seq<R>, failure: Option<DbError>)

  /** The projects, keyed by project ID. */
  type Projects = map<string, Project>

  /** The two results of `CollectData`: a map or nil, and an error or nil. */
  datatype Collected = Collected(projects: Option<Projects>, err: Option<DbError>)

  // ---------------------------------------------------------------------
  // Row callbacks, as functions on the project map

  /**
   * The callback of db.go:76-88: the row's project is created if missing,
   * and the group is stored under its name with the row's port count and
   * empty relation maps, replacing any earlier group of that name. Other
   * projects and the project's other groups are unchanged.
   */
  function AddGroup(ps: Projects, row: GroupRow): (qs: Projects)
    ensures qs.Keys == ps.Keys + {row.projectID}
    ensures forall p :: p in ps && p != row.projectID ==> qs[p] == ps[p]
    ensures qs[row.projectID].uuid == if row.projectID in ps then ps[row.projectID].uuid else row.projectID
    ensures row.groupName in qs[row.projectID].groups &&
      qs[row.projectID].groups[row.groupName] == SecurityGroup(row.groupName, row.portCount, map[], map[])
    ensures row.projectID in ps ==>
      forall g :: g in ps[row.projectID].groups && g != row.groupName ==>
        g in qs[row.projectID].groups && qs[row.projectID].groups[g] == ps[row.projectID].groups[g]
    ensures forall g :: g in qs[row.projectID].groups && g != row.groupName ==>
      row.projectID in ps && g in ps[row.projectID].groups
  {
    var project := if row.projectID in ps then ps[row.projectID] else Project(row.projectID, map[]);
    ps[row.projectID := project.(groups := project.groups[row.groupName := SecurityGroup(row.groupName, row.portCount, map[], map[])])]
  }

  /**
   * The callback of db.go:98-109: when the project and both groups exist,
   * both groups record the count, keyed by the other; otherwise nothing
   * changes.
   */
  function AddSharedPorts(ps: Projects, row: SharedPortRow): (qs: Projects)
    ensures !(row.projectID in ps && row.groupName1 in ps[row.projectID].groups && row.groupName2 in ps[row.projectID].groups) ==>
      qs == ps
    ensures row.projectID in ps && row.groupName1 in ps[row.projectID].groups && row.groupName2 in ps[row.projectID].groups ==>
      SharedCount(qs, row.projectID, row.groupName1, row.groupName2) == row.portCount &&
      SharedCount(qs, row.projectID, row.groupName2, row.groupName1) == row.portCount
  {
    if row.projectID in ps && row.groupName1 in ps[row.projectID].groups && row.groupName2 in ps[row.projectID].groups then
      var project := ps[row.projectID];
      var group1 := project.groups[row.groupName1];
      var groups1 := project.groups[row.groupName1 := group1.(sharedPortCount := group1.sharedPortCount[row.groupName2 := row.portCount])];
      var group2 := groups1[row.groupName2];
      var groups2 := groups1[row.groupName2 := group2.(sharedPortCount := group2.sharedPortCount[row.groupName1 := row.portCount])];
      ps[row.projectID := project.(groups := groups2)]
    else
      ps
  }

  /**
   * The callback of db.go:119-128: when the project and both groups exist,
   * the referencing group records the count for the remote group; otherwise
   * nothing changes.
   */
  function AddReference(ps: Projects, row: ReferenceRow): (qs: Projects)
    ensures !(row.projectID in ps && row.groupName in ps[row.projectID].groups && row.remoteGroupName in ps[row.projectID].groups) ==>
      qs == ps
    ensures row.projectID in ps && row.groupName in ps[row.projectID].groups && row.remoteGroupName in ps[row.projectID].groups ==>
      ReferenceCount(qs, row.projectID, row.groupName, row.remoteGroupName) == row.referenceCount
  {
    if row.projectID in ps && row.groupName in ps[row.projectID].groups && row.remoteGroupName in ps[row.projectID].groups then
      var project := ps[row.projectID];
      var group := project.groups[row.groupName];
      ps[row.projectID := project.(groups := project.groups[row.groupName := group.(referenceCount := group.referenceCount[row.remoteGroupName := row.referenceCount])])]
    else
      ps
  }

  function GroupPass(ps: Projects, rows: seq<GroupRow>): Projects {
    if rows == [] then ps else AddGroup(GroupPass(ps, rows[..|rows| - 1]), rows[|rows| - 1])
  }

  function SharedPass(ps: Projects, rows: seq<SharedPortRow>): Projects {
    if rows == [] then ps else AddSharedPorts(SharedPass(ps, rows[..|rows| - 1]), rows[|rows| - 1])
  }

  function ReferencePass(ps: Projects, rows: seq<ReferenceRow>): Projects {
    if rows == [] then ps else AddReference(ReferencePass(ps, rows[..|rows| - 1]), rows[|rows| - 1])
  }

  /** The project map after all three passes. */
  function Collection(groups: seq<GroupRow>, shared: seq<SharedPortRow>, refs: seq<ReferenceRow>): Projects {
    ReferencePass(SharedPass(GroupPass(map[], groups), shared), refs)
  }

  // ---------------------------------------------------------------------
  // The collector

  /** The group scan of db.go:76-88: the callback runs on every row, in order. */
  method ScanGroups(rows: seq<GroupRow>) returns (result: Projects)
    ensures result == GroupPass(map[], rows)
  {
    result := map[];
    var i := 0;
    while i < |rows|
      invariant 0 <= i <= |rows|
      invariant result == GroupPass(map[], rows[..i])
    {
      var row := rows[i];
      if row.projectID !in result {
        result := result[row.projectID := Project(row.projectID, map[])];
      }
      var project := result[row.projectID];
      result := result[row.projectID := project.(groups := project.groups[row.groupName := SecurityGroup(row.groupName, row.portCount, map[], map[])])];
      assert rows[..i + 1][..i] == rows[..i];
      i := i + 1;
    }
    assert rows[..i] == rows;
  }

  /** The shared-port scan of db.go:98-109, applied to the map `ps`. */
  method ScanSharedPorts(ps: Projects, rows: seq<SharedPortRow>) returns (result: Projects)
    ensures result == SharedPass(ps, rows)
  {
    result := ps;
    var i := 0;
    while i < |rows|
      invariant 0 <= i <= |rows|
      invariant result == SharedPass(ps, rows[..i])
    {
      var row := rows[i];
      if row.projectID in result {
        var project := result[row.projectID];
        if row.groupName1 in project.groups && row.groupName2 in project.groups {
          var group1 := project.groups[row.groupName1];
          project := project.(groups := project.groups[row.groupName1 := group1.(sharedPortCount := group1.sharedPortCount[row.groupName2 := row.portCount])]);
          var group2 := project.groups[row.groupName2];
          project := project.(groups := project.groups[row.groupName2 := group2.(sharedPortCount := group2.sharedPortCount[row.groupName1 := row.portCount])]);
          result := result[row.projectID := project];
        }
      }
      assert rows[..i + 1][..i] == rows[..i];
      i := i + 1;
    }
    assert rows[..i] == rows;
  }

  /** The remote-reference scan of db.go:119-128, applied to the map `ps`. */
  method ScanReferences(ps: Projects, rows: seq<ReferenceRow>) returns (result: Projects)
    ensures result == ReferencePass(ps, rows)
  {
    result := ps;
    var i := 0;
    while i < |rows|
      invariant 0 <= i <= |rows|
      invariant result == ReferencePass(ps, rows[..i])
    {
      var row := rows[i];
      if row.projectID in result {
        var project := result[row.projectID];
        if row.groupName in project.groups && row.remoteGroupName in project.groups {
          var group := project.groups[row.groupName];
          result := result[row.projectID := project.(groups := project.groups[row.groupName := group.(referenceCount := group.referenceCount[row.remoteGroupName := row.referenceCount])])];
        }
      }
      assert rows[..i + 1][..i] == rows[..i];
      i := i + 1;
    }
    assert rows[..i] == rows;
  }

  /** `CollectData` (db.go:67-131). */
  method CollectData(groups: Scan<GroupRow>, shared: Scan<SharedPortRow>, refs: Scan<ReferenceRow>) returns (c: Collected)
    ensures groups.failure.Some? ==> c == Collected(None, groups.failure)
    ensures groups.failure.None? && shared.failure.Some? ==> c == Collected(None, shared.failure)
    ensures groups.failure.None? && shared.failure.None? ==>
      c == Collected(Some(Collection(groups.rows, shared.rows, refs.rows)), refs.failure)
    ensures c.projects.Some? ==> Consistent(c.projects.value)
    ensures c.projects.Some? ==> SameLayout(GroupPass(map[], groups.rows), c.projects.value)
  {
    // list all security groups in all projects
    var result := ScanGroups(groups.rows);
    if groups.failure.Some? {
      return Collected(None, groups.failure);
    }
    GroupPassBlank(groups.rows);

    // count ports shared by multiple security groups
    result := ScanSharedPorts(result, shared.rows);
    if shared.failure.Some? {
      return Collected(None, shared.failure);
    }
    SharedPassConsistent(GroupPass(map[], groups.rows), shared.rows);

    // find security groups with rules referencing other security groups
    result := ScanReferences(result, refs.rows);
    ReferencePassConsistent(SharedPass(GroupPass(map[], groups.rows), shared.rows), refs.rows);
    CollectionLayout(groups.rows, shared.rows, refs.rows);
    c := Collected(Some(result), refs.failure);
  }

  // ---------------------------------------------------------------------
  // What the passes guarantee

  /** A group as the first pass leaves it: no relations recorded yet. */
  ghost predicate Blank(ps: Projects) {
    forall p :: p in ps ==>
      ps[p].uuid == p && WellKeyed(ps[p].groups) &&
      forall g :: g in ps[p].groups ==>
        ps[p].groups[g].sharedPortCount == map[] && ps[p].groups[g].referenceCount == map[]
  }

  /** The relation maps of a project's groups name only groups of that project. */
  ghost predicate RelationsWithin(groups: Groups) {
    forall g, k :: g in groups && (k in groups[g].sharedPortCount || k in groups[g].referenceCount) ==> k in groups
  }

  /** Every project under its UUID, every group under its name, shared-port counts symmetric and relations within the project. */
  ghost predicate Consistent(ps: Projects) {
    forall p {:trigger ps[p]} :: p in ps ==>
      ps[p].uuid == p && WellKeyed(ps[p].groups) &&
      SymmetricSharing(ps[p].groups) && RelationsWithin(ps[p].groups)
  }

  /** The shared-port count of group g for k in project p, zero where anything is missing. */
  function SharedCount(ps: Projects, p: string, g: string, k: string): nat {
    if p in ps && g in ps[p].groups then Count(ps[p].groups[g].sharedPortCount, k) else 0
  }

  /** The reference count of group g for k in project p, zero where anything is missing. */
  function ReferenceCount(ps: Projects, p: string, g: string, k: string): nat {
    if p in ps && g in ps[p].groups then Count(ps[p].groups[g].referenceCount, k) else 0
  }

  /** The same projects with the same groups, names and port counts. */
  ghost predicate SameLayout(ps: Projects, qs: Projects) {
    ps.Keys == qs.Keys &&
    forall p :: p in ps ==>
      ps[p].uuid == qs[p].uuid && ps[p].groups.Keys == qs[p].groups.Keys &&
      forall g :: g in ps[p].groups ==>
        ps[p].groups[g].name == qs[p].groups[g].name && ps[p].groups[g].portCount == qs[p].groups[g].portCount
  }

  /** The first pass from an empty map leaves every project keyed and every group blank. */
  lemma {:induction false} GroupPassBlank(rows: seq<GroupRow>)
    ensures Blank(GroupPass(map[], rows))
    ensures Consistent(GroupPass(map[], rows))
  {
    if rows != [] {
      GroupPassBlank(rows[..|rows| - 1]);
    }
  }

  /** The first pass holds exactly the projects and groups that have a row. */
  lemma GroupPassMembers(rows: seq<GroupRow>, p: string, g: string)
    ensures p in GroupPass(map[], rows) <==> exists i :: 0 <= i < |rows| && rows[i].projectID == p
    ensures (p in GroupPass(map[], rows) && g in GroupPass(map[], rows)[p].groups) <==>
      exists i :: 0 <= i < |rows| && rows[i].projectID == p && rows[i].groupName == g
  {
    GroupPassProjects(rows, p);
    GroupPassGroups(rows, p, g);
  }

  lemma {:induction false} GroupPassProjects(rows: seq<GroupRow>, p: string)
    ensures p in GroupPass(map[], rows) <==> exists i :: 0 <= i < |rows| && rows[i].projectID == p
  {
    if rows != [] {
      var n := |rows| - 1;
      var init := rows[..n];
      GroupPassProjects(init, p);
      assert GroupPass(map[], rows).Keys == GroupPass(map[], init).Keys + {rows[n].projectID};
      var before := exists i :: 0 <= i < n && init[i].projectID == p;
      if before {
        var i :| 0 <= i < n && init[i].projectID == p;
        assert rows[i] == init[i];
      }
      if exists i :: 0 <= i < |rows| && rows[i].projectID == p {
        var i :| 0 <= i < |rows| && rows[i].projectID == p;
        if i < n {
          assert init[i] == rows[i];
          assert before;
        }
      }
    }
  }

  lemma {:induction false} GroupPassGroups(rows: seq<GroupRow>, p: string, g: string)
    ensures (p in GroupPass(map[], rows) && g in GroupPass(map[], rows)[p].groups) <==>
      exists i :: 0 <= i < |rows| && rows[i].projectID == p && rows[i].groupName == g
  {
    if rows != [] {
      var n := |rows| - 1;
      var init := rows[..n];
      GroupPassGroups(init, p, g);
      AddGroupMembers(GroupPass(map[], init), rows[n], p, g);
      var before := exists i :: 0 <= i < n && init[i].projectID == p && init[i].groupName == g;
      var last := rows[n].projectID == p && rows[n].groupName == g;
      if before {
        var i :| 0 <= i < n && init[i].projectID == p && init[i].groupName == g;
        assert rows[i] == init[i];
      }
      if exists i :: 0 <= i < |rows| && rows[i].projectID == p && rows[i].groupName == g {
        var i :| 0 <= i < |rows| && rows[i].projectID == p && rows[i].groupName == g;
        if i < n {
          assert init[i] == rows[i];
          assert before;
        }
      }
    }
  }

  /** After a group row, a project holds a group exactly when it held it before or the row names it. */
  lemma AddGroupMembers(ps: Projects, row: GroupRow, p: string, g: string)
    ensures (p in AddGroup(ps, row) && g in AddGroup(ps, row)[p].groups) <==>
      (p == row.projectID && g == row.groupName) || (p in ps && g in ps[p].groups)
  {
  }

  /** A group's port count is that of its last row: a later row replaces an earlier one. */
  lemma {:induction false} GroupPassLastRowWins(rows: seq<GroupRow>, i: nat)
    requires i < |rows|
    requires forall j :: i < j < |rows| ==> !(rows[j].projectID == rows[i].projectID && rows[j].groupName == rows[i].groupName)
    ensures rows[i].projectID in GroupPass(map[], rows)
    ensures rows[i].groupName in GroupPass(map[], rows)[rows[i].projectID].groups
    ensures GroupPass(map[], rows)[rows[i].projectID].groups[rows[i].groupName].portCount == rows[i].portCount
  {
    if i < |rows| - 1 {
      var init := rows[..|rows| - 1];
      assert init[i] == rows[i];
      forall j | i < j < |init| ensures !(init[j].projectID == init[i].projectID && init[j].groupName == init[i].groupName) {
        assert init[j] == rows[j];
      }
      GroupPassLastRowWins(init, i);
    }
  }

  /** A shared-port row sets the count of both groups for each other, and nothing else. */
  lemma AddSharedPortsEffect(ps: Projects, row: SharedPortRow, p: string, g: string, k: string)
    ensures SameLayout(ps, AddSharedPorts(ps, row))
    ensures forall p', g', k' :: ReferenceCount(AddSharedPorts(ps, row), p', g', k') == ReferenceCount(ps, p', g', k')
    ensures SharedCount(AddSharedPorts(ps, row), p, g, k) ==
      if row.projectID in ps && row.groupName1 in ps[row.projectID].groups && row.groupName2 in ps[row.projectID].groups &&
         p == row.projectID && ((g == row.groupName1 && k == row.groupName2) || (g == row.groupName2 && k == row.groupName1))
      then row.portCount
      else SharedCount(ps, p, g, k)
  {
  }

  /** A reference row sets one group's count for the remote group, and nothing else. */
  lemma AddReferenceEffect(ps: Projects, row: ReferenceRow, p: string, g: string, k: string)
    ensures SameLayout(ps, AddReference(ps, row))
    ensures forall p', g', k' :: SharedCount(AddReference(ps, row), p', g', k') == SharedCount(ps, p', g', k')
    ensures ReferenceCount(AddReference(ps, row), p, g, k) ==
      if row.projectID in ps && row.groupName in ps[row.projectID].groups && row.remoteGroupName in ps[row.projectID].groups &&
         p == row.projectID && g == row.groupName && k == row.remoteGroupName
      then row.referenceCount
      else ReferenceCount(ps, p, g, k)
  {
  }

  lemma AddSharedPortsConsistent(ps: Projects, row: SharedPortRow)
    requires Consistent(ps)
    ensures Consistent(AddSharedPorts(ps, row))
  {
    var qs := AddSharedPorts(ps, row);
    forall p | p in qs
      ensures SymmetricSharing(qs[p].groups) && RelationsWithin(qs[p].groups)
    {
      forall g, h | g in qs[p].groups && h in qs[p].groups
        ensures Count(qs[p].groups[g].sharedPortCount, h) == Count(qs[p].groups[h].sharedPortCount, g)
      {
        AddSharedPortsEffect(ps, row, p, g, h);
        AddSharedPortsEffect(ps, row, p, h, g);
        assert SharedCount(qs, p, g, h) == SharedCount(qs, p, h, g);
      }
    }
  }

  lemma AddReferenceConsistent(ps: Projects, row: ReferenceRow)
    requires Consistent(ps)
    ensures Consistent(AddReference(ps, row))
  {
    var qs := AddReference(ps, row);
    forall p | p in qs
      ensures SymmetricSharing(qs[p].groups)
    {
      forall g, h | g in qs[p].groups && h in qs[p].groups
        ensures Count(qs[p].groups[g].sharedPortCount, h) == Count(qs[p].groups[h].sharedPortCount, g)
      {
        AddReferenceEffect(ps, row, p, g, h);
        assert SharedCount(qs, p, g, h) == SharedCount(ps, p, g, h);
        assert SharedCount(qs, p, h, g) == SharedCount(ps, p, h, g);
      }
    }
  }

  /** Keeping the layout twice keeps it. */
  lemma SameLayoutTransitive(a: Projects, b: Projects, c: Projects)
    requires SameLayout(a, b) && SameLayout(b, c)
    ensures SameLayout(a, c)
  {
  }

  /** The second pass adds and removes no project or group, and changes no port count. */
  lemma {:induction false} SharedPassLayout(ps: Projects, rows: seq<SharedPortRow>)
    ensures SameLayout(ps, SharedPass(ps, rows))
  {
    if rows != [] {
      var init := rows[..|rows| - 1];
      SharedPassLayout(ps, init);
      AddSharedPortsEffect(SharedPass(ps, init), rows[|rows| - 1], "", "", "");
      SameLayoutTransitive(ps, SharedPass(ps, init), SharedPass(ps, rows));
    }
  }

  /** The third pass adds and removes no project or group, and changes no port count. */
  lemma {:induction false} ReferencePassLayout(ps: Projects, rows: seq<ReferenceRow>)
    ensures SameLayout(ps, ReferencePass(ps, rows))
  {
    if rows != [] {
      var init := rows[..|rows| - 1];
      ReferencePassLayout(ps, init);
      AddReferenceEffect(ReferencePass(ps, init), rows[|rows| - 1], "", "", "");
      SameLayoutTransitive(ps, ReferencePass(ps, init), ReferencePass(ps, rows));
    }
  }

  /** The collection has the layout the first pass gave it. */
  lemma CollectionLayout(groups: seq<GroupRow>, shared: seq<SharedPortRow>, refs: seq<ReferenceRow>)
    ensures SameLayout(GroupPass(map[], groups), Collection(groups, shared, refs))
  {
    var first := GroupPass(map[], groups);
    SharedPassLayout(first, shared);
    ReferencePassLayout(SharedPass(first, shared), refs);
    SameLayoutTransitive(first, SharedPass(first, shared), Collection(groups, shared, refs));
  }

  /** The collection holds exactly the projects and the groups that have a group row. */
  lemma CollectionMembers(groups: seq<GroupRow>, shared: seq<SharedPortRow>, refs: seq<ReferenceRow>, p: string, g: string)
    ensures p in Collection(groups, shared, refs) <==> exists i :: 0 <= i < |groups| && groups[i].projectID == p
    ensures (p in Collection(groups, shared, refs) && g in Collection(groups, shared, refs)[p].groups) <==>
      exists i :: 0 <= i < |groups| && groups[i].projectID == p && groups[i].groupName == g
  {
    CollectionLayout(groups, shared, refs);
    GroupPassMembers(groups, p, g);
  }

  /** The second pass keeps the consistency of the first. */
  lemma {:induction false} SharedPassConsistent(ps: Projects, rows: seq<SharedPortRow>)
    requires Consistent(ps)
    ensures Consistent(SharedPass(ps, rows))
  {
    if rows != [] {
      SharedPassConsistent(ps, rows[..|rows| - 1]);
      AddSharedPortsConsistent(SharedPass(ps, rows[..|rows| - 1]), rows[|rows| - 1]);
    }
  }

  /** The third pass keeps the consistency of the second. */
  lemma {:induction false} ReferencePassConsistent(ps: Projects, rows: seq<ReferenceRow>)
    requires Consistent(ps)
    ensures Consistent(ReferencePass(ps, rows))
  {
    if rows != [] {
      ReferencePassConsistent(ps, rows[..|rows| - 1]);
      AddReferenceConsistent(ReferencePass(ps, rows[..|rows| - 1]), rows[|rows| - 1]);
    }
  }
}
