/** One table under its three names: the topic the sink reads, the location it writes, the name Trino registers. */
module TableNames {
  import opened Wrappers
  import opened Text
  import opened Transform
  import opened TrinoCatalog

  function Location(project: string, table: string): string {
    project + "/" + table
  }

  lemma NoSlash(project: string, table: string)
    requires IsProjectName(project) && IsTableName(table)
    ensures '/' !in project && '/' !in table && '\n' !in table
  {
    assert forall c | c in project :: IsProjectChar(c);
    assert forall c | c in table :: IsTableChar(c);
  }

  /** The table of a topic is written below its project's name in the warehouse bucket. */
  lemma TopicLocation(project: string, table: string)
    requires IsProjectName(project) && IsTableName(table)
    ensures UriOf("ztap." + project + ".proj_" + project + "." + table) ==
      Some("s3://warehouse/" + project + "/" + table)
  {
    hide IsProjectName, IsTableName;
    var topic := "ztap." + project + ".proj_" + project + "." + table;
    NoSlash(project, table);
    NotEmpty(table);
    assert topic[|topic| - 1] == table[|table| - 1];
    assert DropFinalNewline(topic) == topic;
    NamedTopicParses(topic, project, table);
    assert "s3://" + "warehouse" + "/" == "s3://warehouse/";
  }

  lemma NotEmpty(table: string)
    requires IsTableName(table)
    ensures table != ""
  {
  }

  // ---- Discovery ----

  function LogKey(project: string, table: string, file: string): string {
    project + "/" + table + "/_delta_log/" + file
  }

  /** Only the slash after the project can begin an earlier marker. */
  lemma EarlierMarker(project: string, table: string, file: string, i: nat)
    requires '/' !in project && '/' !in table && i < |Location(project, table)|
    ensures OccursAt(LogKey(project, table, file), "/_delta_log/", i) <==> i == |project| && table == "_delta_log"
  {
    var key, marker, n := LogKey(project, table, file), "/_delta_log/", |project|;
    var at := key[i..i + 12];
    assert key == Location(project, table) + marker + file;
    if i < n {
      assert key[i] == project[i];
      assert at[0] == key[i];
    } else if i > n {
      assert key[i] == table[i - n - 1];
      assert at[0] == key[i];
    } else {
      TableAtMarker(table, file);
      assert key[n..] == "/" + table + marker + file;
      assert key[n..][..12] == at;
    }
  }

  lemma TableAtMarker(table: string, file: string)
    requires '/' !in table
    ensures ("/" + table + "/_delta_log/" + file)[..12] == "/_delta_log/" <==> table == "_delta_log"
  {
    var s, marker := "/" + table + "/_delta_log/" + file, "/_delta_log/";
    var m := |table|;
    assert s[m + 1] == '/' && forall j | 0 < j <= m :: s[j] == table[j - 1];
    if m == 10 {
      assert s[1..11] == table;
      assert s[..12] == ['/'] + s[1..11] + ['/'];
      assert marker[1..11] == "_delta_log";
      if s[..12] == marker {
        assert s[..12][1..11] == s[1..11];
      }
    } else if m < 10 {
      assert s[..12][m + 1] == '/';
      assert marker[m + 1] != '/';
    } else {
      assert s[..12][11] == table[10] && table[10] in table;
      assert marker[11] == '/';
    }
  }

  /** A log file is taken for its own table's exactly unless the table is called like the log directory. */
  lemma DiscoveredExactly(project: string, table: string, file: string)
    requires IsProjectName(project) && IsTableName(table)
    ensures TableDir(LogKey(project, table, file)) ==
      if table == "_delta_log" then Some(project) else Some(project + "/" + table)
  {
    hide IsProjectName, IsTableName, FindMarker, OccursAt;
    NoSlash(project, table);
    ProjectNotEmpty(project);
    var key, loc := LogKey(project, table, file), Location(project, table);
    var at := FindMarker(key, 0);
    assert OccursAt(key, MARKER, |loc|) by { MarkerAt(project, table, file); }
    EarlierMarker(project, table, file, |project|);
    if at.Some? && at.value < |loc| {
      EarlierMarker(project, table, file, at.value);
    }
    assert at == Some(if table == "_delta_log" then |project| else |loc|);
    assert key[..|loc|] == loc && key[..|project|] == project;
  }

  lemma ProjectNotEmpty(project: string)
    requires IsProjectName(project)
    ensures project != ""
  {
  }

  lemma MarkerAt(project: string, table: string, file: string)
    ensures OccursAt(LogKey(project, table, file), "/_delta_log/", |Location(project, table)|)
  {
    var key, loc := LogKey(project, table, file), Location(project, table);
    assert key[|loc|..] == "/_delta_log/" + file;
    assert key[|loc|..][..12] == key[|loc|..|loc| + 12];
  }

  // ---- Registration ----

  lemma NameOf(project: string, table: string)
    requires '/' !in project && '/' !in table
    ensures SchemaOf(Location(project, table)) == "proj_" + project && TableOf(Location(project, table)) == table
  {
    var loc := Location(project, table);
    assert FirstSlash(loc) == |project| by {
      assert loc[|project|] == '/';
      assert forall i | 0 <= i < |project| :: loc[i] == project[i];
    }
    assert loc[..|project|] == project && loc[|project| + 1..] == table;
    assert Underscored(table) == table;
  }

  /**
   * After a Trino cycle that discovered the sink's table, the table is registered as `proj_<project>.<table>`; if the
   * name is new and all locations have two segments, it points to exactly what the sink writes for the topic.
   */
  lemma SinkTableQueryable(cat: Catalog, locs: seq<string>, project: string, table: string)
    requires IsProjectName(project) && IsTableName(table) && project + "/" + table in locs
    ensures var after := Cycle(cat, locs);
      && "proj_" + project in after && table in after["proj_" + project]
      && ((forall loc | loc in locs :: TwoSegments(loc)) && !HasTable(cat, "proj_" + project, table) ==>
            UriOf("ztap." + project + ".proj_" + project + "." + table) == Some(after["proj_" + project][table]))
  {
    hide IsProjectName, IsTableName, SchemaOf, TableOf, Cycle, UriOf, TwoSegments;
    NoSlash(project, table);
    NameOf(project, table);
    var schema := "proj_" + project;
    assert StartsWith(schema, "proj_") && schema[5..] == project;
    RegisteredAt(cat, locs, schema, table, project);
    TopicLocation(project, table);
    if forall loc | loc in locs :: TwoSegments(loc) {
      CycleExact(cat, locs, schema, table);
      assert "s3://warehouse/" + (project + "/" + table) == "s3://warehouse/" + project + "/" + table;
    }
  }

  lemma RegisteredAt(cat: Catalog, locs: seq<string>, schema: string, table: string, project: string)
    requires StartsWith(schema, "proj_") && schema[5..] == project && Location(project, table) in locs
    requires SchemaOf(Location(project, table)) == schema && TableOf(Location(project, table)) == table
    ensures HasTable(Cycle(cat, locs), schema, table)
  {
    hide SchemaOf, TableOf, RegisterAll, Reconciled, StartsWith;
    RegisterAllAt(cat, locs, schema, table);
    ReconciledAt(RegisterAll(cat, locs), AsSet(locs), schema, table);
    assert NamedBy(Location(project, table), schema, table);
    assert project + "/" + table == Location(project, table);
  }

  // ---- Any location ----

  /** An object belongs to the table in front of its first log directory, if anything is in front of it. */
  lemma TableDirExactly(key: string, loc: string)
    ensures TableDir(key) == Some(loc) <==>
      && loc != "" && (exists file :: key == loc + "/_delta_log/" + file)
      && forall i: nat | i < |loc| :: !OccursAt(key, "/_delta_log/", i)
  {
    var at := FindMarker(key, 0);
    if at.Some? {
      assert key == key[..at.value] + "/_delta_log/" + key[at.value + 12..];
    }
    if file :| key == loc + "/_delta_log/" + file {
      assert OccursAt(key, "/_delta_log/", |loc|);
      assert key[..|loc|] == loc;
    }
  }

  /** A location names its schema by its first segment, and its table by the others joined with `_`, or by itself. */
  lemma NameOfAny(loc: string, project: string, rest: string)
    requires '/' !in project
    ensures loc == project ==> SchemaOf(loc) == "proj_" + project && TableOf(loc) == project
    ensures loc == project + "/" + rest ==>
      && SchemaOf(loc) == "proj_" + project && |TableOf(loc)| == |rest|
      && forall i | 0 <= i < |rest| :: TableOf(loc)[i] == if rest[i] == '/' then '_' else rest[i]
  {
    if loc == project + "/" + rest {
      assert loc[|project|] == '/' && forall i | 0 <= i < |project| :: loc[i] == project[i];
      assert FirstSlash(loc) == |project| && loc[..|project|] == project && loc[|project| + 1..] == rest;
    }
    if loc == project {
      assert FirstSlash(loc) == |loc| && loc[..|loc|] == loc;
    }
  }
}
