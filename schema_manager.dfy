/** traindb.schema.SchemaManager: three multimaps from a name to every data
    source, schema and table loaded under that name, filled by loading data
    sources, and the resolution of 1-, 2- and 3-part table names against
    them. */
module SchemaNames {
  import opened Common

  /** A javax.sql.DataSource, known only by its identity. */
  datatype DataSource = DataSource(id: nat)

  datatype JdbcTable = JdbcTable(name: string)

  /** A schema: its name, its tables in table-map order, and the name of the
      data source it belongs to. */
  datatype JdbcSchema = JdbcSchema(name: string, tables: seq<JdbcTable>, dataSourceName: string)

  /** A loaded data source: its name, its sub-schemas in sub-schema-map
      order, and the DataSource it wraps. */
  datatype JdbcDataSource = JdbcDataSource(name: string, schemas: seq<JdbcSchema>, source: DataSource)

  /** What reading a DataSource's metadata yields: its name and schemas. */
  type Describe = DataSource -> (string, seq<JdbcSchema>)

  /** The TrainDBJdbcDataSource built over a DataSource. */
  function Connect(d: DataSource, describe: Describe): (ds: JdbcDataSource)
    ensures ds.source == d
  {
    JdbcDataSource(describe(d).0, describe(d).1, d)
  }

  function DataSourceName(d: JdbcDataSource): string { d.name }
  function SchemaName(s: JdbcSchema): string { s.name }
  function TableName(t: JdbcTable): string { t.name }

  /** The first element of `xs` whose name is `name`: a lookup in a map
      keyed by name (getTable, getSubSchemaMap().get). */
  function Named<T>(xs: seq<T>, nameOf: T -> string, name: string): (r: Option<T>)
    ensures r.Some? ==> nameOf(r.value) == name && r.value in xs
    ensures r.None? <==> forall i :: 0 <= i < |xs| ==> nameOf(xs[i]) != name
  {
    if |xs| == 0 then None
    else if nameOf(xs[0]) == name then Some(xs[0])
    else Named(xs[1..], nameOf, name)
  }

  function GetTable(s: JdbcSchema, name: string): Option<JdbcTable>
  {
    Named(s.tables, TableName, name)
  }

  function SubSchema(ds: JdbcDataSource, name: string): Option<JdbcSchema>
  {
    Named(ds.schemas, SchemaName, name)
  }

  // ---------------------------------------------------------------------
  // The multimaps.

  /** Map.get, with an absent key read as the empty list. */
  function ListOf<T>(m: map<string, seq<T>>, key: string): seq<T>
  {
    if key in m then m[key] else []
  }

  /** addToListMap: the value goes at the end of the key's list, which is
      created when absent; every other key keeps its list. */
  function AddToListMap<T>(m: map<string, seq<T>>, key: string, value: T): (r: map<string, seq<T>>)
    ensures r.Keys == m.Keys + {key}
    ensures ListOf(r, key) == ListOf(m, key) + [value]
    ensures forall k :: k != key ==> ListOf(r, k) == ListOf(m, k)
  {
    m[key := ListOf(m, key) + [value]]
  }

  /** addToListMap for each entry, in order. */
  function AddAll<T>(m: map<string, seq<T>>, es: seq<(string, T)>): map<string, seq<T>>
  {
    if |es| == 0 then m else AddToListMap(AddAll(m, es[..|es| - 1]), es[|es| - 1].0, es[|es| - 1].1)
  }

  /** The values of the entries under `key`, in order. */
  function ValuesFor<T>(es: seq<(string, T)>, key: string): seq<T>
  {
    if |es| == 0 then []
    else ValuesFor(es[..|es| - 1], key) + (if es[|es| - 1].0 == key then [es[|es| - 1].1] else [])
  }

  /** Adding entries only appends: each key's list is its old list followed by
      the values added under it, in order. */
  lemma {:induction false} AddAllAppends<T>(m: map<string, seq<T>>, es: seq<(string, T)>, key: string)
    ensures ListOf(AddAll(m, es), key) == ListOf(m, key) + ValuesFor(es, key)
  {
    if |es| > 0 {
      AddAllAppends(m, es[..|es| - 1], key);
    }
  }

  lemma {:induction false} AddAllConcat<T>(m: map<string, seq<T>>, a: seq<(string, T)>, b: seq<(string, T)>)
    ensures AddAll(m, a + b) == AddAll(AddAll(m, a), b)
  {
    if |b| > 0 {
      assert (a + b)[..|a + b| - 1] == a + b[..|b| - 1];
      AddAllConcat(m, a, b[..|b| - 1]);
    } else {
      assert a + b == a;
    }
  }

  /** Adding one more entry of a list. */
  lemma AddAllSnoc<T>(m: map<string, seq<T>>, es: seq<(string, T)>, i: nat)
    requires i < |es|
    ensures AddAll(m, es[..i + 1]) == AddToListMap(AddAll(m, es[..i]), es[i].0, es[i].1)
  {
    assert es[..i + 1][..i] == es[..i];
  }

  /** Adding the tables of one more schema. */
  lemma TableEntriesSnoc(m: map<string, seq<JdbcTable>>, schemas: seq<JdbcSchema>, i: nat)
    requires i < |schemas|
    ensures AddAll(m, TableEntries(schemas[..i + 1])) ==
            AddAll(AddAll(m, TableEntries(schemas[..i])), TableEntriesOf(schemas[i]))
  {
    assert schemas[..i + 1][..i] == schemas[..i];
    AddAllConcat(m, TableEntries(schemas[..i]), TableEntriesOf(schemas[i]));
  }

  lemma {:induction false} ValuesForHas<T>(es: seq<(string, T)>, i: nat)
    requires i < |es|
    ensures es[i].1 in ValuesFor(es, es[i].0)
  {
    if i < |es| - 1 {
      ValuesForHas(es[..|es| - 1], i);
    }
  }

  /** Every list holds only elements carrying the list's key as their name. */
  predicate Keyed<T>(m: map<string, seq<T>>, nameOf: T -> string)
  {
    forall k, i :: k in m && 0 <= i < |m[k]| ==> nameOf(m[k][i]) == k
  }

  predicate EntriesKeyed<T>(es: seq<(string, T)>, nameOf: T -> string)
  {
    forall i :: 0 <= i < |es| ==> nameOf(es[i].1) == es[i].0
  }

  lemma {:induction false} AddAllKeeps<T>(m: map<string, seq<T>>, es: seq<(string, T)>, nameOf: T -> string)
    requires Keyed(m, nameOf) && EntriesKeyed(es, nameOf)
    ensures Keyed(AddAll(m, es), nameOf)
  {
    if |es| > 0 {
      AddAllKeeps(m, es[..|es| - 1], nameOf);
      var m0 := AddAll(m, es[..|es| - 1]);
      var e := es[|es| - 1];
      var m1 := AddToListMap(m0, e.0, e.1);
      forall k, i | k in m1 && 0 <= i < |m1[k]|
        ensures nameOf(m1[k][i]) == k
      {
        assert m1[k] == ListOf(m1, k);
        if k == e.0 {
          if i < |ListOf(m0, k)| {
            assert m1[k][i] == m0[k][i];
          }
        } else {
          assert m1[k] == m0[k];
        }
      }
    }
  }

  /** The schemas of a data source, each under its own name. */
  function SchemaEntries(ds: JdbcDataSource): (es: seq<(string, JdbcSchema)>)
    ensures |es| == |ds.schemas|
    ensures forall i :: 0 <= i < |es| ==> es[i] == (ds.schemas[i].name, ds.schemas[i])
  {
    seq(|ds.schemas|, i requires 0 <= i < |ds.schemas| => (ds.schemas[i].name, ds.schemas[i]))
  }

  /** The tables of a schema, each under its own name. */
  function TableEntriesOf(s: JdbcSchema): (es: seq<(string, JdbcTable)>)
    ensures |es| == |s.tables|
    ensures forall i :: 0 <= i < |es| ==> es[i] == (s.tables[i].name, s.tables[i])
  {
    seq(|s.tables|, i requires 0 <= i < |s.tables| => (s.tables[i].name, s.tables[i]))
  }

  /** The tables of every schema, schema by schema. */
  function TableEntries(schemas: seq<JdbcSchema>): (es: seq<(string, JdbcTable)>)
    ensures EntriesKeyed(es, TableName)
  {
    if |schemas| == 0 then []
    else TableEntries(schemas[..|schemas| - 1]) + TableEntriesOf(schemas[|schemas| - 1])
  }

  /** Every table of the schema `schemas[k]` is among the entries. */
  lemma {:induction false} TableEntriesHave(schemas: seq<JdbcSchema>, k: nat, j: nat)
    requires k < |schemas| && j < |schemas[k].tables|
    ensures (schemas[k].tables[j].name, schemas[k].tables[j]) in TableEntries(schemas)
  {
    if k < |schemas| - 1 {
      TableEntriesHave(schemas[..|schemas| - 1], k, j);
    } else {
      assert TableEntriesOf(schemas[k])[j] == (schemas[k].tables[j].name, schemas[k].tables[j]);
    }
  }

  lemma ValuesForHasEntry<T>(es: seq<(string, T)>, key: string, v: T)
    requires (key, v) in es
    ensures v in ValuesFor(es, key)
  {
    var i :| 0 <= i < |es| && es[i] == (key, v);
    ValuesForHas(es, i);
  }

  /** The three maps, as a value. */
  datatype Maps = Maps(dataSources: map<string, seq<JdbcDataSource>>,
                       schemas: map<string, seq<JdbcSchema>>,
                       tables: map<string, seq<JdbcTable>>)

  predicate KeyedMaps(maps: Maps)
  {
    && Keyed(maps.dataSources, DataSourceName)
    && Keyed(maps.schemas, SchemaName)
    && Keyed(maps.tables, TableName)
  }

  /** addDataSourceToMaps: the data source under its name, each of its
      schemas under theirs, and each table of those schemas under theirs. */
  function AddDataSource(maps: Maps, ds: JdbcDataSource): Maps
  {
    Maps(AddToListMap(maps.dataSources, ds.name, ds),
         AddAll(maps.schemas, SchemaEntries(ds)),
         AddAll(maps.tables, TableEntries(ds.schemas)))
  }

  /** Loading keeps every list keyed by its elements' name. */
  lemma AddDataSourceKeepsKeyed(maps: Maps, ds: JdbcDataSource)
    requires KeyedMaps(maps)
    ensures KeyedMaps(AddDataSource(maps, ds))
  {
    AddAllKeeps(maps.schemas, SchemaEntries(ds), SchemaName);
    AddAllKeeps(maps.tables, TableEntries(ds.schemas), TableName);
    var m := AddToListMap(maps.dataSources, ds.name, ds);
    forall k, i | k in m && 0 <= i < |m[k]|
      ensures DataSourceName(m[k][i]) == k
    {
      assert m[k] == ListOf(m, k);
      if k == ds.name {
        if i < |ListOf(maps.dataSources, k)| {
          assert m[k][i] == maps.dataSources[k][i];
        }
      } else {
        assert m[k] == maps.dataSources[k];
      }
    }
  }

  /** Loading only appends, and records the data source, each schema and each
      table under its own name. */
  lemma AddDataSourceRecords(maps: Maps, ds: JdbcDataSource, key: string)
    ensures var after := AddDataSource(maps, ds);
      && ListOf(after.dataSources, key) == ListOf(maps.dataSources, key) + (if key == ds.name then [ds] else [])
      && ListOf(after.schemas, key) == ListOf(maps.schemas, key) + ValuesFor(SchemaEntries(ds), key)
      && ListOf(after.tables, key) == ListOf(maps.tables, key) + ValuesFor(TableEntries(ds.schemas), key)
    ensures forall i :: 0 <= i < |ds.schemas| ==> ds.schemas[i] in ListOf(AddDataSource(maps, ds).schemas, ds.schemas[i].name)
  {
    AddAllAppends(maps.schemas, SchemaEntries(ds), key);
    AddAllAppends(maps.tables, TableEntries(ds.schemas), key);
    forall i | 0 <= i < |ds.schemas|
      ensures ds.schemas[i] in ListOf(AddDataSource(maps, ds).schemas, ds.schemas[i].name)
    {
      AddAllAppends(maps.schemas, SchemaEntries(ds), ds.schemas[i].name);
      ValuesForHas(SchemaEntries(ds), i);
    }
  }

  /** Each table of each schema of the data source is recorded under its name. */
  lemma AddDataSourceRecordsTable(maps: Maps, ds: JdbcDataSource, k: nat, j: nat)
    requires k < |ds.schemas| && j < |ds.schemas[k].tables|
    ensures ds.schemas[k].tables[j] in ListOf(AddDataSource(maps, ds).tables, ds.schemas[k].tables[j].name)
  {
    var t := ds.schemas[k].tables[j];
    AddAllAppends(maps.tables, TableEntries(ds.schemas), t.name);
    TableEntriesHave(ds.schemas, k, j);
    ValuesForHasEntry(TableEntries(ds.schemas), t.name, t);
  }

  // ---------------------------------------------------------------------
  // Name resolution.

  /** The 1- and 2-part cases: exactly one schema of that name, and the table in it. */
  function ResolveInSchema(schemas: map<string, seq<JdbcSchema>>, schemaName: string, tableName: string): Result<seq<string>>
  {
    var cands := ListOf(schemas, schemaName);
    if |cands| != 1 then Failure(InvalidName(schemaName + "." + tableName))
    else match GetTable(cands[0], tableName)
      case None => Failure(InvalidName(schemaName + "." + tableName))
      case Some(t) => Success([cands[0].dataSourceName, cands[0].name, t.name])
  }

  /** toFullyQualifiedTableName. */
  function Resolve(maps: Maps, names: seq<string>, defaultSchema: string): (r: Result<seq<string>>)
    ensures r.Success? ==> |r.value| == 3
    ensures r == Failure(InvalidIdentifierLength(|names|)) <==> !(1 <= |names| <= 3)
    ensures r.Failure? && 1 <= |names| <= 3 ==> r.fault.InvalidName?
  {
    if |names| == 1 then ResolveInSchema(maps.schemas, defaultSchema, names[0])
    else if |names| == 2 then ResolveInSchema(maps.schemas, names[0], names[1])
    else if |names| == 3 then
      var cands := ListOf(maps.dataSources, names[0]);
      var full := names[0] + "." + names[1] + "." + names[2];
      if |cands| != 1 then Failure(InvalidName(full))
      else match SubSchema(cands[0], names[1])
        case None => Failure(InvalidName(full))
        case Some(s) =>
          match GetTable(s, names[2])
          case None => Failure(InvalidName(full))
          case Some(t) => Success([cands[0].name, s.name, t.name])
    else Failure(InvalidIdentifierLength(|names|))
  }

  /** A 1-part name is the 2-part name qualified by the default schema. */
  lemma OnePartUsesDefaultSchema(maps: Maps, table: string, defaultSchema: string, other: string)
    ensures Resolve(maps, [table], defaultSchema) == Resolve(maps, [defaultSchema, table], other)
  {
  }

  /** A 2-part name resolves exactly when one schema carries the name and it
      has the table; the answer names that schema's data source, the schema
      and the table. */
  lemma TwoPartIff(maps: Maps, schemaName: string, table: string, defaultSchema: string)
    ensures var r := Resolve(maps, [schemaName, table], defaultSchema);
      var cands := ListOf(maps.schemas, schemaName);
      && (r.Success? <==> |cands| == 1 && exists j :: 0 <= j < |cands[0].tables| && cands[0].tables[j].name == table)
      && (r.Success? ==> r.value == [cands[0].dataSourceName, cands[0].name, table])
      && (r.Failure? ==> r.fault == InvalidName(schemaName + "." + table))
  {
    var cands := ListOf(maps.schemas, schemaName);
    if |cands| == 1 && GetTable(cands[0], table).None? {
      assert forall j :: 0 <= j < |cands[0].tables| ==> cands[0].tables[j].name != table;
    }
  }

  /** A 3-part name resolves exactly when one data source carries the name,
      it has the schema and the schema has the table. */
  lemma ThreePartIff(maps: Maps, dsName: string, schemaName: string, table: string, defaultSchema: string)
    ensures var r := Resolve(maps, [dsName, schemaName, table], defaultSchema);
      var cands := ListOf(maps.dataSources, dsName);
      && (r.Success? <==> |cands| == 1 && SubSchema(cands[0], schemaName).Some?
                          && GetTable(SubSchema(cands[0], schemaName).value, table).Some?)
      && (r.Success? ==> r.value == [cands[0].name, schemaName, table])
      && (r.Failure? ==> r.fault == InvalidName(dsName + "." + schemaName + "." + table))
  {
  }

  /** With every list keyed by name, a resolved name echoes the request: the
      table part is the last name, the schema part the one before it (the
      default schema for a 1-part name), and a 3-part name's data source
      part is its first name. */
  lemma ResolvedEchoesRequest(maps: Maps, names: seq<string>, defaultSchema: string)
    requires KeyedMaps(maps)
    requires Resolve(maps, names, defaultSchema).Success?
    ensures var fqn := Resolve(maps, names, defaultSchema).value;
      && fqn[2] == names[|names| - 1]
      && fqn[1] == (if |names| == 1 then defaultSchema else names[|names| - 2])
      && (|names| == 3 ==> fqn[0] == names[0])
  {
    if |names| == 1 {
      var cands := ListOf(maps.schemas, defaultSchema);
      assert SchemaName(maps.schemas[defaultSchema][0]) == defaultSchema;
    } else if |names| == 2 {
      var cands := ListOf(maps.schemas, names[0]);
      assert SchemaName(maps.schemas[names[0]][0]) == names[0];
    } else {
      assert DataSourceName(maps.dataSources[names[0]][0]) == names[0];
    }
  }

  /** Loading the same data source a second time (as refreshDataSource does)
      gives its name, and each of its schemas' names, two candidates, so no
      name through them resolves any more. */
  lemma ReloadBreaksResolution(maps: Maps, ds: JdbcDataSource, table: string, schemaName: string,
                               defaultSchema: string)
    ensures var twice := AddDataSource(AddDataSource(maps, ds), ds);
      Resolve(twice, [ds.name, schemaName, table], defaultSchema).Failure?
    ensures var twice := AddDataSource(AddDataSource(maps, ds), ds);
      forall i :: 0 <= i < |ds.schemas| ==>
        && Resolve(twice, [ds.schemas[i].name, table], defaultSchema).Failure?
        && Resolve(twice, [table], ds.schemas[i].name).Failure?
  {
    var once := AddDataSource(maps, ds);
    var twice := AddDataSource(once, ds);
    AddDataSourceRecords(maps, ds, ds.name);
    AddDataSourceRecords(once, ds, ds.name);
    forall i | 0 <= i < |ds.schemas|
      ensures && Resolve(twice, [ds.schemas[i].name, table], defaultSchema).Failure?
              && Resolve(twice, [table], ds.schemas[i].name).Failure?
    {
      var key := ds.schemas[i].name;
      AddDataSourceRecords(maps, ds, key);
      AddDataSourceRecords(once, ds, key);
      ValuesForHas(SchemaEntries(ds), i);
      assert |ValuesFor(SchemaEntries(ds), key)| >= 1;
    }
  }

  // ---------------------------------------------------------------------
  // The object.

  class SchemaManager {
    var traindbDataSource: Option<JdbcDataSource>
    var dataSourceMap: map<string, seq<JdbcDataSource>>
    var schemaMap: map<string, seq<JdbcSchema>>
    var tableMap: map<string, seq<JdbcTable>>

    function Snapshot(): Maps
      reads this
    {
      Maps(dataSourceMap, schemaMap, tableMap)
    }

    ghost predicate Valid()
      reads this
    {
      KeyedMaps(Snapshot())
    }

    /** No data source loaded and empty maps. */
    constructor ()
      ensures Valid()
      ensures Snapshot() == Maps(map[], map[], map[]) && traindbDataSource == None
    {
      traindbDataSource := None;
      dataSourceMap, schemaMap, tableMap := map[], map[], map[];
    }

    method AddDataSourceToMaps(ds: JdbcDataSource)
      requires Valid()
      modifies this`dataSourceMap, this`schemaMap, this`tableMap
      ensures Valid()
      ensures Snapshot() == AddDataSource(old(Snapshot()), ds)
    {
      AddDataSourceKeepsKeyed(Snapshot(), ds);
      dataSourceMap := AddToListMap(dataSourceMap, ds.name, ds);
      AddSchemasOf(ds);
    }

    /** The outer loop: each schema under its name, then its tables. */
    method AddSchemasOf(ds: JdbcDataSource)
      modifies this`schemaMap, this`tableMap
      ensures schemaMap == AddAll(old(schemaMap), SchemaEntries(ds))
      ensures tableMap == AddAll(old(tableMap), TableEntries(ds.schemas))
    {
      ghost var entries := SchemaEntries(ds);
      for i := 0 to |ds.schemas|
        invariant schemaMap == AddAll(old(schemaMap), entries[..i])
        invariant tableMap == AddAll(old(tableMap), TableEntries(ds.schemas[..i]))
      {
        var schema := ds.schemas[i];
        AddAllSnoc(old(schemaMap), entries, i);
        TableEntriesSnoc(old(tableMap), ds.schemas, i);
        schemaMap := AddToListMap(schemaMap, schema.name, schema);
        AddTablesOf(schema);
      }
      assert entries[..|ds.schemas|] == entries;
      assert ds.schemas[..|ds.schemas|] == ds.schemas;
    }

    /** The inner loop: each table of the schema under its name. */
    method AddTablesOf(schema: JdbcSchema)
      modifies this`tableMap
      ensures tableMap == AddAll(old(tableMap), TableEntriesOf(schema))
    {
      ghost var tables := TableEntriesOf(schema);
      for j := 0 to |schema.tables|
        invariant tableMap == AddAll(old(tableMap), tables[..j])
      {
        AddAllSnoc(old(tableMap), tables, j);
        tableMap := AddToListMap(tableMap, schema.tables[j].name, schema.tables[j]);
      }
      assert tables[..|schema.tables|] == tables;
    }

    method LoadDataSource(d: DataSource, describe: Describe)
      requires Valid()
      modifies this
      ensures Valid()
      ensures Snapshot() == AddDataSource(old(Snapshot()), Connect(d, describe))
      ensures traindbDataSource == Some(Connect(d, describe))
    {
      var ds := Connect(d, describe);
      AddDataSourceToMaps(ds);
      traindbDataSource := Some(ds);
    }

    /** Load again the DataSource of the current data source; with none
        loaded yet this dereferences null. */
    method RefreshDataSource(describe: Describe) returns (fault: Option<Fault>)
      requires Valid()
      modifies this
      ensures Valid()
      ensures old(traindbDataSource).None? ==>
        fault == Some(NullPointer) && Snapshot() == old(Snapshot()) && traindbDataSource == old(traindbDataSource)
      ensures old(traindbDataSource).Some? ==>
        && fault == None
        && Snapshot() == AddDataSource(old(Snapshot()), Connect(old(traindbDataSource).value.source, describe))
        && traindbDataSource == Some(Connect(old(traindbDataSource).value.source, describe))
    {
      if traindbDataSource.None? {
        return Some(NullPointer);
      }
      LoadDataSource(traindbDataSource.value.source, describe);
      fault := None;
    }

    method ToFullyQualifiedTableName(names: seq<string>, defaultSchema: string) returns (r: Result<seq<string>>)
      ensures r == Resolve(Snapshot(), names, defaultSchema)
    {
      var schema: JdbcSchema;
      var table: Option<JdbcTable>;
      var dataSourceName: string;
      if |names| == 1 {
        var candidateSchemas := ListOf(schemaMap, defaultSchema);
        if |candidateSchemas| != 1 {
          return Failure(InvalidName(defaultSchema + "." + names[0]));
        }
        schema := candidateSchemas[0];
        table := GetTable(schema, names[0]);
        if table.None? {
          return Failure(InvalidName(defaultSchema + "." + names[0]));
        }
        dataSourceName := schema.dataSourceName;
      } else if |names| == 2 {
        var candidateSchemas := ListOf(schemaMap, names[0]);
        if |candidateSchemas| != 1 {
          return Failure(InvalidName(names[0] + "." + names[1]));
        }
        schema := candidateSchemas[0];
        table := GetTable(schema, names[1]);
        if table.None? {
          return Failure(InvalidName(names[0] + "." + names[1]));
        }
        dataSourceName := schema.dataSourceName;
      } else if |names| == 3 {
        var candidateDataSources := ListOf(dataSourceMap, names[0]);
        if |candidateDataSources| != 1 {
          return Failure(InvalidName(names[0] + "." + names[1] + "." + names[2]));
        }
        var dataSource := candidateDataSources[0];
        var found := SubSchema(dataSource, names[1]);
        if found.None? {
          return Failure(InvalidName(names[0] + "." + names[1] + "." + names[2]));
        }
        schema := found.value;
        table := GetTable(schema, names[2]);
        if table.None? {
          return Failure(InvalidName(names[0] + "." + names[1] + "." + names[2]));
        }
        dataSourceName := dataSource.name;
      } else {
        return Failure(InvalidIdentifierLength(|names|));
      }
      r := Success([dataSourceName, schema.name, table.value.name]);
    }
  }

  /** The static singleton of SchemaManager. */
  class SchemaManagerHolder {
    var singletonInstance: SchemaManager?

    constructor ()
      ensures singletonInstance == null
    {
      singletonInstance := null;
    }

    /** The first call creates the instance; every call returns it. */
    method GetInstance() returns (m: SchemaManager)
      modifies this
      ensures singletonInstance == m
      ensures old(singletonInstance) != null ==> m == old(singletonInstance)
      ensures old(singletonInstance) == null ==>
        fresh(m) && m.Valid() && m.Snapshot() == Maps(map[], map[], map[]) && m.traindbDataSource == None
    {
      if singletonInstance == null {
        singletonInstance := new SchemaManager();
      }
      m := singletonInstance;
    }
  }
}
