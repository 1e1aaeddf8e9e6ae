/**
 The cache refresh: build the database map from the filtered database
 listing, then fetch, filter and index the schema listing of every kept
 database, merging the per-database maps in the dict's iteration order.
 */
module SchemaCache {
  import opened Basics
  import opened Text
  import opened Pipeline
  import opened Keyed
  import opened Catalog
  import opened FanOut

  /** The two wrapped failures of a reload, each carrying the filter's own cause. */
  datatype CacheError =
    | DbFilterFailed(cause: string)
    | SchemaFilterFailed(cause: string)

  /** The loaded filter plugins, in load order. */
  datatype Filters = Filters(db: seq<Filter<DatabaseRow>>, schema: seq<Filter<SchemaRow>>)

  /** What the catalog answers: the database listing, and the schema listing of each database. */
  datatype Listings = Listings(databases: seq<DatabaseRow>, schemasIn: string -> seq<SchemaRow>)

  /** The two maps the cache exposes. */
  datatype Cache = Cache(databases: map<string, DatabaseRecord>, schemas: map<string, SchemaRecord>)

  /** The maps after a reload, and the error it raised, if any. */
  datatype ReloadOutcome = ReloadOutcome(cache: Cache, failure: Option<CacheError>)

  const EmptyCache := Cache(map[], map[])

  function DatabaseKey(row: DatabaseRow): (k: string) {
    row.name
  }

  /** `f"{database_name}.{name}"` */
  function SchemaKey(row: SchemaRow): (k: string) {
    row.databaseName + "." + row.name
  }

  function DatabaseKeep(p: Policy): (keep: DatabaseRow -> bool) {
    row => DatabaseVisible(p, row)
  }

  /** Every kept database row carries a retention text `int()` accepts. */
  ghost predicate RetentionsParse(p: Policy, rows: seq<DatabaseRow>) {
    forall i :: 0 <= i < |rows| && DatabaseVisible(p, rows[i]) ==> IsDigits(rows[i].retentionTime)
  }

  // ---------------------------------------------------------------------------
  // Databases

  /** The database map built from the filtered database listing. */
  function BuildDatabases(p: Policy, rows: seq<DatabaseRow>): (m: map<string, DatabaseRecord>)
    requires RetentionsParse(p, rows)
    ensures forall k :: k in m <==> exists i :: 0 <= i < |rows| && DatabaseVisible(p, rows[i]) && rows[i].name == k
    ensures forall k :: k in m ==> exists i :: && 0 <= i < |rows| && DatabaseVisible(p, rows[i])
                                              && rows[i].name == k && m[k] == ToDatabaseRecord(rows[i])
  {
    var m := Index(rows, DatabaseKeep(p), DatabaseKey, ToDatabaseRecord);
    assert forall k :: k in m ==> exists i :: && 0 <= i < |rows| && DatabaseVisible(p, rows[i])
                                              && rows[i].name == k && m[k] == ToDatabaseRecord(rows[i]) by {
      forall k | k in m
        ensures exists i :: && 0 <= i < |rows| && DatabaseVisible(p, rows[i])
                            && rows[i].name == k && m[k] == ToDatabaseRecord(rows[i])
      {
        IndexFromLastKept(rows, DatabaseKeep(p), DatabaseKey, ToDatabaseRecord, k);
      }
    }
    m
  }

  /** A later kept row with the same name overwrites an earlier one. */
  lemma DatabaseLastWins(p: Policy, rows: seq<DatabaseRow>, i: int)
    requires RetentionsParse(p, rows)
    requires 0 <= i < |rows| && DatabaseVisible(p, rows[i])
    requires forall j :: i < j < |rows| && DatabaseVisible(p, rows[j]) ==> rows[j].name != rows[i].name
    ensures BuildDatabases(p, rows)[rows[i].name] == ToDatabaseRecord(rows[i])
  {
    assert LastKept(rows, DatabaseKeep(p), DatabaseKey, i);
    IndexLastWins(rows, DatabaseKeep(p), DatabaseKey, ToDatabaseRecord, i);
  }

  /** A name listed only by shares never becomes a key, whatever its owner or the include list. */
  lemma SharesExcluded(p: Policy, rows: seq<DatabaseRow>, name: string)
    requires RetentionsParse(p, rows)
    requires forall i :: 0 <= i < |rows| && rows[i].name == name ==> IsShare(rows[i])
    ensures name !in BuildDatabases(p, rows)
  {
  }

  /** Without `ignore_ownership`, every kept database is owned by the current role. */
  lemma OwnershipEnforced(p: Policy, rows: seq<DatabaseRow>)
    requires RetentionsParse(p, rows)
    requires !p.ignoreOwnership
    ensures forall k :: k in BuildDatabases(p, rows) ==> BuildDatabases(p, rows)[k].owner == p.currentRole
  {
  }

  /** With `ignore_ownership`, ownership excludes nothing: the keys are exactly the
      names of the native, included rows. */
  lemma OwnershipIgnored(p: Policy, rows: seq<DatabaseRow>)
    requires RetentionsParse(p, rows)
    requires p.ignoreOwnership
    ensures forall k :: k in BuildDatabases(p, rows) <==>
                          exists i :: 0 <= i < |rows| && !IsShare(rows[i]) && Included(p, rows[i]) && rows[i].name == k
  {
  }

  /** With an include list, every key's identifier is in the list. */
  lemma IncludeListEnforced(p: Policy, rows: seq<DatabaseRow>)
    requires RetentionsParse(p, rows)
    requires p.includeDatabases != {}
    ensures forall k :: k in BuildDatabases(p, rows) ==> p.ident(k) in p.includeDatabases
  {
  }

  /** Without an include list, it excludes nothing: the keys are exactly the names
      of the native rows ownership allows. */
  lemma NoIncludeList(p: Policy, rows: seq<DatabaseRow>)
    requires RetentionsParse(p, rows)
    requires p.includeDatabases == {}
    ensures forall k :: k in BuildDatabases(p, rows) <==>
                          exists i :: 0 <= i < |rows| && OwnershipAllows(p, rows[i]) && !IsShare(rows[i]) && rows[i].name == k
  {
  }

  /** The database names in the iteration order of the database dict: each key
      once, ordered by the first visible row that inserted it. */
  function DatabaseOrder(p: Policy, rows: seq<DatabaseRow>): (names: seq<string>)
    requires RetentionsParse(p, rows)
    ensures forall a, b :: 0 <= a < b < |names| ==> names[a] != names[b]
    ensures forall k :: k in names <==> k in BuildDatabases(p, rows)
  {
    FirstKeys(rows, DatabaseKeep(p), DatabaseKey)
  }

  /** Python dicts iterate in insertion order: wherever a later-visited name has a
      visible row, every earlier-visited name has a visible row before it. */
  lemma DatabaseOrderIsInsertionOrder(p: Policy, rows: seq<DatabaseRow>, a: int, b: int, j: int)
    requires RetentionsParse(p, rows)
    requires 0 <= a < b < |DatabaseOrder(p, rows)|
    requires 0 <= j < |rows| && DatabaseVisible(p, rows[j]) && rows[j].name == DatabaseOrder(p, rows)[b]
    ensures exists i :: 0 <= i < j && DatabaseVisible(p, rows[i]) && rows[i].name == DatabaseOrder(p, rows)[a]
  {
    var names := DatabaseOrder(p, rows);
    FirstKeysOrder(rows, DatabaseKeep(p), DatabaseKey);
    assert DatabaseKeep(p)(rows[j]) && DatabaseKey(rows[j]) == names[b];
    var i :| 0 <= i < j && DatabaseKeep(p)(rows[i]) && DatabaseKey(rows[i]) == names[a];
  }

  /** Two native databases, one owned by the current role and one by another role,
      no include list, ownership not ignored: only the owned one is cached. */
  lemma OwnedDatabaseScenario(ident: string -> string)
    ensures var p := Policy("SNOWDDL_ADMIN", false, {}, ident);
            var rows := [DatabaseRow("A", "SNOWDDL_ADMIN", "", "", "1", ""), DatabaseRow("B", "OTHER_ROLE", "", "", "1", "")];
            BuildDatabases(p, rows).Keys == {"A"}
  {
    var p := Policy("SNOWDDL_ADMIN", false, {}, ident);
    var rows := [DatabaseRow("A", "SNOWDDL_ADMIN", "", "", "1", ""), DatabaseRow("B", "OTHER_ROLE", "", "", "1", "")];
    assert DatabaseVisible(p, rows[0]) && !DatabaseVisible(p, rows[1]);
    assert RetentionsParse(p, rows);
    var m := BuildDatabases(p, rows);
    assert "A" in m;
    forall k | k in m
      ensures k == "A"
    {
      var i :| 0 <= i < |rows| && DatabaseVisible(p, rows[i]) && rows[i].name == k;
    }
  }

  // ---------------------------------------------------------------------------
  // Schemas of one database

  /** The schema map built from the filtered schema listing of one database. */
  function BuildSchemas(rows: seq<SchemaRow>): (m: map<string, SchemaRecord>)
    ensures forall k :: k in m <==> exists i :: 0 <= i < |rows| && SchemaVisible(rows[i]) && SchemaKey(rows[i]) == k
    ensures forall k :: k in m ==> exists i :: && 0 <= i < |rows| && SchemaVisible(rows[i])
                                              && SchemaKey(rows[i]) == k && m[k] == ToSchemaRecord(rows[i])
  {
    var m := Index(rows, SchemaVisible, SchemaKey, ToSchemaRecord);
    assert forall k :: k in m ==> exists i :: && 0 <= i < |rows| && SchemaVisible(rows[i])
                                              && SchemaKey(rows[i]) == k && m[k] == ToSchemaRecord(rows[i]) by {
      forall k | k in m
        ensures exists i :: && 0 <= i < |rows| && SchemaVisible(rows[i])
                            && SchemaKey(rows[i]) == k && m[k] == ToSchemaRecord(rows[i])
      {
        IndexFromLastKept(rows, SchemaVisible, SchemaKey, ToSchemaRecord, k);
      }
    }
    m
  }

  /** Every schema record sits under `"<database>.<schema>"` of its own fields, and
      none is the information schema. */
  lemma SchemaKeyFormat(rows: seq<SchemaRow>)
    ensures forall k :: k in BuildSchemas(rows) ==>
                          && k == BuildSchemas(rows)[k].database + "." + BuildSchemas(rows)[k].schema
                          && BuildSchemas(rows)[k].schema != InformationSchema
  {
  }

  /** A key reached only by information-schema rows gets no record. */
  lemma InformationSchemaExcluded(rows: seq<SchemaRow>, k: string)
    requires forall i :: 0 <= i < |rows| && SchemaKey(rows[i]) == k ==> rows[i].name == InformationSchema
    ensures k !in BuildSchemas(rows)
  {
  }

  /** A later row with the same key overwrites an earlier one. */
  lemma SchemaLastWins(rows: seq<SchemaRow>, i: int)
    requires 0 <= i < |rows| && SchemaVisible(rows[i])
    requires forall j :: i < j < |rows| && SchemaVisible(rows[j]) ==> SchemaKey(rows[j]) != SchemaKey(rows[i])
    ensures BuildSchemas(rows)[SchemaKey(rows[i])] == ToSchemaRecord(rows[i])
  {
    assert LastKept(rows, SchemaVisible, SchemaKey, i);
    IndexLastWins(rows, SchemaVisible, SchemaKey, ToSchemaRecord, i);
  }

  /** `_get_database_schemas`: filter, then index, the schema listing of one
      database. A filter failure is wrapped with its cause; on success the keys are
      exactly those of the visible filtered rows, each record is built from such a
      row, every key is its record's `"<database>.<schema>"` and no record is the
      information schema. */
  function DatabaseSchemas(filters: seq<Filter<SchemaRow>>, listing: seq<SchemaRow>): (r: Result<map<string, SchemaRecord>, CacheError>)
    ensures r.Err? <==> Run(filters, listing).Err?
    ensures r.Err? ==> r.error == SchemaFilterFailed(Run(filters, listing).error)
    ensures r.Ok? ==> forall k :: k in r.value ==> && k == r.value[k].database + "." + r.value[k].schema
                                                   && r.value[k].schema != InformationSchema
    ensures r.Ok? ==> var rows := Run(filters, listing).value;
                      forall k :: k in r.value <==> exists i :: 0 <= i < |rows| && SchemaVisible(rows[i]) && SchemaKey(rows[i]) == k
    ensures r.Ok? ==> var rows := Run(filters, listing).value;
                      forall k :: k in r.value ==> exists i :: && 0 <= i < |rows| && SchemaVisible(rows[i])
                                                              && SchemaKey(rows[i]) == k && r.value[k] == ToSchemaRecord(rows[i])
  {
    match Run(filters, listing)
    case Err(cause) => Err(SchemaFilterFailed(cause))
    case Ok(rows) => Ok(BuildSchemas(rows))
  }

  // ---------------------------------------------------------------------------
  // Reload

  /** The schema fetch of one database: its listing through the schema filters, indexed. */
  function SchemaFetch(filters: seq<Filter<SchemaRow>>, listings: Listings): (fetch: Fetch<SchemaRecord, CacheError>) {
    name => SchemasOf(filters, listings, name)
  }

  /** The schema map of the database called `name`, or the wrapped filter failure. */
  function SchemasOf(filters: seq<Filter<SchemaRow>>, listings: Listings, name: string): (r: Result<map<string, SchemaRecord>, CacheError>) {
    DatabaseSchemas(filters, listings.schemasIn(name))
  }

  /** The filtered database listing satisfies the `int()` requirement on retention. */
  ghost predicate ListingParses(p: Policy, filters: Filters, listings: Listings) {
    Run(filters.db, listings.databases).Ok? ==> RetentionsParse(p, Run(filters.db, listings.databases).value)
  }

  /**
   `reload()`: both maps start empty (the prior cache is dropped), the database
   filters run over the database listing, the kept rows fill the database map,
   then every database's schema map is merged in the database map's order.
   A failure leaves whatever was built before it.
   */
  function Reload(prior: Cache, p: Policy, filters: Filters, listings: Listings): (r: ReloadOutcome)
    requires ListingParses(p, filters, listings)
    ensures (r.failure.Some? && r.failure.value.DbFilterFailed?) <==> Run(filters.db, listings.databases).Err?
    ensures r.failure.Some? && r.failure.value.DbFilterFailed? ==> r.cache == EmptyCache
    ensures forall k :: k in r.cache.databases ==> r.cache.databases[k].database == k
    ensures forall k :: k in r.cache.schemas ==> k == r.cache.schemas[k].database + "." + r.cache.schemas[k].schema
  {
    match Run(filters.db, listings.databases)
    case Err(cause) => ReloadOutcome(EmptyCache, Some(DbFilterFailed(cause)))
    case Ok(rows) =>
      var databases := BuildDatabases(p, rows);
      var fetch := SchemaFetch(filters.schema, listings);
      var merged := MergeAll(fetch, DatabaseOrder(p, rows));
      assert merged.failure.Some? ==> merged.failure.value.SchemaFilterFailed? by {
        if merged.failure.Some? {
          MergeFirstFailure(fetch, DatabaseOrder(p, rows));
        }
      }
      assert forall k :: k in merged.entries ==> k == merged.entries[k].database + "." + merged.entries[k].schema by {
        forall k | k in merged.entries
          ensures k == merged.entries[k].database + "." + merged.entries[k].schema
        {
          MergeFrom(fetch, DatabaseOrder(p, rows), k);
        }
      }
      ReloadOutcome(Cache(databases, merged.entries), merged.failure)
  }

  /** The prior maps play no part: reload starts both maps from empty. */
  lemma ReloadIgnoresPrior(prior1: Cache, prior2: Cache, p: Policy, filters: Filters, listings: Listings)
    requires ListingParses(p, filters, listings)
    ensures Reload(prior1, p, filters, listings) == Reload(prior2, p, filters, listings)
  {
  }

  /** Reloading again over unchanged listings, filters and settings gives the same maps. */
  lemma ReloadIdempotent(prior: Cache, p: Policy, filters: Filters, listings: Listings)
    requires ListingParses(p, filters, listings)
    ensures var once := Reload(prior, p, filters, listings);
            Reload(once.cache, p, filters, listings) == once
  {
  }

  /** Once the database filters pass, the database map is the one built from the filter
      output (exactly the names of its visible rows, with their records), and any
      failure is a schema filter failure. */
  lemma ReloadDatabases(prior: Cache, p: Policy, filters: Filters, listings: Listings, rows: seq<DatabaseRow>)
    requires ListingParses(p, filters, listings)
    requires Run(filters.db, listings.databases) == Ok(rows)
    ensures var r := Reload(prior, p, filters, listings);
            && (forall k :: k in r.cache.databases <==> exists i :: 0 <= i < |rows| && DatabaseVisible(p, rows[i]) && rows[i].name == k)
            && r.cache.databases == BuildDatabases(p, rows)
            && (r.failure.None? || r.failure.value.SchemaFilterFailed?)
  {
  }

  /** Every schema listing reports, in `database_name`, the database it was queried for. */
  ghost predicate ListingsReportQueried(listings: Listings) {
    forall d, i :: 0 <= i < |listings.schemasIn(d)| ==> listings.schemasIn(d)[i].databaseName == d
  }

  /** No schema filter changes the `database_name` a row reports. */
  ghost predicate FiltersKeepDatabaseName(filters: seq<Filter<SchemaRow>>) {
    forall d :: Preserves(filters, ReportsDatabase(d))
  }

  function ReportsDatabase(d: string): (inv: seq<SchemaRow> -> bool) {
    (rows: seq<SchemaRow>) => forall i :: 0 <= i < |rows| ==> rows[i].databaseName == d
  }

  /** The rows a successful schema pipeline leaves for database `d` all report `d`. */
  lemma FilteredReportQueried(filters: seq<Filter<SchemaRow>>, listings: Listings, d: string)
    requires ListingsReportQueried(listings)
    requires FiltersKeepDatabaseName(filters)
    ensures Run(filters, listings.schemasIn(d)).Ok? ==> ReportsDatabase(d)(Run(filters, listings.schemasIn(d)).value)
  {
    RunPreserves(filters, ReportsDatabase(d), listings.schemasIn(d));
  }

  /** Every schema in the cache belongs to a database in the cache (even after a
      failed reload), provided each listing reports the database it was queried for. */
  lemma ReloadSchemasWithinDatabases(prior: Cache, p: Policy, filters: Filters, listings: Listings)
    requires ListingParses(p, filters, listings)
    requires ListingsReportQueried(listings)
    requires FiltersKeepDatabaseName(filters.schema)
    ensures var c := Reload(prior, p, filters, listings).cache;
            forall k :: k in c.schemas ==> c.schemas[k].database in c.databases
  {
    match Run(filters.db, listings.databases)
    case Err(_) =>
    case Ok(rows) =>
      var c := Reload(prior, p, filters, listings).cache;
      var names := DatabaseOrder(p, rows);
      var fetch := SchemaFetch(filters.schema, listings);
      forall k | k in c.schemas
        ensures c.schemas[k].database in c.databases
      {
        MergeFrom(fetch, names, k);
        var j :| && 0 <= j < |names| && fetch(names[j]).Ok? && k in fetch(names[j]).value
                 && c.schemas[k] == fetch(names[j]).value[k];
        FilteredReportQueried(filters.schema, listings, names[j]);
        var srows := Run(filters.schema, listings.schemasIn(names[j])).value;
        var i :| && 0 <= i < |srows| && SchemaVisible(srows[i])
                 && SchemaKey(srows[i]) == k && c.schemas[k] == ToSchemaRecord(srows[i]);
        assert c.schemas[k].database == names[j];
      }
  }

  /** A reload succeeds exactly when the database filters pass and so does the schema
      pipeline of every kept database. */
  lemma ReloadSucceeds(prior: Cache, p: Policy, filters: Filters, listings: Listings)
    requires ListingParses(p, filters, listings)
    ensures var r := Reload(prior, p, filters, listings);
            r.failure.None? <==>
              && Run(filters.db, listings.databases).Ok?
              && forall d :: d in r.cache.databases ==> Run(filters.schema, listings.schemasIn(d)).Ok?
  {
    match Run(filters.db, listings.databases)
    case Err(_) =>
    case Ok(rows) =>
      var names := DatabaseOrder(p, rows);
      MergeFailure(SchemaFetch(filters.schema, listings), names);
  }

  /** Once the database filters pass, a reload is the database map of their output
      together with the in-order merge of its databases' schema maps. */
  lemma ReloadUnfolds(prior: Cache, p: Policy, filters: Filters, listings: Listings, rows: seq<DatabaseRow>)
    requires ListingParses(p, filters, listings)
    requires Run(filters.db, listings.databases) == Ok(rows)
    ensures var merged := MergeAll(SchemaFetch(filters.schema, listings), DatabaseOrder(p, rows));
            Reload(prior, p, filters, listings) == ReloadOutcome(Cache(BuildDatabases(p, rows), merged.entries), merged.failure)
  {
  }

  /** After a successful reload the schema map is the union of the schema maps of the
      kept databases: a key is present exactly when one of them has it. */
  lemma ReloadSchemasAreUnion(prior: Cache, p: Policy, filters: Filters, listings: Listings, k: string)
    requires ListingParses(p, filters, listings)
    requires Reload(prior, p, filters, listings).failure.None?
    ensures var c := Reload(prior, p, filters, listings).cache;
            k in c.schemas <==>
              exists d :: d in c.databases && SchemasOf(filters.schema, listings, d).Ok?
                          && k in SchemasOf(filters.schema, listings, d).value
  {
    var rows := Run(filters.db, listings.databases).value;
    ReloadUnfolds(prior, p, filters, listings, rows);
    var c := Reload(prior, p, filters, listings).cache;
    var names := DatabaseOrder(p, rows);
    var fetch := SchemaFetch(filters.schema, listings);
    if k in c.schemas {
      ReloadSchemaFrom(prior, p, filters, listings, k);
    }
    if exists d :: d in c.databases && SchemasOf(filters.schema, listings, d).Ok?
                   && k in SchemasOf(filters.schema, listings, d).value {
      var d :| d in c.databases && SchemasOf(filters.schema, listings, d).Ok?
               && k in SchemasOf(filters.schema, listings, d).value;
      assert d in names;
      var j :| 0 <= j < |names| && names[j] == d;
      MergeCovers(fetch, names, j, k);
    }
  }

  /** Every schema record of a reload, failed or not, is the record some cached
      database's schema map holds for that key. */
  lemma ReloadSchemaFrom(prior: Cache, p: Policy, filters: Filters, listings: Listings, k: string)
    requires ListingParses(p, filters, listings)
    ensures var c := Reload(prior, p, filters, listings).cache;
            k in c.schemas ==>
              exists d :: && d in c.databases && SchemasOf(filters.schema, listings, d).Ok?
                          && k in SchemasOf(filters.schema, listings, d).value
                          && c.schemas[k] == SchemasOf(filters.schema, listings, d).value[k]
  {
    var c := Reload(prior, p, filters, listings).cache;
    if k in c.schemas {
      var rows := Run(filters.db, listings.databases).value;
      ReloadUnfolds(prior, p, filters, listings, rows);
      var names := DatabaseOrder(p, rows);
      var fetch := SchemaFetch(filters.schema, listings);
      MergeFrom(fetch, names, k);
      var j :| && 0 <= j < |names| && fetch(names[j]).Ok? && k in fetch(names[j]).value
               && c.schemas[k] == fetch(names[j]).value[k];
      assert names[j] in c.databases;
    }
  }

  /** `update` in dict order: when every schema pipeline passes, a key's record is
      that of the last database, in the database map's order, whose schema map has
      the key. */
  lemma ReloadSchemaLastWins(prior: Cache, p: Policy, filters: Filters, listings: Listings, rows: seq<DatabaseRow>, j: int, k: string)
    requires ListingParses(p, filters, listings)
    requires Run(filters.db, listings.databases) == Ok(rows)
    requires forall i :: 0 <= i < |DatabaseOrder(p, rows)| ==> SchemasOf(filters.schema, listings, DatabaseOrder(p, rows)[i]).Ok?
    requires 0 <= j < |DatabaseOrder(p, rows)| && k in SchemasOf(filters.schema, listings, DatabaseOrder(p, rows)[j]).value
    requires forall i :: j < i < |DatabaseOrder(p, rows)| ==> k !in SchemasOf(filters.schema, listings, DatabaseOrder(p, rows)[i]).value
    ensures var c := Reload(prior, p, filters, listings).cache;
            var d := DatabaseOrder(p, rows)[j];
            k in c.schemas && c.schemas[k] == SchemasOf(filters.schema, listings, d).value[k]
  {
    var names := DatabaseOrder(p, rows);
    var fetch := SchemaFetch(filters.schema, listings);
    ReloadUnfolds(prior, p, filters, listings, rows);
    MergeFailure(fetch, names);
    MergeLastWins(fetch, names, j, k);
  }

  /** A schema filter failure leaves the database map complete and the schema map
      holding what the databases before the failing one (in dict order) produced. */
  lemma ReloadPartialOnSchemaFailure(prior: Cache, p: Policy, filters: Filters, listings: Listings)
    requires ListingParses(p, filters, listings)
    requires Reload(prior, p, filters, listings).failure.Some?
    requires Reload(prior, p, filters, listings).failure.value.SchemaFilterFailed?
    ensures Run(filters.db, listings.databases).Ok?
    ensures var rows := Run(filters.db, listings.databases).value;
            var names := DatabaseOrder(p, rows);
            var r := Reload(prior, p, filters, listings);
            && r.cache.databases == BuildDatabases(p, rows)
            && exists j :: && 0 <= j < |names|
                           && Run(filters.schema, listings.schemasIn(names[j])) == Err(r.failure.value.cause)
                           && (forall i :: 0 <= i < j ==> Run(filters.schema, listings.schemasIn(names[i])).Ok?)
                           && r.cache.schemas == MergeAll(SchemaFetch(filters.schema, listings), names[..j]).entries
  {
    var rows := Run(filters.db, listings.databases).value;
    var names := DatabaseOrder(p, rows);
    var fetch := SchemaFetch(filters.schema, listings);
    MergeFirstFailure(fetch, names);
    var j :| && 0 <= j < |names| && fetch(names[j]).Err?
             && (forall i :: 0 <= i < j ==> fetch(names[i]).Ok?)
             && MergeAll(fetch, names) == Merged(MergeAll(fetch, names[..j]).entries, Some(fetch(names[j]).error));
    forall i | 0 <= i < j
      ensures Run(filters.schema, listings.schemasIn(names[i])).Ok?
    {
      assert fetch(names[i]).Ok?;
    }
  }

}
