/**
 Catalog rows as the listing queries return them, the records the cache
 keeps, the visibility policy that decides which database and schema rows
 are kept, and the normalisation that turns a kept row into a record.
 */
module Catalog {
  import opened Basics
  import opened Text

  /** One row of the database listing (`SHOW DATABASES LIKE ...`). */
  datatype DatabaseRow = DatabaseRow(
    name: string,
    owner: string,
    comment: string,
    options: string,
    retentionTime: string,
    origin: string)

  /** One row of the schema listing of a database (`SHOW SCHEMAS IN DATABASE ...`). */
  datatype SchemaRow = SchemaRow(
    name: string,
    databaseName: string,
    owner: string,
    comment: string,
    options: string,
    retentionTime: string)

  /** The value stored under a database name. */
  datatype DatabaseRecord = DatabaseRecord(
    database: string,
    owner: string,
    comment: Option<string>,
    isTransient: bool,
    retentionTime: nat)

  /** The value stored under a `"<database>.<schema>"` key. */
  datatype SchemaRecord = SchemaRecord(
    database: string,
    schema: string,
    owner: string,
    comment: Option<string>,
    isTransient: bool,
    isManagedAccess: bool,
    retentionTime: nat)

  /**
   The settings and session facts the database visibility rule reads:
   the session's current role, the `ignore_ownership` setting, the
   `include_databases` setting (empty when absent) as normalised identifiers,
   and `ident`, the identifier normalisation `Ident(...)` applies to a name.
   */
  datatype Policy = Policy(
    currentRole: string,
    ignoreOwnership: bool,
    includeDatabases: set<string>,
    ident: string -> string)

  const TransientMarker: string := "TRANSIENT"
  const ManagedAccessMarker: string := "MANAGED ACCESS"
  const InformationSchema: string := "INFORMATION_SCHEMA"

  /** Rows owned by another role are skipped unless ownership is ignored. */
  predicate OwnershipAllows(p: Policy, row: DatabaseRow) {
    row.owner == p.currentRole || p.ignoreOwnership
  }

  /** A non-empty origin marks a database materialised from a share. */
  predicate IsShare(row: DatabaseRow) {
    row.origin != ""
  }

  /** With an include list, only databases whose identifier is listed are kept. */
  predicate Included(p: Policy, row: DatabaseRow) {
    p.includeDatabases == {} || p.ident(row.name) in p.includeDatabases
  }

  predicate DatabaseVisible(p: Policy, row: DatabaseRow) {
    OwnershipAllows(p, row) && !IsShare(row) && Included(p, row)
  }

  /** The one schema the builder skips is the catalog's information schema. */
  predicate SchemaVisible(row: SchemaRow) {
    row.name != InformationSchema
  }

  /** `comment if comment else None` */
  function NormalizeComment(comment: string): (r: Option<string>)
    ensures r.None? <==> comment == ""
    ensures r.Some? ==> r.value == comment
  {
    if comment == "" then None else Some(comment)
  }

  /** `int(t) if t.isdigit() else 0`: a digit string renders back to itself
      without its leading zeros, any other text gives 0. */
  function SchemaRetention(text: string): (v: nat)
    ensures IsDigits(text) ==> DecimalString(v) == StripLeadingZeros(text)
    ensures !IsDigits(text) ==> v == 0
  {
    if IsDigits(text) then
      DecimalStringOfParse(text);
      ParseDecimal(text)
    else 0
  }

  /** The record a kept database row becomes. The source calls `int()` on the
      retention text, so the text must be a digit string. */
  function ToDatabaseRecord(row: DatabaseRow): (r: DatabaseRecord)
    requires IsDigits(row.retentionTime)
    ensures r.database == row.name && r.owner == row.owner
    ensures r.comment.None? <==> row.comment == ""
    ensures r.comment.Some? ==> r.comment.value == row.comment
    ensures r.isTransient <==> IsSubstring(TransientMarker, row.options)
    ensures DecimalString(r.retentionTime) == StripLeadingZeros(row.retentionTime)
  {
    DecimalStringOfParse(row.retentionTime);
    DatabaseRecord(
      row.name,
      row.owner,
      NormalizeComment(row.comment),
      Contains(row.options, TransientMarker),
      ParseDecimal(row.retentionTime))
  }

  /** The record a kept schema row becomes; a retention that is not a digit
      string (such as `N/A`) becomes 0. */
  function ToSchemaRecord(row: SchemaRow): (r: SchemaRecord)
    ensures r.database == row.databaseName && r.schema == row.name && r.owner == row.owner
    ensures r.comment.None? <==> row.comment == ""
    ensures r.comment.Some? ==> r.comment.value == row.comment
    ensures r.isTransient <==> IsSubstring(TransientMarker, row.options)
    ensures r.isManagedAccess <==> IsSubstring(ManagedAccessMarker, row.options)
    ensures IsDigits(row.retentionTime) ==> DecimalString(r.retentionTime) == StripLeadingZeros(row.retentionTime)
    ensures !IsDigits(row.retentionTime) ==> r.retentionTime == 0
  {
    SchemaRecord(
      row.databaseName,
      row.name,
      row.owner,
      NormalizeComment(row.comment),
      Contains(row.options, TransientMarker),
      Contains(row.options, ManagedAccessMarker),
      SchemaRetention(row.retentionTime))
  }

  /** The schema retention of a rendered number is that number. */
  lemma SchemaRetentionOfDecimal(n: nat)
    ensures SchemaRetention(DecimalString(n)) == n
  {
    ParseDecimalString(n);
  }

  /** A retention text holding any non-digit character, or none at all, gives 0. */
  lemma SchemaRetentionFallback(text: string)
    requires text == "" || exists i :: 0 <= i < |text| && !IsDigit(text[i])
    ensures SchemaRetention(text) == 0
  {
  }

  /** Worked examples: `"30"` parses to 30; `"N/A"` and `""` fall back to 0. */
  lemma SchemaRetentionExamples()
    ensures SchemaRetention("30") == 30
    ensures SchemaRetention("N/A") == 0
    ensures SchemaRetention("") == 0
  {
    assert "30"[..1] == "3" && "3"[..0] == "";
    assert !IsDigit("N/A"[0]);
  }

  /** Substring, not whole-token, matching of the option markers. */
  lemma OptionMarkerExamples()
    ensures Contains("TRANSIENT, MANAGED ACCESS", TransientMarker)
    ensures Contains("TRANSIENT, MANAGED ACCESS", ManagedAccessMarker)
    ensures Contains("NONTRANSIENT", TransientMarker)
    ensures !Contains("MANAGED", ManagedAccessMarker)
  {
    var options := "TRANSIENT, MANAGED ACCESS";
    assert OccursAt(TransientMarker, options, 0) by {
      assert options[0..9] == TransientMarker;
    }
    assert OccursAt(ManagedAccessMarker, options, 11) by {
      assert options[11..25] == ManagedAccessMarker;
    }
    assert OccursAt(TransientMarker, "NONTRANSIENT", 3) by {
      assert "NONTRANSIENT"[3..12] == TransientMarker;
    }
  }

}
