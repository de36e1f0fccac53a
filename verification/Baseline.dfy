/** `BaselineSnapshot` of `regression/models.py`: what is saved, and how it is read back. */
module Baseline {
  import opened Values
  import opened Schema
  import opened FunctionalCompare

  datatype SourceInfo = SourceInfo(isGit: bool, commit: Option<string>, branch: Option<string>, dirty: Option<bool>)

  datatype DiscoverySnapshot = DiscoverySnapshot(
    languages: seq<string>, frameworks: seq<string>, databases: seq<string>,
    apis: seq<string>, testFrameworks: seq<string>, infrastructure: seq<string>)

  /** `summary` and `metrics` are dicts that are stored and copied as they are. */
  datatype FunctionalSnapshot = FunctionalSnapshot(target: Option<string>, generatedCount: int, summary: seq<Field>, tests: seq<TestEntry>)

  datatype BrowserSnapshot = BrowserSnapshot(target: Option<string>, browser: Option<string>, summary: seq<Field>, tests: seq<TestEntry>)

  datatype ScenarioSnapshot = ScenarioSnapshot(summary: seq<Field>, tests: seq<TestEntry>)

  datatype LevelEntry = LevelEntry(concurrency: int, metrics: seq<Field>)

  datatype PerformanceSnapshot = PerformanceSnapshot(target: Option<string>, endpoint: Option<string>, levels: seq<LevelEntry>)

  datatype TableSnapshot = TableSnapshot(
    schema: string, name: string, columns: seq<string>, primaryKey: Option<seq<string>>, foreignKeyCount: int, indexCount: int)

  datatype DatabaseSnapshot = DatabaseSnapshot(engine: string, databaseName: Option<string>, summary: seq<Field>, tables: seq<TableSnapshot>)

  datatype CategoryEntry = CategoryEntry(name: string, status: string)

  datatype AssessmentSnapshot = AssessmentSnapshot(overallStatus: string, categories: seq<CategoryEntry>)

  datatype BaselineSnapshot = BaselineSnapshot(
    schemaVersion: string, toolVersion: string, generatedAt: string, projectPath: string,
    source: SourceInfo, discovery: DiscoverySnapshot,
    functional: Option<FunctionalSnapshot>, performance: Option<PerformanceSnapshot>, database: Option<DatabaseSnapshot>,
    assessment: AssessmentSnapshot, browser: Option<BrowserSnapshot>, scenario: Option<ScenarioSnapshot>)

  // ---------------------------------------------------------------- primitive values

  function OptText(o: Option<string>): Value { if o.Some? then Str(o.value) else Null }

  function OptBool(o: Option<bool>): Value { if o.Some? then Bool(o.value) else Null }

  function Texts(ts: seq<string>): Value { Arr(seq(|ts|, i requires 0 <= i < |ts| => Str(ts[i]))) }

  function OptTexts(o: Option<seq<string>>): Value { if o.Some? then Texts(o.value) else Null }

  function ReadText(v: Value): Option<string> { if v.Str? then Some(v.s) else None }

  function ReadOptText(v: Value): Option<Option<string>> {
    if v.Null? then Some(None) else if v.Str? then Some(Some(v.s)) else None
  }

  function ReadOptBool(v: Value): Option<Option<bool>> {
    if v.Null? then Some(None) else if v.Bool? then Some(Some(v.b)) else None
  }

  function ReadInt(v: Value): Option<int> { if v.Int? then Some(v.i) else None }

  function ReadDict(v: Value): Option<seq<Field>> { if v.Obj? then Some(v.fields) else None }

  function ReadList(v: Value): Option<seq<Value>> { if v.Arr? then Some(v.items) else None }

  /** A list whose items are all read by `f`. */
  function ReadAll<T>(items: seq<Value>, f: Value -> Option<T>): Option<seq<T>> {
    if |items| == 0 then Some([])
    else
      var first :- f(items[0]);
      var rest :- ReadAll(items[1..], f);
      Some([first] + rest)
  }

  function ReadListOf<T>(v: Value, f: Value -> Option<T>): Option<seq<T>> {
    var items :- ReadList(v);
    ReadAll(items, f)
  }

  function ReadOptTexts(v: Value): Option<Option<seq<string>>> {
    if v.Null? then Some(None)
    else
      var ts :- ReadListOf(v, ReadText);
      Some(Some(ts))
  }

  /** `data.get(key, default)`. */
  function GetOr(data: seq<Field>, key: string, default: Value): Value {
    match Get(data, key)
    case Some(v) => v
    case None => default
  }

  function WriteAll<T>(xs: seq<T>, w: T -> Value): Value {
    Arr(seq(|xs|, i requires 0 <= i < |xs| => w(xs[i])))
  }

  // ---------------------------------------------------------------- to_dict and from_dict

  function WriteTest(t: TestEntry): Value { Obj([Field("id", Str(t.id)), Field("status", Str(t.status))]) }

  function ReadTest(v: Value): Option<TestEntry> {
    var d :- ReadDict(v);
    var id :- Get(d, "id");
    var status :- Get(d, "status");
    var idText :- ReadText(id);
    var statusText :- ReadText(status);
    Some(TestEntry(idText, statusText))
  }

  function WriteSource(s: SourceInfo): Value {
    Obj([Field("is_git", Bool(s.isGit)), Field("commit", OptText(s.commit)), Field("branch", OptText(s.branch)), Field("dirty", OptBool(s.dirty))])
  }

  function ReadSource(v: Value): Option<SourceInfo> {
    var d :- ReadDict(v);
    var commit :- ReadOptText(Lookup(d, "commit"));
    var branch :- ReadOptText(Lookup(d, "branch"));
    var dirty :- ReadOptBool(Lookup(d, "dirty"));
    Some(SourceInfo(Truthy(GetOr(d, "is_git", Bool(false))), commit, branch, dirty))
  }

  function WriteDiscovery(s: DiscoverySnapshot): Value {
    Obj([Field("languages", Texts(s.languages)), Field("frameworks", Texts(s.frameworks)), Field("databases", Texts(s.databases)),
         Field("apis", Texts(s.apis)), Field("test_frameworks", Texts(s.testFrameworks)), Field("infrastructure", Texts(s.infrastructure))])
  }

  function ReadTextsAt(d: seq<Field>, key: string): Option<seq<string>> {
    ReadListOf(GetOr(d, key, Arr([])), ReadText)
  }

  function ReadDiscovery(v: Value): Option<DiscoverySnapshot> {
    var d :- ReadDict(v);
    var languages :- ReadTextsAt(d, "languages");
    var frameworks :- ReadTextsAt(d, "frameworks");
    var databases :- ReadTextsAt(d, "databases");
    var apis :- ReadTextsAt(d, "apis");
    var testFrameworks :- ReadTextsAt(d, "test_frameworks");
    var infrastructure :- ReadTextsAt(d, "infrastructure");
    Some(DiscoverySnapshot(languages, frameworks, databases, apis, testFrameworks, infrastructure))
  }

  function WriteFunctional(s: FunctionalSnapshot): Value {
    Obj([Field("target", OptText(s.target)), Field("generated_count", Int(s.generatedCount)), Field("summary", Obj(s.summary)),
         Field("tests", WriteAll(s.tests, WriteTest))])
  }

  function ReadSummary(d: seq<Field>): Option<seq<Field>> { ReadDict(GetOr(d, "summary", Obj([]))) }

  function ReadTests(d: seq<Field>): Option<seq<TestEntry>> { ReadListOf(GetOr(d, "tests", Arr([])), ReadTest) }

  function ReadFunctional(v: Value): Option<FunctionalSnapshot> {
    var d :- ReadDict(v);
    var target :- ReadOptText(Lookup(d, "target"));
    var count :- ReadInt(GetOr(d, "generated_count", Int(0)));
    var summary :- ReadSummary(d);
    var tests :- ReadTests(d);
    Some(FunctionalSnapshot(target, count, summary, tests))
  }

  function WriteBrowser(s: BrowserSnapshot): Value {
    Obj([Field("target", OptText(s.target)), Field("browser", OptText(s.browser)), Field("summary", Obj(s.summary)),
         Field("tests", WriteAll(s.tests, WriteTest))])
  }

  function ReadBrowser(v: Value): Option<BrowserSnapshot> {
    var d :- ReadDict(v);
    var target :- ReadOptText(Lookup(d, "target"));
    var browser :- ReadOptText(Lookup(d, "browser"));
    var summary :- ReadSummary(d);
    var tests :- ReadTests(d);
    Some(BrowserSnapshot(target, browser, summary, tests))
  }

  function WriteScenario(s: ScenarioSnapshot): Value {
    Obj([Field("summary", Obj(s.summary)), Field("tests", WriteAll(s.tests, WriteTest))])
  }

  function ReadScenario(v: Value): Option<ScenarioSnapshot> {
    var d :- ReadDict(v);
    var summary :- ReadSummary(d);
    var tests :- ReadTests(d);
    Some(ScenarioSnapshot(summary, tests))
  }

  function WriteLevel(l: LevelEntry): Value { Obj([Field("concurrency", Int(l.concurrency)), Field("metrics", Obj(l.metrics))]) }

  function ReadLevel(v: Value): Option<LevelEntry> {
    var d :- ReadDict(v);
    var concurrency :- Get(d, "concurrency");
    var metrics :- Get(d, "metrics");
    var n :- ReadInt(concurrency);
    var m :- ReadDict(metrics);
    Some(LevelEntry(n, m))
  }

  function WritePerformance(s: PerformanceSnapshot): Value {
    Obj([Field("target", OptText(s.target)), Field("endpoint", OptText(s.endpoint)), Field("levels", WriteAll(s.levels, WriteLevel))])
  }

  function ReadPerformance(v: Value): Option<PerformanceSnapshot> {
    var d :- ReadDict(v);
    var target :- ReadOptText(Lookup(d, "target"));
    var endpoint :- ReadOptText(Lookup(d, "endpoint"));
    var levels :- ReadListOf(GetOr(d, "levels", Arr([])), ReadLevel);
    Some(PerformanceSnapshot(target, endpoint, levels))
  }

  function WriteTable(t: TableSnapshot): Value {
    Obj([Field("schema", Str(t.schema)), Field("name", Str(t.name)), Field("columns", Texts(t.columns)),
         Field("primary_key", OptTexts(t.primaryKey)), Field("foreign_key_count", Int(t.foreignKeyCount)), Field("index_count", Int(t.indexCount))])
  }

  function ReadTable(v: Value): Option<TableSnapshot> {
    var d :- ReadDict(v);
    var schema :- Get(d, "schema");
    var schemaText :- ReadText(schema);
    var name :- Get(d, "name");
    var nameText :- ReadText(name);
    var columns :- ReadTextsAt(d, "columns");
    var primaryKey :- ReadOptTexts(Lookup(d, "primary_key"));
    var foreignKeyCount :- ReadInt(GetOr(d, "foreign_key_count", Int(0)));
    var indexCount :- ReadInt(GetOr(d, "index_count", Int(0)));
    Some(TableSnapshot(schemaText, nameText, columns, primaryKey, foreignKeyCount, indexCount))
  }

  function WriteDatabase(s: DatabaseSnapshot): Value {
    Obj([Field("engine", Str(s.engine)), Field("database_name", OptText(s.databaseName)), Field("summary", Obj(s.summary)),
         Field("tables", WriteAll(s.tables, WriteTable))])
  }

  function ReadDatabase(v: Value): Option<DatabaseSnapshot> {
    var d :- ReadDict(v);
    var engine :- Get(d, "engine");
    var engineText :- ReadText(engine);
    var databaseName :- ReadOptText(Lookup(d, "database_name"));
    var summary :- ReadSummary(d);
    var tables :- ReadListOf(GetOr(d, "tables", Arr([])), ReadTable);
    Some(DatabaseSnapshot(engineText, databaseName, summary, tables))
  }

  function WriteCategory(c: CategoryEntry): Value { Obj([Field("name", Str(c.name)), Field("status", Str(c.status))]) }

  function ReadCategory(v: Value): Option<CategoryEntry> {
    var d :- ReadDict(v);
    var name :- Get(d, "name");
    var status :- Get(d, "status");
    var nameText :- ReadText(name);
    var statusText :- ReadText(status);
    Some(CategoryEntry(nameText, statusText))
  }

  function WriteAssessment(s: AssessmentSnapshot): Value {
    Obj([Field("overall_status", Str(s.overallStatus)), Field("categories", WriteAll(s.categories, WriteCategory))])
  }

  function ReadAssessment(v: Value): Option<AssessmentSnapshot> {
    var d :- ReadDict(v);
    var overall :- Get(d, "overall_status");
    var overallText :- ReadText(overall);
    var categories :- ReadListOf(GetOr(d, "categories", Arr([])), ReadCategory);
    Some(AssessmentSnapshot(overallText, categories))
  }

  /** `x.to_dict() if x else None`. */
  function WriteOpt<T>(o: Option<T>, w: T -> Value): Value { if o.Some? then w(o.value) else Null }

  /** `X.from_dict(data[key]) if data.get(key) else None`. */
  function ReadOpt<T>(data: seq<Field>, key: string, r: Value -> Option<T>): Option<Option<T>> {
    if Truthy(Lookup(data, key)) then
      var x :- r(Lookup(data, key));
      Some(Some(x))
    else Some(None)
  }

  /** The ten fields every version of the tool has written. */
  function CoreFields(s: BaselineSnapshot): seq<Field> {
    [Field("schema_version", Str(s.schemaVersion)), Field("tool_version", Str(s.toolVersion)), Field("generated_at", Str(s.generatedAt)),
     Field("project", Obj([Field("path", Str(s.projectPath))])), Field("source", WriteSource(s.source)),
     Field("discovery", WriteDiscovery(s.discovery)), Field("functional", WriteOpt(s.functional, WriteFunctional)),
     Field("performance", WriteOpt(s.performance, WritePerformance)), Field("database", WriteOpt(s.database, WriteDatabase)),
     Field("assessment", WriteAssessment(s.assessment))]
  }

  function ToDict(s: BaselineSnapshot): Value {
    Obj(CoreFields(s) + [Field("browser", WriteOpt(s.browser, WriteBrowser)), Field("scenario", WriteOpt(s.scenario, WriteScenario))])
  }

  const UNKNOWN_ASSESSMENT := Obj([Field("overall_status", Str("unknown")), Field("categories", Arr([]))])

  function FromDict(v: Value): Option<BaselineSnapshot> {
    var data :- ReadDict(v);
    var schemaVersion :- Get(data, "schema_version");
    var schemaVersionText :- ReadText(schemaVersion);
    var toolVersion :- ReadText(GetOr(data, "tool_version", Str("unknown")));
    var generatedAt :- ReadText(GetOr(data, "generated_at", Str("unknown")));
    var project :- ReadDict(GetOr(data, "project", Obj([])));
    var projectPath :- ReadText(GetOr(project, "path", Str("unknown")));
    var source :- ReadSource(GetOr(data, "source", Obj([])));
    var discovery :- ReadDiscovery(GetOr(data, "discovery", Obj([])));
    var functional :- ReadOpt(data, "functional", ReadFunctional);
    var performance :- ReadOpt(data, "performance", ReadPerformance);
    var database :- ReadOpt(data, "database", ReadDatabase);
    var browser :- ReadOpt(data, "browser", ReadBrowser);
    var scenario :- ReadOpt(data, "scenario", ReadScenario);
    var assessment :- ReadAssessment(GetOr(data, "assessment", UNKNOWN_ASSESSMENT));
    Some(BaselineSnapshot(schemaVersionText, toolVersion, generatedAt, projectPath, source, discovery,
                          functional, performance, database, assessment, browser, scenario))
  }

  // ---------------------------------------------------------------- round trips

  lemma {:induction false} ReadWritten<T>(xs: seq<T>, w: T -> Value, r: Value -> Option<T>)
    requires forall x :: x in xs ==> r(w(x)) == Some(x)
    ensures ReadListOf(WriteAll(xs, w), r) == Some(xs)
  {
    if |xs| > 0 {
      ReadWritten(xs[1..], w, r);
      var items := WriteAll(xs, w).items;
      assert items[1..] == WriteAll(xs[1..], w).items;
      assert xs[0] in xs;
      assert [xs[0]] + xs[1..] == xs;
    }
  }

  lemma TextsRoundTrip(ts: seq<string>)
    ensures ReadListOf(Texts(ts), ReadText) == Some(ts)
  {
    ReadWritten(ts, (t: string) => Str(t), ReadText);
    assert Texts(ts) == WriteAll(ts, (t: string) => Str(t));
  }

  ghost predicate Distinct(keys: seq<string>) { forall i, j :: 0 <= i < j < |keys| ==> keys[i] != keys[j] }

  /** A dict written with (a prefix of) distinct keys: looking up a key finds its field, and keys
      that were not written are absent. */
  lemma GetKeyed(d: seq<Field>, keys: seq<string>, i: nat)
    requires Distinct(keys) && |d| <= |keys| && i < |keys| && forall j :: 0 <= j < |d| ==> d[j].key == keys[j]
    ensures Get(d, keys[i]) == if i < |d| then Some(d[i].value) else None
  {
    if i < |d| {
      GetFirst(d, keys[i], i);
    } else {
      GetFirst(d, keys[i], |d|);
    }
  }

  lemma TestRoundTrip(t: TestEntry)
    ensures ReadTest(WriteTest(t)) == Some(t)
  {
    GetFirst(WriteTest(t).fields, "status", 1);
  }

  lemma TestsRoundTrip(tests: seq<TestEntry>)
    ensures ReadListOf(WriteAll(tests, WriteTest), ReadTest) == Some(tests)
  {
    forall t ensures ReadTest(WriteTest(t)) == Some(t) { TestRoundTrip(t); }
    ReadWritten(tests, WriteTest, ReadTest);
  }

  lemma SourceFrom(d: seq<Field>, s: SourceInfo)
    requires Get(d, "is_git") == Some(Bool(s.isGit)) && Get(d, "commit") == Some(OptText(s.commit))
    requires Get(d, "branch") == Some(OptText(s.branch)) && Get(d, "dirty") == Some(OptBool(s.dirty))
    ensures ReadSource(Obj(d)) == Some(s)
  {
  }

  lemma SourceRoundTrip(s: SourceInfo)
    ensures ReadSource(WriteSource(s)) == Some(s)
  {
    var d := WriteSource(s).fields;
    GetFirst(d, "is_git", 0);
    GetFirst(d, "commit", 1);
    GetFirst(d, "branch", 2);
    GetFirst(d, "dirty", 3);
    SourceFrom(d, s);
  }

  lemma DiscoveryFrom(d: seq<Field>, s: DiscoverySnapshot)
    requires Get(d, "languages") == Some(Texts(s.languages)) && Get(d, "frameworks") == Some(Texts(s.frameworks))
    requires Get(d, "databases") == Some(Texts(s.databases)) && Get(d, "apis") == Some(Texts(s.apis))
    requires Get(d, "test_frameworks") == Some(Texts(s.testFrameworks)) && Get(d, "infrastructure") == Some(Texts(s.infrastructure))
    ensures ReadDiscovery(Obj(d)) == Some(s)
  {
    TextsRoundTrip(s.languages);
    TextsRoundTrip(s.frameworks);
    TextsRoundTrip(s.databases);
    TextsRoundTrip(s.apis);
    TextsRoundTrip(s.testFrameworks);
    TextsRoundTrip(s.infrastructure);
  }

  const DISCOVERY_KEYS: seq<string> := ["languages", "frameworks", "databases", "apis", "test_frameworks", "infrastructure"]

  lemma DiscoveryKeyed(d: seq<Field>, s: DiscoverySnapshot)
    requires |d| == 6 && forall j :: 0 <= j < 6 ==> d[j].key == DISCOVERY_KEYS[j]
    requires d[0].value == Texts(s.languages) && d[1].value == Texts(s.frameworks) && d[2].value == Texts(s.databases)
    requires d[3].value == Texts(s.apis) && d[4].value == Texts(s.testFrameworks) && d[5].value == Texts(s.infrastructure)
    ensures ReadDiscovery(Obj(d)) == Some(s)
  {
    assert Distinct(DISCOVERY_KEYS);
    GetKeyed(d, DISCOVERY_KEYS, 0);
    GetKeyed(d, DISCOVERY_KEYS, 1);
    GetKeyed(d, DISCOVERY_KEYS, 2);
    GetKeyed(d, DISCOVERY_KEYS, 3);
    GetKeyed(d, DISCOVERY_KEYS, 4);
    GetKeyed(d, DISCOVERY_KEYS, 5);
    DiscoveryFrom(d, s);
  }

  lemma DiscoveryRoundTrip(s: DiscoverySnapshot)
    ensures ReadDiscovery(WriteDiscovery(s)) == Some(s)
  {
    DiscoveryKeyed(WriteDiscovery(s).fields, s);
  }

  lemma FunctionalRoundTrip(s: FunctionalSnapshot)
    ensures ReadFunctional(WriteFunctional(s)) == Some(s)
  {
    var d := WriteFunctional(s).fields;
    GetFirst(d, "target", 0);
    GetFirst(d, "generated_count", 1);
    GetFirst(d, "summary", 2);
    GetFirst(d, "tests", 3);
    TestsRoundTrip(s.tests);
  }

  lemma BrowserRoundTrip(s: BrowserSnapshot)
    ensures ReadBrowser(WriteBrowser(s)) == Some(s)
  {
    var d := WriteBrowser(s).fields;
    GetFirst(d, "target", 0);
    GetFirst(d, "browser", 1);
    GetFirst(d, "summary", 2);
    GetFirst(d, "tests", 3);
    TestsRoundTrip(s.tests);
  }

  lemma ScenarioRoundTrip(s: ScenarioSnapshot)
    ensures ReadScenario(WriteScenario(s)) == Some(s)
  {
    var d := WriteScenario(s).fields;
    GetFirst(d, "summary", 0);
    GetFirst(d, "tests", 1);
    TestsRoundTrip(s.tests);
  }

  lemma PerformanceRoundTrip(s: PerformanceSnapshot)
    ensures ReadPerformance(WritePerformance(s)) == Some(s)
  {
    var d := WritePerformance(s).fields;
    GetFirst(d, "target", 0);
    GetFirst(d, "endpoint", 1);
    GetFirst(d, "levels", 2);
    forall l ensures ReadLevel(WriteLevel(l)) == Some(l) {
      GetFirst(WriteLevel(l).fields, "metrics", 1);
    }
    ReadWritten(s.levels, WriteLevel, ReadLevel);
  }

  lemma TableFrom(d: seq<Field>, t: TableSnapshot)
    requires Get(d, "schema") == Some(Str(t.schema)) && Get(d, "name") == Some(Str(t.name))
    requires Get(d, "columns") == Some(Texts(t.columns)) && Get(d, "primary_key") == Some(OptTexts(t.primaryKey))
    requires Get(d, "foreign_key_count") == Some(Int(t.foreignKeyCount)) && Get(d, "index_count") == Some(Int(t.indexCount))
    ensures ReadTable(Obj(d)) == Some(t)
  {
    TextsRoundTrip(t.columns);
    if t.primaryKey.Some? {
      TextsRoundTrip(t.primaryKey.value);
    }
  }

  const TABLE_KEYS: seq<string> := ["schema", "name", "columns", "primary_key", "foreign_key_count", "index_count"]

  lemma TableKeyed(d: seq<Field>, t: TableSnapshot)
    requires |d| == 6 && forall j :: 0 <= j < 6 ==> d[j].key == TABLE_KEYS[j]
    requires d[0].value == Str(t.schema) && d[1].value == Str(t.name) && d[2].value == Texts(t.columns)
    requires d[3].value == OptTexts(t.primaryKey) && d[4].value == Int(t.foreignKeyCount) && d[5].value == Int(t.indexCount)
    ensures ReadTable(Obj(d)) == Some(t)
  {
    assert Distinct(TABLE_KEYS);
    GetKeyed(d, TABLE_KEYS, 0);
    GetKeyed(d, TABLE_KEYS, 1);
    GetKeyed(d, TABLE_KEYS, 2);
    GetKeyed(d, TABLE_KEYS, 3);
    GetKeyed(d, TABLE_KEYS, 4);
    GetKeyed(d, TABLE_KEYS, 5);
    TableFrom(d, t);
  }

  lemma TableRoundTrip(t: TableSnapshot)
    ensures ReadTable(WriteTable(t)) == Some(t)
  {
    TableKeyed(WriteTable(t).fields, t);
  }

  lemma DatabaseRoundTrip(s: DatabaseSnapshot)
    ensures ReadDatabase(WriteDatabase(s)) == Some(s)
  {
    var d := WriteDatabase(s).fields;
    GetFirst(d, "engine", 0);
    GetFirst(d, "database_name", 1);
    GetFirst(d, "summary", 2);
    GetFirst(d, "tables", 3);
    forall t ensures ReadTable(WriteTable(t)) == Some(t) { TableRoundTrip(t); }
    ReadWritten(s.tables, WriteTable, ReadTable);
  }

  lemma AssessmentRoundTrip(s: AssessmentSnapshot)
    ensures ReadAssessment(WriteAssessment(s)) == Some(s)
  {
    var d := WriteAssessment(s).fields;
    GetFirst(d, "overall_status", 0);
    GetFirst(d, "categories", 1);
    forall c ensures ReadCategory(WriteCategory(c)) == Some(c) {
      GetFirst(WriteCategory(c).fields, "status", 1);
    }
    ReadWritten(s.categories, WriteCategory, ReadCategory);
  }

  const KEYS: seq<string> := [
    "schema_version", "tool_version", "generated_at", "project", "source", "discovery",
    "functional", "performance", "database", "assessment", "browser", "scenario"]

  lemma KeysAreDistinct()
    ensures Distinct(KEYS)
  {
  }

  /** What has to be found in a dict for it to be read as the snapshot `s`. */
  ghost predicate Holds(d: seq<Field>, s: BaselineSnapshot) {
    Get(d, "schema_version") == Some(Str(s.schemaVersion)) && Get(d, "tool_version") == Some(Str(s.toolVersion)) &&
    Get(d, "generated_at") == Some(Str(s.generatedAt)) && Get(d, "project") == Some(Obj([Field("path", Str(s.projectPath))])) &&
    Get(d, "source") == Some(WriteSource(s.source)) && Get(d, "discovery") == Some(WriteDiscovery(s.discovery)) &&
    Get(d, "assessment") == Some(WriteAssessment(s.assessment)) &&
    Lookup(d, "functional") == WriteOpt(s.functional, WriteFunctional) &&
    Lookup(d, "performance") == WriteOpt(s.performance, WritePerformance) &&
    Lookup(d, "database") == WriteOpt(s.database, WriteDatabase) &&
    Lookup(d, "browser") == WriteOpt(s.browser, WriteBrowser) &&
    Lookup(d, "scenario") == WriteOpt(s.scenario, WriteScenario)
  }

  lemma OptRoundTrip<T>(d: seq<Field>, key: string, o: Option<T>, w: T -> Value, r: Value -> Option<T>)
    requires Lookup(d, key) == WriteOpt(o, w)
    requires o.Some? ==> Truthy(w(o.value)) && r(w(o.value)) == o
    ensures ReadOpt(d, key, r) == Some(o)
  {
  }

  lemma SectionsRead(d: seq<Field>, s: BaselineSnapshot)
    requires Holds(d, s)
    ensures ReadOpt(d, "functional", ReadFunctional) == Some(s.functional)
    ensures ReadOpt(d, "performance", ReadPerformance) == Some(s.performance)
    ensures ReadOpt(d, "database", ReadDatabase) == Some(s.database)
    ensures ReadOpt(d, "browser", ReadBrowser) == Some(s.browser)
    ensures ReadOpt(d, "scenario", ReadScenario) == Some(s.scenario)
  {
    if s.functional.Some? { FunctionalRoundTrip(s.functional.value); }
    if s.performance.Some? { PerformanceRoundTrip(s.performance.value); }
    if s.database.Some? { DatabaseRoundTrip(s.database.value); }
    if s.browser.Some? { BrowserRoundTrip(s.browser.value); }
    if s.scenario.Some? { ScenarioRoundTrip(s.scenario.value); }
    OptRoundTrip(d, "functional", s.functional, WriteFunctional, ReadFunctional);
    OptRoundTrip(d, "performance", s.performance, WritePerformance, ReadPerformance);
    OptRoundTrip(d, "database", s.database, WriteDatabase, ReadDatabase);
    OptRoundTrip(d, "browser", s.browser, WriteBrowser, ReadBrowser);
    OptRoundTrip(d, "scenario", s.scenario, WriteScenario, ReadScenario);
  }

  lemma ReadHeld(d: seq<Field>, s: BaselineSnapshot)
    requires Holds(d, s)
    ensures FromDict(Obj(d)) == Some(s)
  {
    SectionsRead(d, s);
    SourceRoundTrip(s.source);
    DiscoveryRoundTrip(s.discovery);
    AssessmentRoundTrip(s.assessment);
    var project := [Field("path", Str(s.projectPath))];
    GetFirst(project, "path", 0);
    assert ReadText(GetOr(project, "path", Str("unknown"))) == Some(s.projectPath);
  }

  /** The fields of a file, current or written before there were browser and scenario sections. */
  ghost predicate Laid(d: seq<Field>, s: BaselineSnapshot) {
    |d| in {10, 12} && (forall j :: 0 <= j < |d| ==> d[j].key == KEYS[j]) &&
    d[0].value == Str(s.schemaVersion) && d[1].value == Str(s.toolVersion) && d[2].value == Str(s.generatedAt) &&
    d[3].value == Obj([Field("path", Str(s.projectPath))]) && d[4].value == WriteSource(s.source) &&
    d[5].value == WriteDiscovery(s.discovery) && d[6].value == WriteOpt(s.functional, WriteFunctional) &&
    d[7].value == WriteOpt(s.performance, WritePerformance) && d[8].value == WriteOpt(s.database, WriteDatabase) &&
    d[9].value == WriteAssessment(s.assessment) &&
    (if |d| == 10 then s.browser.None? && s.scenario.None?
     else d[10].value == WriteOpt(s.browser, WriteBrowser) && d[11].value == WriteOpt(s.scenario, WriteScenario))
  }

  lemma LaidCore(d: seq<Field>, s: BaselineSnapshot)
    requires Laid(d, s)
    ensures Get(d, "schema_version") == Some(d[0].value) && Get(d, "tool_version") == Some(d[1].value)
    ensures Get(d, "generated_at") == Some(d[2].value) && Get(d, "project") == Some(d[3].value)
    ensures Get(d, "source") == Some(d[4].value) && Get(d, "discovery") == Some(d[5].value)
  {
    KeysAreDistinct();
    GetKeyed(d, KEYS, 0);
    GetKeyed(d, KEYS, 1);
    GetKeyed(d, KEYS, 2);
    GetKeyed(d, KEYS, 3);
    GetKeyed(d, KEYS, 4);
    GetKeyed(d, KEYS, 5);
  }

  lemma LaidSections(d: seq<Field>, s: BaselineSnapshot)
    requires Laid(d, s)
    ensures Get(d, "functional") == Some(d[6].value) && Get(d, "performance") == Some(d[7].value)
    ensures Get(d, "database") == Some(d[8].value) && Get(d, "assessment") == Some(d[9].value)
    ensures Lookup(d, "browser") == (if |d| == 12 then d[10].value else Null)
    ensures Lookup(d, "scenario") == (if |d| == 12 then d[11].value else Null)
  {
    KeysAreDistinct();
    GetKeyed(d, KEYS, 6);
    GetKeyed(d, KEYS, 7);
    GetKeyed(d, KEYS, 8);
    GetKeyed(d, KEYS, 9);
    GetKeyed(d, KEYS, 10);
    GetKeyed(d, KEYS, 11);
  }

  lemma ReadLaid(d: seq<Field>, s: BaselineSnapshot)
    requires Laid(d, s)
    ensures FromDict(Obj(d)) == Some(s)
  {
    LaidCore(d, s);
    LaidSections(d, s);
    ReadHeld(d, s);
  }

  lemma CoreKeys(s: BaselineSnapshot)
    ensures |CoreFields(s)| == 10 && forall j :: 0 <= j < 10 ==> CoreFields(s)[j].key == KEYS[j]
  {
  }

  lemma CoreIsLaid(s: BaselineSnapshot)
    ensures |CoreFields(s)| == 10 && Laid(CoreFields(s), s.(browser := None, scenario := None))
  {
    CoreKeys(s);
  }

  lemma SectionsAreLaid(core: seq<Field>, s: BaselineSnapshot)
    requires |core| == 10 && Laid(core, s.(browser := None, scenario := None))
    ensures Laid(core + [Field("browser", WriteOpt(s.browser, WriteBrowser)), Field("scenario", WriteOpt(s.scenario, WriteScenario))], s)
  {
    var d := core + [Field("browser", WriteOpt(s.browser, WriteBrowser)), Field("scenario", WriteOpt(s.scenario, WriteScenario))];
    assert forall j :: 0 <= j < 10 ==> d[j] == core[j];
    assert d[10].key == KEYS[10] && d[11].key == KEYS[11];
  }

  /** `from_dict(to_dict(s)) == s`, for every snapshot and every combination of absent sections. */
  lemma RoundTrip(s: BaselineSnapshot)
    ensures FromDict(ToDict(s)) == Some(s)
  {
    CoreIsLaid(s);
    SectionsAreLaid(CoreFields(s), s);
    ReadLaid(ToDict(s).fields, s);
  }

  /** A file without the browser and scenario keys loads as the same snapshot with those
      sections absent. */
  lemma OldFileLoads(s: BaselineSnapshot)
    ensures FromDict(Obj(CoreFields(s))) == Some(s.(browser := None, scenario := None))
  {
    CoreIsLaid(s);
    ReadLaid(CoreFields(s), s.(browser := None, scenario := None));
  }
}
