/** `BaselineSnapshot.from_dict` of `regression/models.py` on files that lack something. */
module BaselineFiles {
  import opened Values
  import opened Schema
  import opened Baseline

  const NO_SOURCE := SourceInfo(false, None, None, None)

  const NO_DISCOVERY := DiscoverySnapshot([], [], [], [], [], [])

  lemma EmptyHasNothing(key: string)
    ensures Get([], key).None? && Lookup([], key) == Null
  {
  }

  lemma EmptyLists()
    ensures ReadTextsAt([], "languages") == Some([]) && ReadTextsAt([], "frameworks") == Some([]) && ReadTextsAt([], "databases") == Some([])
    ensures ReadTextsAt([], "apis") == Some([]) && ReadTextsAt([], "test_frameworks") == Some([]) && ReadTextsAt([], "infrastructure") == Some([])
    ensures ReadSummary([]) == Some([]) && ReadTests([]) == Some([])
  {
  }

  /** What an empty section stands for. */
  lemma EmptySections()
    ensures ReadSource(Obj([])) == Some(NO_SOURCE) && ReadDiscovery(Obj([])) == Some(NO_DISCOVERY)
    ensures ReadFunctional(Obj([])) == Some(FunctionalSnapshot(None, 0, [], []))
    ensures ReadBrowser(Obj([])) == Some(BrowserSnapshot(None, None, [], []))
    ensures ReadScenario(Obj([])) == Some(ScenarioSnapshot([], []))
    ensures ReadPerformance(Obj([])) == Some(PerformanceSnapshot(None, None, []))
  {
    EmptyLists();
  }

  /** A section that is missing, null or empty is absent. */
  lemma FalsySectionIsAbsent<T>(data: seq<Field>, key: string, r: Value -> Option<T>)
    requires Get(data, key) in {None, Some(Null), Some(Obj([]))}
    ensures ReadOpt(data, key, r) == Some(None)
  {
  }

  /** Without a schema version nothing is loaded; a file with nothing but one loads with everything
      unknown, empty or absent. */
  lemma MinimalFileLoads(data: seq<Field>, version: string)
    ensures Get(data, "schema_version").None? ==> FromDict(Obj(data)).None?
    ensures FromDict(Obj([Field("schema_version", Str(version))])) ==
            Some(BaselineSnapshot(version, "unknown", "unknown", "unknown", NO_SOURCE, NO_DISCOVERY, None, None, None,
                                  AssessmentSnapshot("unknown", []), None, None))
  {
    var d := [Field("schema_version", Str(version))];
    GetFirst(d, "schema_version", 0);
    forall key | key != "schema_version" ensures Get(d, key).None? {
      GetFirst(d, key, 1);
    }
    OnlyVersion(d, version);
  }

  lemma OnlyVersion(d: seq<Field>, version: string)
    requires Get(d, "schema_version") == Some(Str(version)) && forall key :: key != "schema_version" ==> Get(d, key).None?
    ensures FromDict(Obj(d)) ==
            Some(BaselineSnapshot(version, "unknown", "unknown", "unknown", NO_SOURCE, NO_DISCOVERY, None, None, None,
                                  AssessmentSnapshot("unknown", []), None, None))
  {
    EmptySections();
    UnknownAssessment();
    assert GetOr([], "path", Str("unknown")) == Str("unknown");
  }

  lemma UnknownAssessment()
    ensures ReadAssessment(UNKNOWN_ASSESSMENT) == Some(AssessmentSnapshot("unknown", []))
  {
    GetFirst(UNKNOWN_ASSESSMENT.fields, "overall_status", 0);
    GetFirst(UNKNOWN_ASSESSMENT.fields, "categories", 1);
  }
}
