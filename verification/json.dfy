/** The values `json.loads` produces and the three-field bug report the
    endpoints answer with. No JSON text is parsed here: decoding stays an
    opaque oracle supplied by the caller of the handler. */
module JsonValue {
  import opened Wrappers

  /** A decoded JSON value. An object keeps its members in insertion order, as
      a Python dict does. A number keeps its literal text, since nothing here
      computes with it. */
  datatype Json =
    | JNull
    | JBool(b: bool)
    | JNumber(literal: string)
    | JString(s: string)
    | JArray(items: seq<Json>)
    | JObject(members: seq<(string, Json)>)

  /** The empty object `{}`. */
  const EmptyObject: Json := JObject([])

  const BugTypeKey := "bug_type"
  const DescriptionKey := "description"
  const SuggestionKey := "suggestion"

  /** The value stored under `key` in an object's members, if any. */
  function Lookup(members: seq<(string, Json)>, key: string): (v: Option<Json>)
    ensures v.Some? <==> exists i :: 0 <= i < |members| && members[i].0 == key
    ensures v.Some? ==> exists i :: 0 <= i < |members| && members[i] == (key, v.value)
    decreases |members|
  {
    if members == [] then None
    else if members[0].0 == key then Some(members[0].1)
    else
      var v := Lookup(members[1..], key);
      assert forall i :: 0 < i < |members| ==> members[i] == members[1..][i - 1];
      if v.Some? then
        var j :| 0 <= j < |members[1..]| && members[1..][j] == (key, v.value);
        assert members[j + 1] == (key, v.value);
        v
      else v
  }

  /** The bug report of the `BugResponse` model: a bug type, a description and
      an optional suggestion (`None` in Python when absent). */
  datatype BugReport = BugReport(bugType: string, description: string, suggestion: Option<string>)

  /** The report as the dict the handler returns: exactly the three keys, in
      the order `bug_type`, `description`, `suggestion`, with `null` for a
      missing suggestion. */
  function ToJson(report: BugReport): (j: Json)
    ensures j.JObject? && |j.members| == 3
    ensures Lookup(j.members, BugTypeKey) == Some(JString(report.bugType))
    ensures Lookup(j.members, DescriptionKey) == Some(JString(report.description))
    ensures report.suggestion.None? <==> Lookup(j.members, SuggestionKey) == Some(JNull)
  {
    var suggestion := match report.suggestion
      case Some(text) => JString(text)
      case None => JNull;
    var members := [(BugTypeKey, JString(report.bugType)),
                    (DescriptionKey, JString(report.description)),
                    (SuggestionKey, suggestion)];
    LookupRecord(members);
    JObject(members)
  }

  /** Lookups in a three-member record whose keys are the report's keys. */
  lemma LookupRecord(m: seq<(string, Json)>)
    requires |m| == 3 && m[0].0 == BugTypeKey && m[1].0 == DescriptionKey && m[2].0 == SuggestionKey
    ensures Lookup(m, BugTypeKey) == Some(m[0].1)
    ensures Lookup(m, DescriptionKey) == Some(m[1].1)
    ensures Lookup(m, SuggestionKey) == Some(m[2].1)
  {
    assert BugTypeKey != DescriptionKey && BugTypeKey != SuggestionKey && DescriptionKey != SuggestionKey;
    assert m[1..][0] == m[1] && m[1..][1..][0] == m[2];
    assert Lookup(m[1..][1..], SuggestionKey) == Some(m[2].1);
    assert Lookup(m[1..], SuggestionKey) == Some(m[2].1);
  }

  /** Reads a decoded value as a bug report, as a client reads the response:
      `bug_type` and `description` must be strings, `suggestion` a string or
      `null` or missing; other keys are ignored. */
  function FromJson(j: Json): (report: Option<BugReport>)
    ensures report.Some? ==> j.JObject?
    ensures report.Some? ==> Lookup(j.members, BugTypeKey) == Some(JString(report.value.bugType))
    ensures report.Some? ==> Lookup(j.members, DescriptionKey) == Some(JString(report.value.description))
  {
    match j
    case JObject(members) =>
      (match (Lookup(members, BugTypeKey), Lookup(members, DescriptionKey), Lookup(members, SuggestionKey))
       case (Some(JString(t)), Some(JString(d)), Some(JString(s))) => Some(BugReport(t, d, Some(s)))
       case (Some(JString(t)), Some(JString(d)), Some(JNull)) => Some(BugReport(t, d, None))
       case (Some(JString(t)), Some(JString(d)), None) => Some(BugReport(t, d, None))
       case _ => None)
    case _ => None
  }

  /** Round trip: a report written as a dict reads back as the same report. */
  lemma FromToJson(report: BugReport)
    ensures FromJson(ToJson(report)) == Some(report)
  {
    LookupRecord(ToJson(report).members);
  }

  /** The objects `ToJson` produces are exactly the canonical three-key records. */
  predicate IsCanonicalRecord(j: Json) {
    && j.JObject?
    && |j.members| == 3
    && j.members[0].0 == BugTypeKey && j.members[0].1.JString?
    && j.members[1].0 == DescriptionKey && j.members[1].1.JString?
    && j.members[2].0 == SuggestionKey && (j.members[2].1.JString? || j.members[2].1.JNull?)
  }

  /** Round trip the other way: a canonical record read as a report and
      written back is the same record. */
  lemma ToFromJson(j: Json)
    requires IsCanonicalRecord(j)
    ensures FromJson(j).Some? && ToJson(FromJson(j).value) == j
  {
    LookupRecord(j.members);
  }
}
