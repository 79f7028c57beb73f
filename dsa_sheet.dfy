/**
 * The client's DSA sheet page: it validates the topic list the server sends
 * (`fetchTopics`) and narrows it by a search box and a difficulty filter
 * (`filterTopics`). Topics arrive as untyped JSON, so both work on `Json` values.
 */
module DsaSheet {
  import opened Wrappers
  import opened JsStrings
  import opened JsArrays

  /** A parsed JSON value; an object keeps the last value of a repeated key, as `JSON.parse` does. */
  datatype Json =
    | JNull
    | JBool(b: bool)
    | JNumber(n: real)
    | JString(s: string)
    | JArray(items: seq<Json>)
    | JObject(fields: map<string, Json>)

  /** JavaScript truthiness: `null`, `false`, `0` and `""` are falsy. */
  predicate Truthy(v: Json) {
    match v
    case JNull => false
    case JBool(b) => b
    case JNumber(n) => n != 0.0
    case JString(s) => s != ""
    case _ => true
  }

  /** `v[key]`: a property of an object; anything else (and a missing key) gives `undefined`, here `None`. */
  function Field(v: Json, key: string): Option<Json> {
    if v.JObject? && key in v.fields then Some(v.fields[key]) else None
  }

  /** `typeof` of a property value (`typeof null` and `typeof []` are both "object"). */
  function TypeOf(v: Option<Json>): string {
    match v
    case None => "undefined"
    case Some(JNull) => "object"
    case Some(JBool(_)) => "boolean"
    case Some(JNumber(_)) => "number"
    case Some(JString(_)) => "string"
    case Some(JArray(_)) => "object"
    case Some(JObject(_)) => "object"
  }

  /** `Array.isArray` of a property value. */
  predicate IsArray(v: Option<Json>) {
    v.Some? && v.value.JArray?
  }

  /** The string value of a property, when it is a string. */
  function StringField(v: Json, key: string): Option<string> {
    match Field(v, key)
    case Some(JString(s)) => Some(s)
    case _ => None
  }

  // ---------------------------------------------------------------------------
  // Shape validation in fetchTopics
  // ---------------------------------------------------------------------------

  /** One entry of `requiredFields`: a property name and the type it must have. */
  datatype Requirement = Requirement(field: string, kind: string)

  function RequiredFields(): seq<Requirement> {
    [ Requirement("name", "string"),
      Requirement("level", "string"),
      Requirement("completed", "number"),
      Requirement("total", "number"),
      Requirement("problems", "array") ]
  }

  /** The check made for one requirement: `Array.isArray` for "array", `typeof` otherwise. */
  predicate Satisfies(topic: Json, req: Requirement) {
    if req.kind == "array" then IsArray(Field(topic, req.field))
    else TypeOf(Field(topic, req.field)) == req.kind
  }

  /** The entry pushed onto `missingFields` for a failed requirement. */
  function Complaint(req: Requirement): string {
    if req.kind == "array" then req.field + " (expected array)"
    else req.field + " (expected " + req.kind + ")"
  }

  /** The complaints for `reqs`, in the order the loop pushes them. */
  function Complaints(topic: Json, reqs: seq<Requirement>): seq<string> {
    if reqs == [] then []
    else
      var last := reqs[|reqs| - 1];
      Complaints(topic, reqs[..|reqs| - 1]) + (if Satisfies(topic, last) then [] else [Complaint(last)])
  }

  /** There are no complaints exactly when every requirement is satisfied. */
  lemma {:induction false} ComplaintsEmptyIff(topic: Json, reqs: seq<Requirement>)
    ensures Complaints(topic, reqs) == [] <==> forall k :: 0 <= k < |reqs| ==> Satisfies(topic, reqs[k])
  {
    if reqs != [] {
      var init := reqs[..|reqs| - 1];
      ComplaintsEmptyIff(topic, init);
      assert forall k :: 0 <= k < |init| ==> init[k] == reqs[k];
    }
  }

  /**
   * The shape a topic must have, stated directly: string `name` and `level`,
   * numeric `completed` and `total`, array `problems`.
   */
  predicate HasTopicShape(t: Json) {
    && TypeOf(Field(t, "name")) == "string"
    && TypeOf(Field(t, "level")) == "string"
    && TypeOf(Field(t, "completed")) == "number"
    && TypeOf(Field(t, "total")) == "number"
    && IsArray(Field(t, "problems"))
  }

  /** The requirement list and the direct statement of the shape agree. */
  lemma ComplaintsEmptyIffShape(topic: Json)
    ensures Complaints(topic, RequiredFields()) == [] <==> HasTopicShape(topic)
  {
    var reqs := RequiredFields();
    ComplaintsEmptyIff(topic, reqs);
    assert Satisfies(topic, reqs[0]) <==> TypeOf(Field(topic, "name")) == "string";
    assert Satisfies(topic, reqs[1]) <==> TypeOf(Field(topic, "level")) == "string";
    assert Satisfies(topic, reqs[2]) <==> TypeOf(Field(topic, "completed")) == "number";
    assert Satisfies(topic, reqs[3]) <==> TypeOf(Field(topic, "total")) == "number";
    assert Satisfies(topic, reqs[4]) <==> IsArray(Field(topic, "problems"));
  }

  /** The `for` loop over `requiredFields` that collects `missingFields`. */
  method MissingFields(topic: Json) returns (missing: seq<string>)
    ensures missing == Complaints(topic, RequiredFields())
    ensures missing == [] <==> HasTopicShape(topic)
    ensures |missing| <= |RequiredFields()|
  {
    var reqs := RequiredFields();
    missing := [];
    for i := 0 to |reqs|
      invariant missing == Complaints(topic, reqs[..i])
      invariant |missing| <= i
    {
      var req := reqs[i];
      if req.kind == "array" {
        if !IsArray(Field(topic, req.field)) {
          missing := missing + [req.field + " (expected array)"];
        }
      } else if TypeOf(Field(topic, req.field)) != req.kind {
        missing := missing + [req.field + " (expected " + req.kind + ")"];
      }
      assert reqs[..i + 1][..i] == reqs[..i];
    }
    assert reqs[..|reqs|] == reqs;
    ComplaintsEmptyIffShape(topic);
  }

  /** The `data.filter` callback: a falsy entry is dropped, so is one with complaints. */
  predicate KeepsTopic(t: Json)
    ensures KeepsTopic(t) ==> t.JObject? && IsArray(Field(t, "problems"))
  {
    ComplaintsEmptyIffShape(t);
    Truthy(t) && Complaints(t, RequiredFields()) == []
  }

  /** A topic survives validation iff it is truthy and has the topic shape (and the shape alone implies truthy). */
  lemma KeepsTopicIff(t: Json)
    ensures KeepsTopic(t) <==> Truthy(t) && HasTopicShape(t)
    ensures KeepsTopic(t) <==> HasTopicShape(t)
  {
    ComplaintsEmptyIffShape(t);
  }

  /** `validTopics`: the entries of the response that pass validation. */
  function ValidTopics(data: seq<Json>): (r: seq<Json>)
    ensures |r| <= |data|
    ensures forall k :: 0 <= k < |r| ==> KeepsTopic(r[k])
  {
    Filter(data, KeepsTopic)
  }

  /** Validation keeps exactly the well-shaped entries, in their original order. */
  lemma ValidTopicsSpec(data: seq<Json>)
    ensures IsSubsequence(ValidTopics(data), data)
    ensures forall k :: 0 <= k < |ValidTopics(data)| ==> ValidTopics(data)[k] in data && HasTopicShape(ValidTopics(data)[k])
    ensures forall k :: 0 <= k < |data| && HasTopicShape(data[k]) ==> data[k] in ValidTopics(data)
    ensures forall t :: multiset(ValidTopics(data))[t] == if HasTopicShape(t) then multiset(data)[t] else 0
  {
    FilterIsSubsequence(data, KeepsTopic);
    FilterMultiset(data, KeepsTopic);
    forall t ensures KeepsTopic(t) <==> HasTopicShape(t) {
      KeepsTopicIff(t);
    }
  }

  /** The page state that `fetchTopics` sets. */
  datatype SheetState = SheetState(topics: seq<Json>, loading: bool, error: Option<string>)

  /** What `api.topics.getAll()` produced: a parsed body, or a thrown error's message. */
  datatype FetchResult = Received(data: Json) | Failed(message: string)

  const InvalidFormat: string := "Invalid data format received"

  /**
   * The state after `fetchTopics` completes: a non-array body sets the error and
   * keeps the old topics; an array replaces the topics by its valid entries and
   * clears the error; a thrown error sets the error and keeps the old topics.
   * Loading is off in every case.
   */
  function FetchTopics(s: SheetState, result: FetchResult): (r: SheetState)
    ensures !r.loading
    ensures result.Received? && !result.data.JArray? ==> r.error == Some(InvalidFormat) && r.topics == s.topics
    ensures result.Received? && result.data.JArray? ==> r.error == None && r.topics == ValidTopics(result.data.items)
    ensures result.Failed? ==> r.error == Some(result.message) && r.topics == s.topics
  {
    match result
    case Failed(message) => SheetState(s.topics, false, Some(message))
    case Received(data) =>
      if !data.JArray? then SheetState(s.topics, false, Some(InvalidFormat))
      else SheetState(ValidTopics(data.items), false, None)
  }

  /** After a successful fetch, every topic on the page has the topic shape. */
  lemma FetchedTopicsAreWellShaped(s: SheetState, data: seq<Json>)
    ensures forall k :: 0 <= k < |FetchTopics(s, Received(JArray(data))).topics| ==>
      HasTopicShape(FetchTopics(s, Received(JArray(data))).topics[k])
  {
    ValidTopicsSpec(data);
  }

  // ---------------------------------------------------------------------------
  // filterTopics
  // ---------------------------------------------------------------------------

  /** `searchQuery.trim() === '' || name.toLowerCase().includes(searchQuery.toLowerCase().trim())`. */
  predicate SearchMatches(name: string, query: string)
    ensures IsAllWhitespace(query) ==> SearchMatches(name, query)
  {
    TrimEmptyIff(query);
    Trim(query) == "" || Includes(ToLower(name), Trim(ToLower(query)))
  }

  /** `activeFilter === 'all' || level.toLowerCase() === activeFilter.toLowerCase()`. */
  predicate LevelMatches(level: string, activeFilter: string)
    ensures LevelMatches(level, activeFilter) ==> activeFilter == "all" || |level| == |activeFilter|
  {
    activeFilter == "all" || ToLower(level) == ToLower(activeFilter)
  }

  /** A topic with string name and level: the topics a blank search under "all" shows. */
  predicate HasNameAndLevel(t: Json) {
    StringField(t, "name").Some? && StringField(t, "level").Some?
  }

  /** The `topics.filter` callback: a truthy topic with string name and level that matches both. */
  predicate TopicMatches(t: Json, query: string, activeFilter: string)
    ensures TopicMatches(t, query, activeFilter) ==> t.JObject? && HasNameAndLevel(t)
  {
    && Truthy(t)
    && HasNameAndLevel(t)
    && SearchMatches(StringField(t, "name").value, query)
    && LevelMatches(StringField(t, "level").value, activeFilter)
  }

  /** `filterTopics(topics)` under the current search query and level filter. */
  function FilterTopics(topics: Json, query: string, activeFilter: string): (r: seq<Json>)
    ensures !topics.JArray? ==> r == []
  {
    if !topics.JArray? then []
    else Filter(topics.items, t => TopicMatches(t, query, activeFilter))
  }

  /** The search matches iff the query is blank or the lower-cased trimmed query occurs in the lower-cased name. */
  lemma SearchMatchesIff(name: string, query: string)
    ensures SearchMatches(name, query)
        <==> IsAllWhitespace(query) || Contains(ToLower(name), Trim(ToLower(query)))
  {
    var haystack, needle := ToLower(name), Trim(ToLower(query));
    TrimEmptyIff(query);
    IncludesIff(haystack, needle);
    assert SearchMatches(name, query) == (Trim(query) == "" || Includes(haystack, needle));
  }

  /** The two strings agree character by character up to ASCII case. */
  predicate SameIgnoringCase(a: string, b: string) {
    |a| == |b| && forall k :: 0 <= k < |a| ==> LowerChar(a[k]) == LowerChar(b[k])
  }

  /** The level filter ignores the case of the level and of the filter; "all" matches every level. */
  lemma LevelMatchesIgnoresCase(level: string, activeFilter: string)
    ensures LevelMatches(level, "all")
    ensures activeFilter != "all" ==> (LevelMatches(level, activeFilter) <==> SameIgnoringCase(level, activeFilter))
    ensures LevelMatches(ToLower(level), activeFilter) == LevelMatches(level, activeFilter)
  {
    ToLowerIdempotent(level);
  }

  /**
   * On an array, filtering keeps a subsequence of the topics, in order, holding
   * exactly those that match; a topic without a string name or level never survives.
   */
  lemma FilterTopicsSpec(items: seq<Json>, query: string, activeFilter: string)
    ensures var r := FilterTopics(JArray(items), query, activeFilter);
      && IsSubsequence(r, items)
      && (forall k :: 0 <= k < |r| ==> r[k] in items && TopicMatches(r[k], query, activeFilter))
      && (forall k :: 0 <= k < |items| && TopicMatches(items[k], query, activeFilter) ==> items[k] in r)
      && (forall k :: 0 <= k < |r| ==> StringField(r[k], "name").Some? && StringField(r[k], "level").Some?)
      && (forall t :: multiset(r)[t] == if TopicMatches(t, query, activeFilter) then multiset(items)[t] else 0)
  {
    FilterIsSubsequence(items, t => TopicMatches(t, query, activeFilter));
    FilterMultiset(items, t => TopicMatches(t, query, activeFilter));
  }

  /** With a blank query and the "all" filter, exactly the topics with string name and level are shown. */
  lemma FilterTopicsShowsAll(items: seq<Json>, query: string)
    requires IsAllWhitespace(query)
    ensures FilterTopics(JArray(items), query, "all") == Filter(items, HasNameAndLevel)
  {
    TrimEmptyIff(query);
    FilterCongruent(items, t => TopicMatches(t, query, "all"), HasNameAndLevel);
  }

  /** Filtering the filtered list again changes nothing. */
  lemma FilterTopicsIdempotent(topics: Json, query: string, activeFilter: string)
    ensures FilterTopics(JArray(FilterTopics(topics, query, activeFilter)), query, activeFilter)
         == FilterTopics(topics, query, activeFilter)
  {
    if topics.JArray? {
      FilterIdempotent(topics.items, t => TopicMatches(t, query, activeFilter));
    }
  }
}
