/** The JSON contract of a model response, and what parsing guarantees about it. */
module Wire {
  import opened Basics
  import opened Units

  const ESTABLISHED := "established"
  const DERIVED_PROBABLE := "derived_probable"
  const CONTESTED := "contested"
  const ABANDONED_VERSION := "abandoned_version"

  predicate ValidConfidence(s: string) {
    s == ESTABLISHED || s == DERIVED_PROBABLE || s == CONTESTED || s == ABANDONED_VERSION
  }

  datatype WireName = WireName(name: string, nameKind: string, language: string)

  datatype WireEntity = WireEntity(
    id: string, kind: string, canonicalName: string, names: seq<WireName>, attributes: Json)

  datatype WireEvent = WireEvent(
    id: string, kind: string, summary: string, description: string, dating: Option<Json>,
    locationEntityId: string, participants: map<string, string>,
    causes: seq<string>, consequences: seq<string>, sources: seq<Citation>)

  datatype WireVersion = WireVersion(tradition: string, statement: string, sources: seq<Citation>)

  datatype WireClaim = WireClaim(
    id: string, statement: string, confidence: string, subjectEntityId: string,
    predicate_: string, objectEntityId: string, objectValue: string,
    versions: seq<WireVersion>, sources: seq<Citation>)

  datatype WireRelationship = WireRelationship(
    fromEntityId: string, toEntityId: string, relType: string, claimId: string)

  datatype WireExtraction = WireExtraction(
    entities: seq<WireEntity>, events: seq<WireEvent>,
    claims: seq<WireClaim>, relationships: seq<WireRelationship>)

  // -------------------------------------------------- required fields

  method CitationsProblem(citations: seq<Citation>) returns (problem: string)
    ensures problem == SourcesProblem(citations)
  {
    for i := 0 to |citations|
      invariant forall j :: 0 <= j < i ==> citations[j].sourceId != ""
    {
      if citations[i].sourceId == "" {
        return "sources[].source_id is required";
      }
    }
    return "";
  }

  function SourcesProblem(citations: seq<Citation>): string {
    if forall c :: c in citations ==> c.sourceId != "" then "" else "sources[].source_id is required"
  }

  function EntityProblem(e: WireEntity): string {
    if e.id == "" then "id is required"
    else if e.kind == "" then "kind is required"
    else if e.canonicalName == "" then "canonical_name is required"
    else ""
  }

  function EventProblem(e: WireEvent): string {
    if e.id == "" then "id is required"
    else if e.summary == "" then "summary is required"
    else SourcesProblem(e.sources)
  }

  function VersionProblem(v: WireVersion): string {
    if v.tradition == "" then "label is required"
    else if v.statement == "" then "statement is required"
    else SourcesProblem(v.sources)
  }

  /** The first non-empty version problem, prefixed. */
  function VersionsProblem(vs: seq<WireVersion>): string {
    if vs == [] then ""
    else if VersionProblem(vs[0]) != "" then "versions[]: " + VersionProblem(vs[0])
    else VersionsProblem(vs[1..])
  }

  function ClaimProblem(c: WireClaim): string {
    if c.id == "" then "id is required"
    else if c.statement == "" then "statement is required"
    else if !ValidConfidence(c.confidence) then "invalid confidence"
    else if SourcesProblem(c.sources) != "" then SourcesProblem(c.sources)
    else VersionsProblem(c.versions)
  }

  function RelationshipProblem(r: WireRelationship): string {
    if r.fromEntityId == "" then "from_entity_id is required"
    else if r.toEntityId == "" then "to_entity_id is required"
    else if r.relType == "" then "rel_type is required"
    else ""
  }

  // The required-field checks, told from the fields.

  ghost predicate AllNamed(cs: seq<Citation>) {
    forall c :: c in cs ==> c.sourceId != ""
  }

  ghost predicate EntityComplete(e: WireEntity) {
    e.id != "" && e.kind != "" && e.canonicalName != ""
  }

  ghost predicate EventComplete(e: WireEvent) {
    e.id != "" && e.summary != "" && AllNamed(e.sources)
  }

  ghost predicate VersionComplete(v: WireVersion) {
    v.tradition != "" && v.statement != "" && AllNamed(v.sources)
  }

  ghost predicate ClaimComplete(c: WireClaim) {
    && c.id != "" && c.statement != ""
    && c.confidence in {"established", "derived_probable", "contested", "abandoned_version"}
    && AllNamed(c.sources) && forall v :: v in c.versions ==> VersionComplete(v)
  }

  ghost predicate EdgeComplete(r: WireRelationship) {
    r.fromEntityId != "" && r.toEntityId != "" && r.relType != ""
  }

  // Each complaint names the first thing that is missing.

  ghost predicate EntityTells(e: WireEntity, text: string) {
    || (text == "id is required" && e.id == "")
    || (text == "kind is required" && e.id != "" && e.kind == "")
    || (text == "canonical_name is required" && e.id != "" && e.kind != "")
  }

  ghost predicate EventTells(e: WireEvent, text: string) {
    || (text == "id is required" && e.id == "")
    || (text == "summary is required" && e.id != "" && e.summary == "")
    || (text == "sources[].source_id is required" && e.id != "" && e.summary != "")
  }

  ghost predicate VersionTells(v: WireVersion, text: string) {
    || (text == "label is required" && v.tradition == "")
    || (text == "statement is required" && v.tradition != "" && v.statement == "")
    || (text == "sources[].source_id is required" && v.tradition != "" && v.statement != "" && !AllNamed(v.sources))
  }

  ghost predicate FirstVersionTells(vs: seq<WireVersion>, text: string) {
    exists i, complaint :: 0 <= i < |vs| && (forall j :: 0 <= j < i ==> VersionComplete(vs[j]))
                           && VersionTells(vs[i], complaint) && text == "versions[]: " + complaint
  }

  ghost predicate ClaimTells(c: WireClaim, text: string) {
    if c.id == "" then text == "id is required"
    else if c.statement == "" then text == "statement is required"
    else if c.confidence !in {"established", "derived_probable", "contested", "abandoned_version"} then text == "invalid confidence"
    else if !AllNamed(c.sources) then text == "sources[].source_id is required"
    else FirstVersionTells(c.versions, text)
  }

  ghost predicate EdgeTells(r: WireRelationship, text: string) {
    || (text == "from_entity_id is required" && r.fromEntityId == "")
    || (text == "to_entity_id is required" && r.fromEntityId != "" && r.toEntityId == "")
    || (text == "rel_type is required" && r.fromEntityId != "" && r.toEntityId != "")
  }

  lemma {:induction false} VersionsTell(vs: seq<WireVersion>)
    requires VersionsProblem(vs) != ""
    ensures FirstVersionTells(vs, VersionsProblem(vs))
  {
    var text := VersionProblem(vs[0]);
    if text != "" {
      assert VersionTells(vs[0], text);
    } else {
      VersionsTell(vs[1..]);
      var i, complaint :| 0 <= i < |vs[1..]| && (forall j :: 0 <= j < i ==> VersionComplete(vs[1..][j]))
                          && VersionTells(vs[1..][i], complaint) && VersionsProblem(vs[1..]) == "versions[]: " + complaint;
      assert vs[i + 1] == vs[1..][i];
      forall j | 0 <= j < i + 1
        ensures VersionComplete(vs[j])
      {
        if j > 0 { assert vs[j] == vs[1..][j - 1]; }
      }
    }
  }

  lemma ComplaintsTell()
    ensures forall e :: EntityProblem(e) != "" ==> EntityTells(e, EntityProblem(e))
    ensures forall e :: EventProblem(e) != "" ==> EventTells(e, EventProblem(e))
    ensures forall c :: ClaimProblem(c) != "" ==> ClaimTells(c, ClaimProblem(c))
    ensures forall r :: RelationshipProblem(r) != "" ==> EdgeTells(r, RelationshipProblem(r))
  {
    forall c: WireClaim | ClaimProblem(c) != ""
      ensures ClaimTells(c, ClaimProblem(c))
    {
      if VersionsProblem(c.versions) != "" { VersionsTell(c.versions); }
    }
  }

  lemma {:induction false} VersionsComplete(vs: seq<WireVersion>)
    ensures VersionsProblem(vs) == "" <==> forall v :: v in vs ==> VersionComplete(v)
  {
    if vs != [] {
      VersionsComplete(vs[1..]);
      assert vs == [vs[0]] + vs[1..];
      var text := "versions[]: " + VersionProblem(vs[0]);
      assert |text| > 0;
      assert VersionProblem(vs[0]) == "" <==> VersionComplete(vs[0]);
    }
  }

  /** A record draws no complaint exactly when its required fields are there. */
  lemma CompleteExactly()
    ensures forall e :: EntityProblem(e) == "" <==> EntityComplete(e)
    ensures forall e :: EventProblem(e) == "" <==> EventComplete(e)
    ensures forall c :: ClaimProblem(c) == "" <==> ClaimComplete(c)
    ensures forall r :: RelationshipProblem(r) == "" <==> EdgeComplete(r)
  {
    forall c: WireClaim
      ensures ClaimProblem(c) == "" <==> ClaimComplete(c)
    {
      VersionsComplete(c.versions);
    }
  }

  // ---------------------------------------------------------- salvage

  /** One list element after strict decoding: a record, or the decoder's complaint. */
  datatype Decoded<+T> = Record(value: T) | Malformed(error: string)

  /** One list member of the payload: absent or null, not a list, or its elements. */
  datatype RawList<+T> = Absent | NotAList | Items(items: seq<Decoded<T>>)

  /** The decoded top-level object. */
  datatype RawPayload = RawPayload(
    entities: RawList<WireEntity>, events: RawList<WireEvent>,
    claims: RawList<WireClaim>, relationships: RawList<WireRelationship>)

  /** A salvage problem: the list, the element (none for the list itself), the complaint. */
  datatype Problem = Problem(kind: string, index: Option<nat>, error: string)

  ghost function ProblemOf<T>(d: Decoded<T>, required: T -> string): string {
    match d
    case Malformed(e) => e
    case Record(v) => required(v)
  }

  ghost predicate Salvaged<T>(d: Decoded<T>, required: T -> string) {
    d.Record? && required(d.value) == ""
  }

  ghost function SalvageItems<T>(ds: seq<Decoded<T>>, required: T -> string): seq<T> {
    if ds == [] then [] else
    SalvageItems(Front(ds), required) + if Salvaged(Last(ds), required) then [Last(ds).value] else []
  }

  ghost function SalvageProblems<T>(kind: string, ds: seq<Decoded<T>>, required: T -> string): seq<Problem> {
    if ds == [] then [] else
    SalvageProblems(kind, Front(ds), required) +
    if Salvaged(Last(ds), required) then [] else [Problem(kind, Some(|ds| - 1), ProblemOf(Last(ds), required))]
  }

  ghost function SalvageList<T>(raw: RawList<T>, required: T -> string): seq<T> {
    if raw.Items? then SalvageItems(raw.items, required) else []
  }

  ghost function ListProblems<T>(kind: string, raw: RawList<T>, required: T -> string): seq<Problem> {
    match raw
    case Absent => []
    case NotAList => [Problem(kind, None, "not a list; skipped")]
    case Items(ds) => SalvageProblems(kind, ds, required)
  }

  /** The salvage loop, over any record type. */
  method Salvage<T>(kind: string, raw: RawList<T>, required: T -> string)
    returns (items: seq<T>, problems: seq<Problem>)
    ensures items == SalvageList(raw, required)
    ensures problems == ListProblems(kind, raw, required)
  {
    items, problems := [], [];
    if raw.Absent? { return; }
    if raw.NotAList? {
      problems := [Problem(kind, None, "not a list; skipped")];
      return;
    }
    for i := 0 to |raw.items|
      invariant items == SalvageItems(raw.items[..i], required)
      invariant problems == SalvageProblems(kind, raw.items[..i], required)
    {
      FrontOfPrefix(raw.items, i);
      match raw.items[i]
      case Malformed(e) =>
        problems := problems + [Problem(kind, Some(i), e)];
      case Record(v) =>
        var problem := required(v);
        if problem != "" {
          problems := problems + [Problem(kind, Some(i), problem)];
        } else {
          items := items + [v];
        }
    }
    assert raw.items[..|raw.items|] == raw.items;
  }

  /**
   * Salvage loses nothing silently: each element becomes one item or one problem,
   * every item passes its required-field check, and every element that decodes and
   * passes is kept.
   */
  lemma {:induction false} SalvageConserves<T>(kind: string, ds: seq<Decoded<T>>, required: T -> string)
    ensures |SalvageItems(ds, required)| + |SalvageProblems(kind, ds, required)| == |ds|
    ensures forall x :: x in SalvageItems(ds, required) ==> Record(x) in ds && required(x) == ""
    ensures forall x :: Record(x) in ds && required(x) == "" ==> x in SalvageItems(ds, required)
    ensures forall p :: p in SalvageProblems(kind, ds, required) ==>
              && p.index.Some? && p.index.value < |ds| && !Salvaged(ds[p.index.value], required)
              && p.error == ProblemOf(ds[p.index.value], required)
  {
    if ds != [] {
      SalvageConserves(kind, Front(ds), required);
      assert ds == Front(ds) + [Last(ds)];
    }
  }

  ghost function Payload(raw: RawPayload): WireExtraction {
    WireExtraction(
      SalvageList(raw.entities, EntityProblem), SalvageList(raw.events, EventProblem),
      SalvageList(raw.claims, ClaimProblem), SalvageList(raw.relationships, RelationshipProblem))
  }

  ghost function PayloadProblems(raw: RawPayload): seq<Problem> {
    ListProblems("entities", raw.entities, EntityProblem) + ListProblems("events", raw.events, EventProblem) +
    ListProblems("claims", raw.claims, ClaimProblem) + ListProblems("relationships", raw.relationships, RelationshipProblem)
  }

  /** Element i decodes and its required fields are there. */
  ghost function Good<T>(ds: seq<Decoded<T>>, complete: T -> bool): nat -> bool {
    i => 0 <= i < |ds| && ds[i].Record? && complete(ds[i].value)
  }

  ghost function Bad<T>(ds: seq<Decoded<T>>, complete: T -> bool): nat -> bool {
    i => 0 <= i < |ds| && !(ds[i].Record? && complete(ds[i].value))
  }

  /** at lists the good elements, and the items are their values. */
  ghost predicate ItemsAt<T>(ds: seq<Decoded<T>>, complete: T -> bool, items: seq<T>, at: seq<nat>) {
    Lists(at, |ds|, Good(ds, complete)) && |items| == |at| && forall k :: 0 <= k < |at| ==> items[k] == ds[at[k]].value
  }

  /** at lists the other elements, and each has its problem: the list, the index, and the decoder's complaint or what is missing. */
  ghost predicate ProblemsAt<T>(kind: string, ds: seq<Decoded<T>>, complete: T -> bool, tells: (T, string) -> bool, problems: seq<Problem>, at: seq<nat>) {
    && Lists(at, |ds|, Bad(ds, complete)) && |problems| == |at|
    && forall k :: 0 <= k < |at| ==>
         && problems[k].kind == kind && problems[k].index == Some(at[k])
         && if ds[at[k]].Malformed? then problems[k].error == ds[at[k]].error else tells(ds[at[k]].value, problems[k].error)
  }

  /** The items are the good elements, in order. */
  ghost predicate ItemsOf<T>(raw: RawList<T>, complete: T -> bool, items: seq<T>) {
    match raw
    case Items(ds) =>
      exists at :: ItemsAt(ds, complete, items, at)
    case _ => items == []
  }

  /** One problem for each other element, in order, under its index and with its complaint; one for what is not a list. */
  ghost predicate ProblemsOf<T>(kind: string, raw: RawList<T>, complete: T -> bool, tells: (T, string) -> bool, problems: seq<Problem>) {
    match raw
    case Items(ds) =>
      exists at :: ProblemsAt(kind, ds, complete, tells, problems, at)
    case NotAList => |problems| == 1 && problems[0].kind == kind && problems[0].index.None?
    case Absent => problems == []
  }

  lemma ItemsOneMore<T>(ds: seq<Decoded<T>>, required: T -> string)
    requires ds != []
    ensures var before := SalvageItems(Front(ds), required);
            SalvageItems(ds, required) == if Salvaged(Last(ds), required) then before + [Last(ds).value] else before
  {
  }

  /** Item k is the value of element at[k]. */
  ghost predicate Salvages<T>(ds: seq<Decoded<T>>, at: seq<nat>, items: seq<T>) {
    |items| == |at| && forall k :: 0 <= k < |at| ==> at[k] < |ds| && ds[at[k]].Record? && items[k] == ds[at[k]].value
  }

  lemma SalvagesOneMore<T>(ds: seq<Decoded<T>>, at: seq<nat>, items: seq<T>)
    requires ds != [] && Salvages(Front(ds), at, items)
    ensures Salvages(ds, at, items)
    ensures Last(ds).Record? ==> Salvages(ds, at + [|ds| - 1], items + [Last(ds).value])
  {
  }

  lemma {:induction false} ItemPositions<T>(ds: seq<Decoded<T>>, required: T -> string, complete: T -> bool) returns (good: seq<nat>)
    requires forall x :: required(x) == "" <==> complete(x)
    ensures Lists(good, |ds|, Good(ds, complete)) && Salvages(ds, good, SalvageItems(ds, required))
    decreases |ds|
  {
    good := [];
    if ds != [] {
      var f, n := Front(ds), |ds| - 1;
      var before := ItemPositions(f, required, complete);
      assert forall i :: 0 <= i < n ==> Good(f, complete)(i) == Good(ds, complete)(i);
      assert Good(ds, complete)(n) == Salvaged(ds[n], required);
      ItemsOneMore(ds, required);
      SalvagesOneMore(ds, before, SalvageItems(f, required));
      hide Good, Lists, Salvages, SalvageItems;
      ListsOneMore(before, n, Good(f, complete), Good(ds, complete));
      good := if Salvaged(ds[n], required) then before + [n] else before;
    }
  }

  /** Problem k tells of element at[k]. */
  ghost predicate Told<T>(kind: string, ds: seq<Decoded<T>>, required: T -> string, at: seq<nat>, problems: seq<Problem>) {
    |problems| == |at|
    && forall k :: 0 <= k < |at| ==> at[k] < |ds| && problems[k] == Problem(kind, Some(at[k]), ProblemOf(ds[at[k]], required))
  }

  lemma ToldOneMore<T>(kind: string, ds: seq<Decoded<T>>, required: T -> string, at: seq<nat>, problems: seq<Problem>)
    requires ds != [] && Told(kind, Front(ds), required, at, problems)
    ensures Told(kind, ds, required, at, problems)
    ensures Told(kind, ds, required, at + [|ds| - 1], problems + [Problem(kind, Some(|ds| - 1), ProblemOf(Last(ds), required))])
  {
    hide ProblemOf;
  }

  lemma ProblemsOneMore<T>(kind: string, ds: seq<Decoded<T>>, required: T -> string)
    requires ds != []
    ensures var before := SalvageProblems(kind, Front(ds), required);
            SalvageProblems(kind, ds, required) ==
            if Salvaged(Last(ds), required) then before
            else before + [Problem(kind, Some(|ds| - 1), ProblemOf(Last(ds), required))]
  {
    hide Salvaged, ProblemOf;
  }

  lemma {:induction false} ProblemPositions<T>(kind: string, ds: seq<Decoded<T>>, required: T -> string, complete: T -> bool) returns (bad: seq<nat>)
    requires forall x :: required(x) == "" <==> complete(x)
    ensures Lists(bad, |ds|, Bad(ds, complete)) && Told(kind, ds, required, bad, SalvageProblems(kind, ds, required))
    decreases |ds|
  {
    bad := [];
    if ds != [] {
      var f, n := Front(ds), |ds| - 1;
      var before := ProblemPositions(kind, f, required, complete);
      assert forall i :: 0 <= i < n ==> Bad(f, complete)(i) == Bad(ds, complete)(i);
      assert Bad(ds, complete)(n) == !Salvaged(ds[n], required);
      hide Bad, Salvaged, ProblemOf, Lists, Told, SalvageProblems;
      ProblemsOneMore(kind, ds, required);
      ListsOneMore(before, n, Bad(f, complete), Bad(ds, complete));
      ToldOneMore(kind, ds, required, before, SalvageProblems(kind, f, required));
      bad := if Salvaged(ds[n], required) then before else before + [n];
    }
  }

  lemma SalvagesExactly<T>(kind: string, raw: RawList<T>, required: T -> string, complete: T -> bool, tells: (T, string) -> bool)
    requires forall x :: required(x) == "" <==> complete(x)
    requires forall x :: required(x) != "" ==> tells(x, required(x))
    ensures ItemsOf(raw, complete, SalvageList(raw, required))
    ensures ProblemsOf(kind, raw, complete, tells, ListProblems(kind, raw, required))
  {
    if raw.Items? {
      var good := ItemPositions(raw.items, required, complete);
      var bad := ProblemPositions(kind, raw.items, required, complete);
      assert ItemsAt(raw.items, complete, SalvageItems(raw.items, required), good);
      assert ProblemsAt(kind, raw.items, complete, tells, SalvageProblems(kind, raw.items, required), bad);
      hide Lists, Good, Bad, SalvageItems, SalvageProblems, ItemsAt, ProblemsAt;
    }
  }

  /** The four lists salvaged in order. */
  method SalvagePayload(raw: RawPayload) returns (wire: WireExtraction, problems: seq<Problem>)
    ensures wire == Payload(raw) && problems == PayloadProblems(raw)
    ensures ItemsOf(raw.entities, EntityComplete, wire.entities) && ItemsOf(raw.events, EventComplete, wire.events)
    ensures ItemsOf(raw.claims, ClaimComplete, wire.claims) && ItemsOf(raw.relationships, EdgeComplete, wire.relationships)
    ensures exists a, b, c, d ::
              && problems == a + b + c + d
              && ProblemsOf("entities", raw.entities, EntityComplete, EntityTells, a) && ProblemsOf("events", raw.events, EventComplete, EventTells, b)
              && ProblemsOf("claims", raw.claims, ClaimComplete, ClaimTells, c) && ProblemsOf("relationships", raw.relationships, EdgeComplete, EdgeTells, d)
  {
    CompleteExactly();
    ComplaintsTell();
    SalvagesExactly("entities", raw.entities, EntityProblem, EntityComplete, EntityTells);
    SalvagesExactly("events", raw.events, EventProblem, EventComplete, EventTells);
    SalvagesExactly("claims", raw.claims, ClaimProblem, ClaimComplete, ClaimTells);
    SalvagesExactly("relationships", raw.relationships, RelationshipProblem, EdgeComplete, EdgeTells);
    hide ItemsOf, ProblemsOf, EntityProblem, EventProblem, ClaimProblem, RelationshipProblem,
      EntityComplete, EventComplete, ClaimComplete, EdgeComplete, EntityTells, EventTells, ClaimTells, EdgeTells,
      SalvageList, ListProblems;
    var entities, a := Salvage("entities", raw.entities, EntityProblem);
    var events, b := Salvage("events", raw.events, EventProblem);
    var claims, c := Salvage("claims", raw.claims, ClaimProblem);
    var relationships, d := Salvage("relationships", raw.relationships, RelationshipProblem);
    wire, problems := WireExtraction(entities, events, claims, relationships), a + b + c + d;
  }

  // ------------------------------------- what validation may rely upon

  /** Every record passes its required-field check. */
  ghost predicate Required(w: WireExtraction) {
    && (forall e :: e in w.entities ==> EntityProblem(e) == "")
    && (forall e :: e in w.events ==> EventProblem(e) == "")
    && (forall c :: c in w.claims ==> ClaimProblem(c) == "")
    && (forall r :: r in w.relationships ==> RelationshipProblem(r) == "")
  }

  lemma SalvageRequired<T>(raw: RawList<T>, required: T -> string)
    ensures forall x :: x in SalvageList(raw, required) ==> required(x) == ""
  {
    forall x | x in SalvageList(raw, required)
      ensures required(x) == ""
    {
      SalvageConserves("", raw.items, required);
      assert x in SalvageItems(raw.items, required);
    }
  }

  /** Whatever the model answers, a parsed payload satisfies every required-field check. */
  lemma ParsedIsRequired(raw: RawPayload)
    ensures Required(Payload(raw))
    ensures forall c :: c in Payload(raw).claims ==> ClaimComplete(c)
  {
    CompleteExactly();
    SalvageRequired(raw.entities, EntityProblem);
    SalvageRequired(raw.events, EventProblem);
    SalvageRequired(raw.claims, ClaimProblem);
    SalvageRequired(raw.relationships, RelationshipProblem);
  }
}
