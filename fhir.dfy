/** Resource extraction of `scripts/load_synthea_neo4j.py`: the lazy walk over FHIR documents
    (`_iter_resources`), literal references (`_ref_id`), the collection loop of `run` with its
    limit, the dropping of rows without ids, and the linking decisions its Cypher encodes.
    Files, the Neo4j driver and the Cypher execution itself are not modelled: documents are
    given as parsed JSON, and the graph's existing ids as sets. */
module Fhir {
  import opened Wrappers
  import opened Text

  /** A parsed JSON value; an object is a map, as `json.load` gives a dict (a repeated key keeps
      its last value). */
  datatype Json =
    | JNull
    | JBool(b: bool)
    | JNum(n: real)
    | JStr(s: string)
    | JArr(items: seq<Json>)
    | JObj(fields: map<string, Json>)

  /** Python truthiness of a JSON value. */
  predicate Truthy(j: Json) {
    match j
    case JNull => false
    case JBool(b) => b
    case JNum(n) => n != 0.0
    case JStr(s) => |s| > 0
    case JArr(xs) => |xs| > 0
    case JObj(m) => |m| > 0
  }

  /** `d.get(key)`. */
  function Get(m: map<string, Json>, key: string): Json {
    if key in m then m[key] else JNull
  }

  // ---------------------------------------------------------------------------------------
  // _iter_resources
  // ---------------------------------------------------------------------------------------

  /** What a generator produced before it stopped: the values it yielded, and the error that
      stopped it, if it did not run to the end. */
  datatype Stream = Stream(items: seq<Json>, failure: Option<string>)

  const EMPTY: Stream := Stream([], None)

  /** `a` followed by `b`; an error in `a` ends the stream there. */
  function Then(a: Stream, b: Stream): (r: Stream)
    ensures a.failure.Some? ==> r == a
    ensures a.failure.None? ==> r.items == a.items + b.items && r.failure == b.failure
  {
    if a.failure.Some? then a else Stream(a.items + b.items, b.failure)
  }

  const NOT_A_DICT: string := "AttributeError: object has no attribute 'get'"
  const NOT_ITERABLE: string := "TypeError: object is not iterable"

  /** `for e in entries: r = e.get("resource"); if r: yield r`. */
  function EntryResources(entries: seq<Json>): Stream
    decreases |entries|
  {
    if |entries| == 0 then EMPTY
    else
      match entries[0]
      case JObj(e) =>
        var r := Get(e, "resource");
        Then(Stream(if Truthy(r) then [r] else [], None), EntryResources(entries[1..]))
      case _ => Stream([], Some(NOT_A_DICT))
  }

  /** Iterating `doc.get("entry", [])`: a list gives its entries; an empty string or object
      gives nothing; a non-empty one gives strings (its characters or keys), on which `.get`
      fails; anything else is not iterable. */
  function BundleResources(entry: Json): Stream {
    match entry
    case JArr(es) => EntryResources(es)
    case JObj(m) => if |m| == 0 then EMPTY else Stream([], Some(NOT_A_DICT))
    case JStr(s) => if |s| == 0 then EMPTY else Stream([], Some(NOT_A_DICT))
    case _ => Stream([], Some(NOT_ITERABLE))
  }

  /** The elements of a list document that are objects with a truthy `resourceType`. */
  function ListResources(xs: seq<Json>): (rs: seq<Json>)
    ensures forall r :: r in rs ==> r in xs && r.JObj? && Truthy(Get(r.fields, "resourceType"))
    ensures forall x :: x in xs && x.JObj? && Truthy(Get(x.fields, "resourceType")) ==> x in rs
    decreases |xs|
  {
    if |xs| == 0 then []
    else
      var keep := xs[0].JObj? && Truthy(Get(xs[0].fields, "resourceType"));
      assert forall x :: x in xs ==> x == xs[0] || x in xs[1..];
      (if keep then [xs[0]] else []) + ListResources(xs[1..])
  }

  /** The resources of one parsed document. */
  function DocResources(doc: Json): Stream {
    match doc
    case JObj(m) =>
      if Get(m, "resourceType") == JStr("Bundle") then
        BundleResources(if "entry" in m then m["entry"] else JArr([]))
      else if Truthy(Get(m, "resourceType")) then Stream([doc], None)
      else EMPTY
    case JArr(xs) => Stream(ListResources(xs), None)
    case _ => EMPTY
  }

  /** `_iter_resources` over the files in walk order; None stands for a file that could not be
      opened or parsed, which is skipped. */
  function IterResources(docs: seq<Option<Json>>): Stream
    decreases |docs|
  {
    if |docs| == 0 then EMPTY
    else
      var first := match docs[0] case None => EMPTY case Some(d) => DocResources(d);
      Then(first, IterResources(docs[1..]))
  }

  /** Following is associative, so a walk can be cut anywhere. */
  lemma ThenAssociative(a: Stream, b: Stream, c: Stream)
    ensures Then(Then(a, b), c) == Then(a, Then(b, c))
  {
    if a.failure.None? && b.failure.None? {
      assert a.items + b.items + c.items == a.items + (b.items + c.items);
    }
  }

  /** A list document yields its qualifying elements in list order, each as often as it occurs:
      one element gives itself or nothing, and a list split in two yields the first part's
      resources, then the second's. */
  lemma {:induction false} ListResourcesInOrder(a: seq<Json>, b: seq<Json>, x: Json)
    ensures ListResources([x]) == if x.JObj? && Truthy(Get(x.fields, "resourceType")) then [x] else []
    ensures ListResources(a + b) == ListResources(a) + ListResources(b)
    decreases |a|
  {
    assert [x][1..] == [];
    if |a| == 0 {
      assert a + b == b;
    } else {
      assert (a + b)[0] == a[0] && (a + b)[1..] == a[1..] + b;
      ListResourcesInOrder(a[1..], b, x);
    }
  }

  /** A Bundle's entries, when they are objects, yield their truthy `resource`s in entry order:
      one entry gives its resource or nothing, entries split in two yield the first part's
      resources, then the second's, and an entry that is not an object stops the walk. */
  lemma {:induction false} EntryResourcesInOrder(a: seq<Json>, b: seq<Json>, e: map<string, Json>, bad: Json)
    requires forall i :: 0 <= i < |a| ==> a[i].JObj?
    ensures EntryResources([JObj(e)]) ==
      Stream(if Truthy(Get(e, "resource")) then [Get(e, "resource")] else [], None)
    ensures !bad.JObj? ==> EntryResources([bad] + b) == Stream([], Some(NOT_A_DICT))
    ensures EntryResources(a + b) == Then(EntryResources(a), EntryResources(b))
    decreases |a|
  {
    assert [JObj(e)][1..] == [];
    assert ([bad] + b)[0] == bad;
    if |a| == 0 {
      assert a + b == b;
    } else {
      assert (a + b)[0] == a[0] && (a + b)[1..] == a[1..] + b;
      EntryResourcesInOrder(a[1..], b, e, bad);
      var r := Get(a[0].fields, "resource");
      ThenAssociative(Stream(if Truthy(r) then [r] else [], None), EntryResources(a[1..]), EntryResources(b));
    }
  }

  /** Entries that are all objects never fail, and yield exactly the truthy resources they hold. */
  lemma {:induction false} EntryResourcesMembers(es: seq<Json>)
    requires forall i :: 0 <= i < |es| ==> es[i].JObj?
    ensures EntryResources(es).failure.None?
    ensures forall r :: r in EntryResources(es).items <==>
      exists i :: 0 <= i < |es| && r == Get(es[i].fields, "resource") && Truthy(r)
    decreases |es|
  {
    if |es| > 0 {
      EntryResourcesMembers(es[1..]);
      forall r | (exists i :: 0 <= i < |es[1..]| && r == Get(es[1..][i].fields, "resource") && Truthy(r))
        ensures exists i :: 0 <= i < |es| && r == Get(es[i].fields, "resource") && Truthy(r)
      {
        var i :| 0 <= i < |es[1..]| && r == Get(es[1..][i].fields, "resource") && Truthy(r);
        assert es[1..][i] == es[i + 1];
      }
      forall r | (exists i :: 0 <= i < |es| && r == Get(es[i].fields, "resource") && Truthy(r))
        ensures r in EntryResources(es).items
      {
        var i :| 0 <= i < |es| && r == Get(es[i].fields, "resource") && Truthy(r);
        if i > 0 {
          assert es[1..][i - 1] == es[i];
        }
      }
    }
  }

  /** The three kinds of document: a Bundle yields the truthy resources of its entries (none
      when it has no `entry`); another object yields itself when its `resourceType` is truthy;
      a list yields its qualifying elements; anything else yields nothing. */
  lemma DocumentKinds(doc: Json)
    ensures doc.JObj? && Get(doc.fields, "resourceType") == JStr("Bundle") && "entry" !in doc.fields ==>
      DocResources(doc) == EMPTY
    ensures doc.JObj? && Get(doc.fields, "resourceType") == JStr("Bundle") && "entry" in doc.fields
            && doc.fields["entry"].JArr? && (forall i :: 0 <= i < |doc.fields["entry"].items| ==> doc.fields["entry"].items[i].JObj?) ==>
      var es := doc.fields["entry"].items;
      && DocResources(doc).failure.None?
      && forall r :: r in DocResources(doc).items <==>
           exists i :: 0 <= i < |es| && r == Get(es[i].fields, "resource") && Truthy(r)
    ensures doc.JObj? && Get(doc.fields, "resourceType") != JStr("Bundle") ==>
      DocResources(doc) == (if Truthy(Get(doc.fields, "resourceType")) then Stream([doc], None) else EMPTY)
    ensures doc.JArr? ==> DocResources(doc) == Stream(ListResources(doc.items), None)
    ensures !doc.JObj? && !doc.JArr? ==> DocResources(doc) == EMPTY
  {
    if doc.JObj? && Get(doc.fields, "resourceType") == JStr("Bundle") && "entry" in doc.fields
       && doc.fields["entry"].JArr? {
      var es := doc.fields["entry"].items;
      if forall i :: 0 <= i < |es| ==> es[i].JObj? {
        EntryResourcesMembers(es);
      }
    }
  }

  /** The walk over files split in two is the walk over the first part followed by the walk over
      the second: files are handled one after the other, in walk order. */
  lemma {:induction false} IterResourcesInOrder(a: seq<Option<Json>>, b: seq<Option<Json>>)
    ensures IterResources(a + b) == Then(IterResources(a), IterResources(b))
    decreases |a|
  {
    if |a| == 0 {
      assert a + b == b;
    } else {
      assert (a + b)[0] == a[0] && (a + b)[1..] == a[1..] + b;
      IterResourcesInOrder(a[1..], b);
      var first := match a[0] case None => EMPTY case Some(d) => DocResources(d);
      ThenAssociative(first, IterResources(a[1..]), IterResources(b));
    }
  }

  /** Everything the walk yields is truthy: empty bundle entries are skipped, and single and
      listed resources carry a truthy `resourceType`. */
  lemma {:induction false} IterResourcesYieldsTruthy(docs: seq<Option<Json>>)
    ensures forall r :: r in IterResources(docs).items ==> Truthy(r)
    decreases |docs|
  {
    if |docs| > 0 {
      IterResourcesYieldsTruthy(docs[1..]);
      match docs[0]
      case None =>
      case Some(d) => DocResourcesYieldTruthy(d);
    }
  }

  lemma DocResourcesYieldTruthy(doc: Json)
    ensures forall r :: r in DocResources(doc).items ==> Truthy(r)
  {
    match doc
    case JObj(m) =>
      if Get(m, "resourceType") == JStr("Bundle") {
        match (if "entry" in m then m["entry"] else JArr([]))
        case JArr(es) => EntryResourcesYieldTruthy(es);
        case _ =>
      } else if Truthy(Get(m, "resourceType")) {
        assert "resourceType" in m;
      }
    case JArr(xs) =>
      forall r | r in ListResources(xs) ensures Truthy(r) {
        assert "resourceType" in r.fields;
      }
    case _ =>
  }

  lemma {:induction false} EntryResourcesYieldTruthy(entries: seq<Json>)
    ensures forall r :: r in EntryResources(entries).items ==> Truthy(r)
    decreases |entries|
  {
    if |entries| > 0 {
      EntryResourcesYieldTruthy(entries[1..]);
    }
  }

  /** An unreadable file contributes nothing: the walk is the same without it. */
  lemma {:induction false} UnreadableFileIsSkipped(docs: seq<Option<Json>>, i: nat)
    requires i < |docs| && docs[i] == None
    ensures IterResources(docs) == IterResources(docs[..i] + docs[i + 1..])
    decreases |docs|
  {
    if i == 0 {
      assert docs[..0] + docs[1..] == docs[1..];
    } else {
      UnreadableFileIsSkipped(docs[1..], i - 1);
      assert (docs[..i] + docs[i + 1..])[1..] == docs[1..][..i - 1] + docs[1..][i..];
      assert (docs[..i] + docs[i + 1..])[0] == docs[0];
    }
  }

  /** An error ends the walk: once a prefix of the files has failed, later files add nothing. */
  lemma {:induction false} FailureEndsTheWalk(docs: seq<Option<Json>>, more: seq<Option<Json>>)
    requires IterResources(docs).failure.Some?
    ensures IterResources(docs + more) == IterResources(docs)
    decreases |docs|
  {
    assert |docs| > 0;
    assert (docs + more)[0] == docs[0];
    assert (docs + more)[1..] == docs[1..] + more;
    var first := match docs[0] case None => EMPTY case Some(d) => DocResources(d);
    if first.failure.None? {
      FailureEndsTheWalk(docs[1..], more);
    }
  }

  // ---------------------------------------------------------------------------------------
  // _ref_id
  // ---------------------------------------------------------------------------------------

  /** `_ref_id`: nothing for a missing or empty reference, else the text after the last "/". */
  function RefId(reference: Option<string>): (r: Option<string>)
    ensures r.None? <==> reference.None? || reference == Some("")
  {
    match reference
    case None => None
    case Some(s) => if |s| == 0 then None else Some(LastPiece(s, '/'))
  }

  /** The id is the part of the reference after its last "/", or the whole reference when it has
      no "/"; it never contains a "/". */
  lemma RefIdMeaning(reference: Option<string>)
    ensures reference.None? || reference == Some("") ==> RefId(reference).None?
    ensures reference.Some? && reference.value != "" ==>
      var s := reference.value;
      var id := RefId(reference);
      && id.Some?
      && '/' !in id.value
      && |id.value| <= |s| && s[|s| - |id.value|..] == id.value
      && ('/' !in s ==> id.value == s)
      && ('/' in s ==> |id.value| < |s| && s[|s| - |id.value| - 1] == '/')
  {
    if reference.Some? && reference.value != "" {
      var s := reference.value;
      LastPieceIsSuffixAfterLastSeparator(s, '/');
      var id := LastPiece(s, '/');
      if |Split(s, '/')| > 1 {
        assert s[|s| - |id| - 1] == '/';
      }
    }
  }

  // ---------------------------------------------------------------------------------------
  // Row extraction
  // ---------------------------------------------------------------------------------------

  /** `x.get(key)` on a value that should be an object; other values read as absent. */
  function Field(j: Json, key: string): Json {
    match j
    case JObj(m) => Get(m, key)
    case _ => JNull
  }

  /** `j or default`. */
  function Or(j: Json, default: Json): Json {
    if Truthy(j) then j else default
  }

  /** `xs[0]` of a list; other values read as absent. */
  function First(j: Json): Json {
    match j
    case JArr(xs) => if |xs| > 0 then xs[0] else JNull
    case _ => JNull
  }

  function AsStr(j: Json): Option<string> {
    match j
    case JStr(s) => Some(s)
    case _ => None
  }

  function AsNum(j: Json): Option<real> {
    match j
    case JNum(n) => Some(n)
    case _ => None
  }

  /** The string elements of a list (`given` names). */
  function Strings(j: Json): seq<string> {
    match j
    case JArr(xs) => StringsOf(xs)
    case _ => []
  }

  function StringsOf(xs: seq<Json>): seq<string>
    decreases |xs|
  {
    if |xs| == 0 then []
    else (match xs[0] case JStr(s) => [s] case _ => []) + StringsOf(xs[1..])
  }

  datatype PatientRow = PatientRow(id: Option<string>, name: string, birthDate: Option<string>)

  datatype EncounterRow = EncounterRow(
    id: Option<string>, patientId: Option<string>,
    start: Option<string>, end: Option<string>, encounterType: Option<string>)

  datatype ObservationRow = ObservationRow(
    id: Option<string>, patientId: Option<string>, encounterId: Option<string>,
    loinc: Option<string>, display: Option<string>, value: Option<real>, unit: Option<string>,
    time: Option<string>)

  /** The name an entry of `name` gives: its `text` when non-empty, else the given names
      joined by spaces, a space, and the family name ("" when there is none). */
  function NameOf(first: Json): string {
    var text := AsStr(Field(first, "text"));
    if text.Some? && |text.value| > 0 then text.value
    else
      var family := AsStr(Field(first, "family"));
      Join(Strings(Field(first, "given")), " ") + " " + (if family.Some? then family.value else "")
  }

  /** The patient name: what the first entry of `name` gives, an empty entry standing in for a
      missing or empty name list. */
  function PatientName(r: map<string, Json>): string {
    NameOf(First(Or(Get(r, "name"), JArr([JObj(map[])]))))
  }

  /** A patient without a name, or with an empty name list, gets a single space. */
  lemma PatientNameMissing(r: map<string, Json>)
    requires "name" !in r || r["name"] == JArr([]) || r["name"] == JNull
    ensures PatientName(r) == " "
  {
    assert First(Or(Get(r, "name"), JArr([JObj(map[])]))) == JObj(map[]);
    assert Join([], " ") == "";
  }

  /** A non-empty `text` on the first name is the name, whatever else the entry holds. */
  lemma PatientNameText(r: map<string, Json>, entry: map<string, Json>, t: string)
    requires "name" in r && r["name"].JArr? && |r["name"].items| > 0 && r["name"].items[0] == JObj(entry)
    requires "text" in entry && entry["text"] == JStr(t) && |t| > 0
    ensures PatientName(r) == t
  {
  }

  /** The string elements of a list made only of strings are those strings, in order. */
  lemma {:induction false} StringsOfStrings(xs: seq<Json>, gs: seq<string>)
    requires |xs| == |gs| && forall i :: 0 <= i < |gs| ==> xs[i] == JStr(gs[i])
    ensures StringsOf(xs) == gs
    decreases |gs|
  {
    if |gs| > 0 {
      StringsOfStrings(xs[1..], gs[1..]);
      assert gs == [gs[0]] + gs[1..];
    }
  }

  /** The given names an entry holds as a list of strings, or none when it has no `given`. */
  lemma GivenNames(entry: map<string, Json>, gs: seq<string>)
    requires ("given" in entry && entry["given"].JArr? && |entry["given"].items| == |gs|
              && forall i :: 0 <= i < |gs| ==> entry["given"].items[i] == JStr(gs[i]))
             || ("given" !in entry && gs == [])
    ensures Strings(Field(JObj(entry), "given")) == gs
  {
    if "given" in entry {
      StringsOfStrings(entry["given"].items, gs);
    }
  }

  /** An entry without a non-empty string `text` gives the given names joined by spaces, a
      space, then the family name, or nothing when the family name is missing. */
  lemma NameOfParts(entry: map<string, Json>, gs: seq<string>, family: Option<string>)
    requires !("text" in entry && entry["text"].JStr? && |entry["text"].s| > 0)
    requires Strings(Field(JObj(entry), "given")) == gs
    requires Get(entry, "family") == (if family.Some? then JStr(family.value) else JNull)
    ensures NameOf(JObj(entry)) == Join(gs, " ") + " " + (if family.Some? then family.value else "")
  {
    assert AsStr(Field(JObj(entry), "family")) == family;
  }

  /** Without a non-empty string `text` on the first name: the given names (a list of strings)
      joined by spaces, a space, then the family name, or nothing when it is missing. */
  lemma PatientNameFromParts(r: map<string, Json>, entry: map<string, Json>, gs: seq<string>, family: Option<string>)
    requires "name" in r && r["name"].JArr? && |r["name"].items| > 0 && r["name"].items[0] == JObj(entry)
    requires !("text" in entry && entry["text"].JStr? && |entry["text"].s| > 0)
    requires ("given" in entry && entry["given"].JArr? && |entry["given"].items| == |gs|
              && forall i :: 0 <= i < |gs| ==> entry["given"].items[i] == JStr(gs[i]))
             || ("given" !in entry && gs == [])
    requires Get(entry, "family") == (if family.Some? then JStr(family.value) else JNull)
    ensures PatientName(r) == Join(gs, " ") + " " + (if family.Some? then family.value else "")
  {
    assert First(Or(Get(r, "name"), JArr([JObj(map[])]))) == JObj(entry);
    GivenNames(entry, gs);
    NameOfParts(entry, gs, family);
  }

  /** Two concrete names built from their parts. */
  lemma PatientNameFromPartsExamples()
    ensures PatientName(map["name" := JArr([JObj(map["given" := JArr([JStr("Ann"), JStr("B")]),
                                                     "family" := JStr("Lee")])])]) == "Ann B Lee"
    ensures PatientName(map["name" := JArr([JObj(map["given" := JArr([JStr("Ann")])])])]) == "Ann "
  {
    var n2 := map["given" := JArr([JStr("Ann"), JStr("B")]), "family" := JStr("Lee")];
    var r2 := map["name" := JArr([JObj(n2)])];
    assert PatientName(r2) == "Ann B Lee" by {
      assert First(Or(Get(r2, "name"), JArr([JObj(map[])]))) == JObj(n2);
      assert Field(JObj(n2), "text") == JNull;
      assert Strings(Field(JObj(n2), "given")) == ["Ann", "B"] by {
        assert [JStr("Ann"), JStr("B")][1..] == [JStr("B")];
      }
      assert Join(["Ann", "B"], " ") == "Ann B" by {
        assert ["Ann", "B"][1..] == ["B"];
      }
    }
    var n3 := map["given" := JArr([JStr("Ann")])];
    var r3 := map["name" := JArr([JObj(n3)])];
    assert PatientName(r3) == "Ann " by {
      assert First(Or(Get(r3, "name"), JArr([JObj(map[])]))) == JObj(n3);
      assert Field(JObj(n3), "text") == JNull && Field(JObj(n3), "family") == JNull;
      assert Strings(Field(JObj(n3), "given")) == ["Ann"];
    }
  }

  function PatientRowOf(r: map<string, Json>): PatientRow {
    PatientRow(AsStr(Get(r, "id")), PatientName(r), AsStr(Get(r, "birthDate")))
  }

  function EncounterRowOf(r: map<string, Json>): EncounterRow {
    var period := Or(Get(r, "period"), JObj(map[]));
    EncounterRow(
      AsStr(Get(r, "id")),
      RefId(AsStr(Field(Or(Get(r, "subject"), JObj(map[])), "reference"))),
      AsStr(Field(period, "start")),
      AsStr(Field(period, "end")),
      if Truthy(Get(r, "type")) then AsStr(Field(First(Or(Get(r, "type"), JArr([JObj(map[])]))), "text")) else None)
  }

  function ObservationRowOf(r: map<string, Json>): ObservationRow {
    var code := First(Or(Field(Or(Get(r, "code"), JObj(map[])), "coding"), JArr([JObj(map[])])));
    var valq := Or(Get(r, "valueQuantity"), JObj(map[]));
    ObservationRow(
      AsStr(Get(r, "id")),
      RefId(AsStr(Field(Or(Get(r, "subject"), JObj(map[])), "reference"))),
      RefId(AsStr(Field(Or(Get(r, "encounter"), JObj(map[])), "reference"))),
      AsStr(Field(code, "code")),
      AsStr(Field(code, "display")),
      AsNum(Field(valq, "value")),
      AsStr(Field(valq, "unit")),
      AsStr(Get(r, "effectiveDateTime")))
  }

  // ---------------------------------------------------------------------------------------
  // The collection loop of run()
  // ---------------------------------------------------------------------------------------

  datatype Collected = Collected(
    patients: seq<PatientRow>, encounters: seq<EncounterRow>, observations: seq<ObservationRow>)

  function Total(c: Collected): nat {
    |c.patients| + |c.encounters| + |c.observations|
  }

  /** One iteration's classification: a Patient, Encounter or Observation adds a row to its own
      list; any other resource type is ignored; a resource that is not an object fails on `.get`. */
  function Classify(c: Collected, r: Json): Result<Collected, string> {
    match r
    case JObj(m) =>
      var rt := Get(m, "resourceType");
      if rt == JStr("Patient") then Success(c.(patients := c.patients + [PatientRowOf(m)]))
      else if rt == JStr("Encounter") then Success(c.(encounters := c.encounters + [EncounterRowOf(m)]))
      else if rt == JStr("Observation") then Success(c.(observations := c.observations + [ObservationRowOf(m)]))
      else Success(c)
    case _ => Failure(NOT_A_DICT)
  }

  /** `if limit and total > limit: break`; None and 0 mean no limit. */
  predicate LimitReached(limit: Option<int>, c: Collected) {
    limit.Some? && limit.value != 0 && Total(c) > limit.value
  }

  /** The loop from state `c` over the remaining resources, then the generator's own error, if
      it stopped with one and the loop had not already broken out. */
  function CollectFrom(c: Collected, items: seq<Json>, failure: Option<string>, limit: Option<int>): Result<Collected, string>
    decreases |items|
  {
    if |items| == 0 then
      (match failure case Some(e) => Failure(e) case None => Success(c))
    else
      match Classify(c, items[0])
      case Failure(e) => Failure(e)
      case Success(c') => if LimitReached(limit, c') then Success(c') else CollectFrom(c', items[1..], failure, limit)
  }

  const NOTHING: Collected := Collected([], [], [])

  /** Lines 38-73 of `run`: walk the resources, append rows to the three lists, stop once the
      total exceeds a truthy limit. */
  method Collect(stream: Stream, limit: Option<int>) returns (r: Result<Collected, string>)
    ensures r == CollectFrom(NOTHING, stream.items, stream.failure, limit)
  {
    var patients: seq<PatientRow> := [];
    var encounters: seq<EncounterRow> := [];
    var observations: seq<ObservationRow> := [];
    var i := 0;
    while i < |stream.items|
      invariant 0 <= i <= |stream.items|
      invariant CollectFrom(NOTHING, stream.items, stream.failure, limit)
             == CollectFrom(Collected(patients, encounters, observations), stream.items[i..], stream.failure, limit)
    {
      var res := stream.items[i];
      if !res.JObj? {
        return Failure(NOT_A_DICT);
      }
      var rt := Get(res.fields, "resourceType");
      if rt == JStr("Patient") {
        patients := patients + [PatientRowOf(res.fields)];
      } else if rt == JStr("Encounter") {
        encounters := encounters + [EncounterRowOf(res.fields)];
      } else if rt == JStr("Observation") {
        observations := observations + [ObservationRowOf(res.fields)];
      }
      assert stream.items[i..][1..] == stream.items[i + 1..];
      i := i + 1;
      if limit.Some? && limit.value != 0 && |patients| + |encounters| + |observations| > limit.value {
        return Success(Collected(patients, encounters, observations));
      }
    }
    if stream.failure.Some? {
      return Failure(stream.failure.value);
    }
    r := Success(Collected(patients, encounters, observations));
  }

  /** A positive limit keeps at most limit + 1 rows: the loop stops at the first row past it. */
  lemma {:induction false} CollectBound(c: Collected, items: seq<Json>, failure: Option<string>, limit: int)
    requires limit > 0 && Total(c) <= limit
    ensures var r := CollectFrom(c, items, failure, Some(limit));
      r.Success? ==> Total(r.value) <= limit + 1
    decreases |items|
  {
    if |items| > 0 {
      match Classify(c, items[0])
      case Failure(_) =>
      case Success(c') =>
        assert Total(c') <= Total(c) + 1;
        if !LimitReached(Some(limit), c') {
          CollectBound(c', items[1..], failure, limit);
        }
    }
  }

  /** The rows each kind of resource contributes, in order, over a stretch of resources. */
  function PatientsIn(items: seq<Json>): seq<PatientRow>
    decreases |items|
  {
    if |items| == 0 then []
    else
      (if items[0].JObj? && Get(items[0].fields, "resourceType") == JStr("Patient")
       then [PatientRowOf(items[0].fields)] else []) + PatientsIn(items[1..])
  }

  function EncountersIn(items: seq<Json>): seq<EncounterRow>
    decreases |items|
  {
    if |items| == 0 then []
    else
      (if items[0].JObj? && Get(items[0].fields, "resourceType") == JStr("Encounter")
       then [EncounterRowOf(items[0].fields)] else []) + EncountersIn(items[1..])
  }

  function ObservationsIn(items: seq<Json>): seq<ObservationRow>
    decreases |items|
  {
    if |items| == 0 then []
    else
      (if items[0].JObj? && Get(items[0].fields, "resourceType") == JStr("Observation")
       then [ObservationRowOf(items[0].fields)] else []) + ObservationsIn(items[1..])
  }

  /** `c` extended by every row a stretch of resources contributes. */
  function Gathered(c: Collected, items: seq<Json>): Collected {
    Collected(c.patients + PatientsIn(items), c.encounters + EncountersIn(items), c.observations + ObservationsIn(items))
  }

  /** What the first resource of a stretch adds to each list. */
  lemma GatherUnfold(items: seq<Json>)
    requires |items| > 0 && items[0].JObj?
    ensures var rt := Get(items[0].fields, "resourceType");
      && PatientsIn(items) == (if rt == JStr("Patient") then [PatientRowOf(items[0].fields)] else []) + PatientsIn(items[1..])
      && EncountersIn(items) == (if rt == JStr("Encounter") then [EncounterRowOf(items[0].fields)] else []) + EncountersIn(items[1..])
      && ObservationsIn(items) == (if rt == JStr("Observation") then [ObservationRowOf(items[0].fields)] else []) + ObservationsIn(items[1..])
  {
  }

  /** Classifying the first resource and gathering the rest gathers the whole stretch. */
  lemma GatherStep(c: Collected, items: seq<Json>)
    requires |items| > 0 && items[0].JObj?
    ensures Classify(c, items[0]).Success?
    ensures Gathered(Classify(c, items[0]).value, items[1..]) == Gathered(c, items)
  {
    GatherUnfold(items);
    var rest := items[1..];
    var m := items[0].fields;
    var rt := Get(m, "resourceType");
    var p := if rt == JStr("Patient") then [PatientRowOf(m)] else [];
    var e := if rt == JStr("Encounter") then [EncounterRowOf(m)] else [];
    var o := if rt == JStr("Observation") then [ObservationRowOf(m)] else [];
    assert Classify(c, items[0]) == Success(Collected(c.patients + p, c.encounters + e, c.observations + o)) by {
      assert c.patients + [] == c.patients && c.encounters + [] == c.encounters
        && c.observations + [] == c.observations;
    }
    assert c.patients + p + PatientsIn(rest) == c.patients + (p + PatientsIn(rest));
    assert c.encounters + e + EncountersIn(rest) == c.encounters + (e + EncountersIn(rest));
    assert c.observations + o + ObservationsIn(rest) == c.observations + (o + ObservationsIn(rest));
  }


  /** Without a limit, a walk of objects collects every Patient, Encounter and Observation in
      walk order, each into its own list, ignores everything else, and then reports the
      generator's error if it had one. */
  lemma {:induction false} CollectWithoutLimit(c: Collected, items: seq<Json>, failure: Option<string>, limit: Option<int>)
    requires limit.None? || limit == Some(0)
    requires forall j :: 0 <= j < |items| ==> items[j].JObj?
    ensures failure.Some? ==> CollectFrom(c, items, failure, limit) == Failure(failure.value)
    ensures failure.None? ==> CollectFrom(c, items, failure, limit) == Success(Gathered(c, items))
    decreases |items|
  {
    if |items| == 0 {
      assert Gathered(c, items) == c;
    } else {
      GatherStep(c, items);
      var c' := Classify(c, items[0]).value;
      assert CollectFrom(c, items, failure, limit) == CollectFrom(c', items[1..], failure, limit);
      CollectWithoutLimit(c', items[1..], failure, limit);
    }
  }

  /** Gathering a prefix of length j + 1 is classifying the first resource, then gathering the
      next j. */
  lemma PrefixStep(c: Collected, items: seq<Json>, j: nat)
    requires j < |items| && items[0].JObj?
    ensures Classify(c, items[0]).Success?
    ensures Gathered(Classify(c, items[0]).value, items[1..][..j]) == Gathered(c, items[..j + 1])
  {
    GatherStep(c, items[..j + 1]);
    assert items[..j + 1][0] == items[0];
    assert items[..j + 1][1..] == items[1..][..j];
  }

  /** With a positive limit, a walk of objects is cut right after the first Patient, Encounter
      or Observation that takes the total past the limit: the result is every row of the walk up
      to and including that resource, in walk order, and a later generator error is never
      reached. */
  lemma {:induction false} CollectWithLimit(c: Collected, items: seq<Json>, failure: Option<string>, limit: int, k: nat)
    requires limit > 0 && Total(c) <= limit
    requires forall j :: 0 <= j < |items| ==> items[j].JObj?
    requires 0 < k <= |items| && Total(Gathered(c, items[..k])) > limit
    requires forall j :: 0 <= j < k ==> Total(Gathered(c, items[..j])) <= limit
    ensures CollectFrom(c, items, failure, Some(limit)) == Success(Gathered(c, items[..k]))
    decreases |items|
  {
    PrefixStep(c, items, 0);
    var c' := Classify(c, items[0]).value;
    assert c' == Gathered(c, items[..1]) by {
      assert Gathered(c', items[1..][..0]) == c';
    }
    if k == 1 {
      assert LimitReached(Some(limit), c');
    } else {
      assert Total(Gathered(c, items[..1])) <= limit;
      assert !LimitReached(Some(limit), c');
      assert CollectFrom(c, items, failure, Some(limit)) == CollectFrom(c', items[1..], failure, Some(limit));
      var rest := items[1..];
      assert forall j :: 0 <= j < |rest| ==> rest[j].JObj? by {
        forall j | 0 <= j < |rest| ensures rest[j].JObj? { assert rest[j] == items[j + 1]; }
      }
      forall j | 0 <= j < k - 1
        ensures Total(Gathered(c', rest[..j])) <= limit
      {
        PrefixStep(c, items, j);
      }
      PrefixStep(c, items, k - 1);
      assert Gathered(c', rest[..k - 1]) == Gathered(c, items[..k]);
      CollectWithLimit(c', rest, failure, limit, k - 1);
    }
  }

  /** With a positive limit that the walk's rows never exceed, the loop never breaks: the result
      is the same as with no limit, every row of the walk, or the generator's error. */
  lemma {:induction false} CollectUnderLimit(c: Collected, items: seq<Json>, failure: Option<string>, limit: int)
    requires limit > 0
    requires forall j :: 0 <= j < |items| ==> items[j].JObj?
    requires forall j :: 0 <= j <= |items| ==> Total(Gathered(c, items[..j])) <= limit
    ensures CollectFrom(c, items, failure, Some(limit)) == CollectFrom(c, items, failure, None)
    ensures failure.Some? ==> CollectFrom(c, items, failure, Some(limit)) == Failure(failure.value)
    ensures failure.None? ==> CollectFrom(c, items, failure, Some(limit)) == Success(Gathered(c, items))
    decreases |items|
  {
    CollectWithoutLimit(c, items, failure, None);
    if |items| > 0 {
      PrefixStep(c, items, 0);
      var c' := Classify(c, items[0]).value;
      assert c' == Gathered(c, items[..1]) by {
        assert Gathered(c', items[1..][..0]) == c';
      }
      assert Total(Gathered(c, items[..1])) <= limit;
      assert !LimitReached(Some(limit), c');
      var rest := items[1..];
      assert forall j :: 0 <= j < |rest| ==> rest[j].JObj? by {
        forall j | 0 <= j < |rest| ensures rest[j].JObj? { assert rest[j] == items[j + 1]; }
      }
      forall j | 0 <= j <= |rest|
        ensures Total(Gathered(c', rest[..j])) <= limit
      {
        PrefixStep(c, items, j);
      }
      CollectUnderLimit(c', rest, failure, limit);
    } else {
      assert items[..0] == items;
    }
  }

  // ---------------------------------------------------------------------------------------
  // Dropping rows without ids (lines 76-78)
  // ---------------------------------------------------------------------------------------

  function KeepPatients(ps: seq<PatientRow>): (r: seq<PatientRow>)
    ensures forall p :: p in r <==> p in ps && p.id.Some?
    decreases |ps|
  {
    if |ps| == 0 then [] else (if ps[0].id.Some? then [ps[0]] else []) + KeepPatients(ps[1..])
  }

  function KeepEncounters(es: seq<EncounterRow>): (r: seq<EncounterRow>)
    ensures forall e :: e in r <==> e in es && e.id.Some? && e.patientId.Some?
    decreases |es|
  {
    if |es| == 0 then []
    else (if es[0].id.Some? && es[0].patientId.Some? then [es[0]] else []) + KeepEncounters(es[1..])
  }

  function KeepObservations(os: seq<ObservationRow>): (r: seq<ObservationRow>)
    ensures forall o :: o in r <==> o in os && o.id.Some?
    decreases |os|
  {
    if |os| == 0 then [] else (if os[0].id.Some? then [os[0]] else []) + KeepObservations(os[1..])
  }

  /** `pd.DataFrame(rows).dropna(subset=...)` as written: on an empty list the frame has no
      columns at all, and naming a missing column in `subset` raises KeyError. */
  function DropMissingAsWritten(c: Collected): (r: Result<Collected, string>)
    ensures r.Success? <==> |c.patients| > 0 && |c.encounters| > 0 && |c.observations| > 0
  {
    if |c.patients| == 0 then Failure("KeyError: ['id']")
    else if |c.encounters| == 0 then Failure("KeyError: ['id', 'patient_id']")
    else if |c.observations| == 0 then Failure("KeyError: ['id']")
    else Success(DropMissing(c))
  }

  /** A small Synthea-like walk: a patient, one of its encounters, one observation. */
  const SAMPLE_WALK: seq<Json> := [
    JObj(map["resourceType" := JStr("Patient"), "id" := JStr("p1")]),
    JObj(map["resourceType" := JStr("Encounter"), "id" := JStr("e1")]),
    JObj(map["resourceType" := JStr("Observation"), "id" := JStr("o1")])]

  /** With `limit=1` the loop stops after the patient and the encounter, so no observation is
      collected and the as-written drop raises instead of loading what was collected; the
      corrected drop keeps both rows. A walk holding only a patient fails the same way. */
  lemma DropMissingAsWrittenFailsOnEmptyList()
    ensures var c := CollectFrom(NOTHING, SAMPLE_WALK, None, Some(1));
      && c.Success?
      && |c.value.patients| == 1 && |c.value.encounters| == 1 && |c.value.observations| == 0
      && DropMissingAsWritten(c.value).Failure?
      && |DropMissing(c.value).patients| == 1
    ensures var c := CollectFrom(NOTHING, SAMPLE_WALK[..1], None, None);
      && c.Success? && |c.value.patients| == 1
      && DropMissingAsWritten(c.value).Failure?
  {
    var c1 := Classify(NOTHING, SAMPLE_WALK[0]).value;
    assert |c1.patients| == 1 && Total(c1) == 1;
    var c2 := Classify(c1, SAMPLE_WALK[1]).value;
    assert |c2.patients| == 1 && |c2.encounters| == 1 && |c2.observations| == 0;
    assert LimitReached(Some(1), c2);
    assert SAMPLE_WALK[1..][1..] == SAMPLE_WALK[2..];
    assert CollectFrom(NOTHING, SAMPLE_WALK, None, Some(1)) == Success(c2);
    assert c2.patients[0].id == Some("p1");
    assert c2.patients[1..] == [];
    assert KeepPatients(c2.patients) == [c2.patients[0]];
  }

  /** The drop the code evidently intends: rows without an id are removed, encounters also when
      their patient reference is missing; an empty list stays empty. */
  function DropMissing(c: Collected): (r: Collected)
    ensures forall p :: p in r.patients <==> p in c.patients && p.id.Some?
    ensures forall e :: e in r.encounters <==> e in c.encounters && e.id.Some? && e.patientId.Some?
    ensures forall o :: o in r.observations <==> o in c.observations && o.id.Some?
    ensures Total(r) <= Total(c)
  {
    KeepPatientsShorter(c.patients);
    KeepEncountersShorter(c.encounters);
    KeepObservationsShorter(c.observations);
    Collected(KeepPatients(c.patients), KeepEncounters(c.encounters), KeepObservations(c.observations))
  }

  lemma {:induction false} KeepPatientsShorter(ps: seq<PatientRow>)
    ensures |KeepPatients(ps)| <= |ps|
    decreases |ps|
  {
    if |ps| > 0 { KeepPatientsShorter(ps[1..]); }
  }

  lemma {:induction false} KeepEncountersShorter(es: seq<EncounterRow>)
    ensures |KeepEncounters(es)| <= |es|
    decreases |es|
  {
    if |es| > 0 { KeepEncountersShorter(es[1..]); }
  }

  lemma {:induction false} KeepObservationsShorter(os: seq<ObservationRow>)
    ensures |KeepObservations(os)| <= |os|
    decreases |os|
  {
    if |os| > 0 { KeepObservationsShorter(os[1..]); }
  }

  /** Keeping rows goes row by row, in order: one row is kept exactly when it has an id, and a
      list split in two keeps the first part's rows, then the second's. */
  lemma {:induction false} KeepPatientsInOrder(a: seq<PatientRow>, b: seq<PatientRow>, p: PatientRow)
    ensures KeepPatients([p]) == if p.id.Some? then [p] else []
    ensures KeepPatients(a + b) == KeepPatients(a) + KeepPatients(b)
    decreases |a|
  {
    assert [p][1..] == [];
    if |a| == 0 {
      assert a + b == b;
    } else {
      assert (a + b)[0] == a[0] && (a + b)[1..] == a[1..] + b;
      KeepPatientsInOrder(a[1..], b, p);
      var head := if a[0].id.Some? then [a[0]] else [];
      assert KeepPatients(a + b) == head + KeepPatients(a[1..] + b);
      assert head + (KeepPatients(a[1..]) + KeepPatients(b)) == head + KeepPatients(a[1..]) + KeepPatients(b);
    }
  }

  /** An encounter row is kept exactly when it has both an id and a patient id; order is kept. */
  lemma {:induction false} KeepEncountersInOrder(a: seq<EncounterRow>, b: seq<EncounterRow>, e: EncounterRow)
    ensures KeepEncounters([e]) == if e.id.Some? && e.patientId.Some? then [e] else []
    ensures KeepEncounters(a + b) == KeepEncounters(a) + KeepEncounters(b)
    decreases |a|
  {
    assert [e][1..] == [];
    if |a| == 0 {
      assert a + b == b;
    } else {
      assert (a + b)[0] == a[0] && (a + b)[1..] == a[1..] + b;
      KeepEncountersInOrder(a[1..], b, e);
      var head := if a[0].id.Some? && a[0].patientId.Some? then [a[0]] else [];
      assert KeepEncounters(a + b) == head + KeepEncounters(a[1..] + b);
      assert head + (KeepEncounters(a[1..]) + KeepEncounters(b)) == head + KeepEncounters(a[1..]) + KeepEncounters(b);
    }
  }

  /** An observation row is kept exactly when it has an id; order is kept. */
  lemma {:induction false} KeepObservationsInOrder(a: seq<ObservationRow>, b: seq<ObservationRow>, o: ObservationRow)
    ensures KeepObservations([o]) == if o.id.Some? then [o] else []
    ensures KeepObservations(a + b) == KeepObservations(a) + KeepObservations(b)
    decreases |a|
  {
    assert [o][1..] == [];
    if |a| == 0 {
      assert a + b == b;
    } else {
      assert (a + b)[0] == a[0] && (a + b)[1..] == a[1..] + b;
      KeepObservationsInOrder(a[1..], b, o);
      var head := if a[0].id.Some? then [a[0]] else [];
      assert KeepObservations(a + b) == head + KeepObservations(a[1..] + b);
      assert head + (KeepObservations(a[1..]) + KeepObservations(b)) == head + KeepObservations(a[1..]) + KeepObservations(b);
    }
  }

  /** Two collections one after the other, list by list. */
  function Append(c: Collected, d: Collected): (r: Collected)
    ensures Total(r) == Total(c) + Total(d)
  {
    Collected(c.patients + d.patients, c.encounters + d.encounters, c.observations + d.observations)
  }

  /** The corrected drop works row by row: dropping from two collections one after the other is
      dropping from each, and a collection of one row of each kind keeps exactly the rows with
      the ids their frame requires. */
  lemma DropMissingInOrder(c: Collected, d: Collected, p: PatientRow, e: EncounterRow, o: ObservationRow)
    ensures DropMissing(Append(c, d)) == Append(DropMissing(c), DropMissing(d))
    ensures DropMissing(Collected([p], [e], [o])) == Collected(
      if p.id.Some? then [p] else [],
      if e.id.Some? && e.patientId.Some? then [e] else [],
      if o.id.Some? then [o] else [])
  {
    KeepPatientsInOrder(c.patients, d.patients, p);
    KeepEncountersInOrder(c.encounters, d.encounters, e);
    KeepObservationsInOrder(c.observations, d.observations, o);
  }

  /** `run` up to the database writes as written: walk, collect, then the drop that raises on a
      kind of resource the walk did not collect. */
  method RunAsWritten(docs: seq<Option<Json>>, limit: Option<int>) returns (r: Result<Collected, string>)
    ensures var collected := CollectFrom(NOTHING, IterResources(docs).items, IterResources(docs).failure, limit);
      && (r.Success? <==> collected.Success? && DropMissingAsWritten(collected.value).Success?)
      && (r.Success? ==> r.value == DropMissing(collected.value))
      && (collected.Failure? ==> r == Failure(collected.error))
      && (collected.Success? ==> r == DropMissingAsWritten(collected.value))
  {
    var stream := IterResources(docs);
    var collected := Collect(stream, limit);
    match collected
    case Failure(e) => r := Failure(e);
    case Success(c) => r := DropMissingAsWritten(c);
  }

  /** `run` up to the database writes with the corrected drop: walk, collect, drop rows without
      ids; it fails exactly when the walk or the collection does. */
  method Run(docs: seq<Option<Json>>, limit: Option<int>) returns (r: Result<Collected, string>)
    ensures var collected := CollectFrom(NOTHING, IterResources(docs).items, IterResources(docs).failure, limit);
      && (r.Success? <==> collected.Success?)
      && (r.Success? ==> r.value == DropMissing(collected.value))
      && (r.Failure? ==> r.error == collected.error)
  {
    var stream := IterResources(docs);
    var collected := Collect(stream, limit);
    match collected
    case Failure(e) => r := Failure(e);
    case Success(c) => r := Success(DropMissing(c));
  }

  // ---------------------------------------------------------------------------------------
  // Linking decisions of the Cypher (lines 91-119)
  // ---------------------------------------------------------------------------------------

  datatype Edge =
    | HadEncounter(patientId: string, encounterId: string)
    | EncounterHasObservation(encounterId: string, observationId: string)
    | PatientHasObservation(patientId: string, observationId: string)

  /** `MATCH (p:Patient {id: r.patient_id}) MERGE (p)-[:HAD_ENCOUNTER]->(e)`: the edge exists
      exactly when the patient node does. */
  function EncounterEdges(e: EncounterRow, patientIds: set<string>): (edges: set<Edge>)
    requires e.id.Some? && e.patientId.Some?
    ensures edges == {} || edges == {HadEncounter(e.patientId.value, e.id.value)}
    ensures edges != {} <==> e.patientId.value in patientIds
  {
    if e.patientId.value in patientIds then {HadEncounter(e.patientId.value, e.id.value)} else {}
  }

  /** The two FOREACH clauses of the observation query, each on its own: the first links the
      matched encounter, the second links the matched patient when no encounter matched. A
      missing reference matches no node. */
  function ObservationEdges(o: ObservationRow, encounterIds: set<string>, patientIds: set<string>): set<Edge>
    requires o.id.Some?
  {
    var encounterFound := o.encounterId.Some? && o.encounterId.value in encounterIds;
    var patientFound := o.patientId.Some? && o.patientId.value in patientIds;
    (if encounterFound then {EncounterHasObservation(o.encounterId.value, o.id.value)} else {})
    + (if !encounterFound && patientFound then {PatientHasObservation(o.patientId.value, o.id.value)} else {})
  }

  /** An observation is linked to its encounter when that exists, else to its patient when that
      exists, and never to both. */
  lemma ObservationLinkedAtMostOnce(o: ObservationRow, encounterIds: set<string>, patientIds: set<string>)
    requires o.id.Some?
    ensures var edges := ObservationEdges(o, encounterIds, patientIds);
      && |edges| <= 1
      && (o.encounterId.Some? && o.encounterId.value in encounterIds ==>
            edges == {EncounterHasObservation(o.encounterId.value, o.id.value)})
      && (!(o.encounterId.Some? && o.encounterId.value in encounterIds) && o.patientId.Some? && o.patientId.value in patientIds ==>
            edges == {PatientHasObservation(o.patientId.value, o.id.value)})
      && (!(o.encounterId.Some? && o.encounterId.value in encounterIds) && !(o.patientId.Some? && o.patientId.value in patientIds) ==>
            edges == {})
  {
  }
}
