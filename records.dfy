/**
 * What the mock server stores and answers: request records, attachment
 * records, HTTP responses, and the reference definitions that the server's
 * handlers are proved against.
 */
module Records {

  import opened Wrappers
  import opened JsonData
  import opened Decimal
  import opened Dicts
  import opened Validator
  import opened RequestKeys

  /** One stored request. Fields taken from the payload keep their JSON values. */
  datatype Record = Record(
    key: string,
    summary: Json,
    pkey: Json,
    issuetype: Json,
    applicant: Json,
    priority: Json,
    sourceSystem: Json,
    data: Json,
    createdAt: string,
    updatedAt: string,
    status: string,
    resolution: Json,
    workflowStage: string,
    approvals: seq<Json>,
    attachmentIds: Option<seq<string>>,  // present only on full requests with an attach field
    isDraft: bool)                       // present (true) only on drafts

  /** One stored attachment, linked to the request it came with. */
  datatype Attachment = Attachment(id: string, filename: Json, file: Json, requestKey: string, createdAt: string)

  /**
   * An HTTP answer: a status code with a JSON body, or the 500 that a Python
   * exception inside a handler turns into (its message is not modelled).
   */
  datatype Response = Response(code: int, body: Json) | InternalError {
    function StatusCode(): int {
      if InternalError? then 500 else code
    }
  }

  const BodyRequired := "Request body is required"
  const AttachField := "rbga.field.attach"

  function BadRequest(reason: string): Response {
    Response(400, ErrorBody(reason))
  }

  function NotFound(key: string): Response {
    Response(404, ErrorBody("Request with key " + key + " not found"))
  }

  // ---------------------------------------------------------------- creation

  /** The record a full create stores: the payload's fields and the "Submitted" state. */
  function SubmittedRecord(m: map<string, Json>, key: string, now: string, ids: Option<seq<string>>): Record
    requires HasTopLevelFields(JObj(m))
  {
    Record(key, m["summary"], m["pkey"], m["issuetype"], m["applicant"], m["priority"],
           m["sourceSystem"], m["data"], now, now, "Submitted", JNull, "Initial Review", [], ids, false)
  }

  /** The record a draft create stores: absent optional fields take their defaults. */
  function DraftRecord(m: map<string, Json>, key: string, now: string): Record
    requires "summary" in m && "pkey" in m && "applicant" in m
  {
    Record(key, m["summary"], m["pkey"], Get(m, "issuetype", JStr("rbga.issuetype.default")),
           m["applicant"], Get(m, "priority", JStr("default")), Get(m, "sourceSystem", JStr("WorkON")),
           Get(m, "data", JObj(map[])), now, now, "Draft", JNull, "Draft", [], None, true)
  }

  function CreatedBody(key: string): Json {
    JObj(map["key" := JStr(key)])
  }

  function DraftCreatedBody(key: string, now: string): Json {
    JObj(map["success" := JBool(true), "message" := JStr("RBGA draft request created successfully"),
             "key" := JStr(key), "status" := JStr("Draft"), "created_at" := JStr(now)])
  }

  /** The attachment stored for element i of the attach list, an object `item`. */
  function AttachmentFor(item: map<string, Json>, i: nat, key: string, now: string, newId: nat -> string): Attachment {
    Attachment(newId(i), Get(item, "filename", JStr("attachment_" + NatToString(i))),
               Get(item, "file", JStr("")), key, now)
  }

  /** The length of the leading run of objects in xs. */
  function ObjectRun(xs: seq<Json>): (n: nat)
    ensures n <= |xs|
    ensures forall j :: 0 <= j < n ==> xs[j].JObj?
    ensures n < |xs| ==> !xs[n].JObj?
  {
    if xs == [] || !xs[0].JObj? then 0 else 1 + ObjectRun(xs[1..])
  }

  /** The attachments for the first n elements, in element order. */
  function AttachmentsFor(xs: seq<Json>, n: nat, key: string, now: string, newId: nat -> string): (r: seq<Attachment>)
    requires n <= |xs| && forall j :: 0 <= j < n ==> xs[j].JObj?
    ensures |r| == n
  {
    if n == 0 then []
    else AttachmentsFor(xs, n - 1, key, now, newId) + [AttachmentFor(xs[n - 1].fields, n - 1, key, now, newId)]
  }

  /** Element j of the plan is the attachment for element j of the list. */
  lemma {:induction false} AttachmentsForElements(xs: seq<Json>, n: nat, key: string, now: string, newId: nat -> string)
    requires n <= |xs| && forall j :: 0 <= j < n ==> xs[j].JObj?
    ensures forall j :: 0 <= j < n ==>
      AttachmentsFor(xs, n, key, now, newId)[j] == AttachmentFor(xs[j].fields, j, key, now, newId)
  {
    if n > 0 {
      AttachmentsForElements(xs, n - 1, key, now, newId);
    }
  }

  /**
   * What the attach field of a validated payload leads to: no attach field;
   * a list of attachments to store; or a Python exception after `stored`
   * were already put into the attachment dict (iterating a non-object
   * element, a non-empty object's keys or a non-empty string hits `.get` on
   * a value that has none; null, booleans and numbers are not iterable).
   */
  datatype AttachPlan = NoAttachField | Planned(recs: seq<Attachment>) | Fails(stored: seq<Attachment>)

  function PlanAttachments(data: map<string, Json>, key: string, now: string, newId: nat -> string): AttachPlan {
    if AttachField !in data then NoAttachField
    else match Walked(data[AttachField])
      case None => Fails([])
      case Some(xs) =>
        var n := ObjectRun(xs);
        if n == |xs| then Planned(AttachmentsFor(xs, n, key, now, newId))
        else Fails(AttachmentsFor(xs, n, key, now, newId))
  }

  /**
   * The elements the attach loop reaches before it can raise: a list's
   * elements, nothing for an empty object or string; None where the first
   * step raises (the first key of an object or character of a string has no
   * `.get`; null, booleans and numbers are not iterable).
   */
  function Walked(j: Json): Option<seq<Json>> {
    match j
    case JArr(xs) => Some(xs)
    case JObj(o) => if o == map[] then Some([]) else None
    case JStr(s) => if s == [] then Some([]) else None
    case _ => None
  }

  /** One attachment per element of an all-object attach list, linked to the new key. */
  lemma PlannedAttachmentsMatchElements(data: map<string, Json>, key: string, now: string, newId: nat -> string)
    requires PlanAttachments(data, key, now, newId).Planned?
    ensures var recs := PlanAttachments(data, key, now, newId).recs;
      && (data[AttachField].JArr? ==> |recs| == |data[AttachField].items|)
      && (!data[AttachField].JArr? ==> recs == [])
      && forall j :: 0 <= j < |recs| ==>
           && recs[j].requestKey == key
           && recs[j].id == newId(j)
           && recs[j].filename == Get(data[AttachField].items[j].fields, "filename", JStr("attachment_" + NatToString(j)))
  {
    var xs := Walked(data[AttachField]).value;
    AttachmentsForElements(xs, ObjectRun(xs), key, now, newId);
  }

  function Ids(recs: seq<Attachment>): (r: seq<string>)
    ensures |r| == |recs| && forall j :: 0 <= j < |recs| ==> r[j] == recs[j].id
  {
    if recs == [] then [] else Ids(recs[..|recs| - 1]) + [recs[|recs| - 1].id]
  }

  /** The attachment dict after storing recs one after the other. */
  function Insert(d: Dict<string, Attachment>, recs: seq<Attachment>): (r: Dict<string, Attachment>)
    requires d.Valid()
    ensures r.Valid()
  {
    if recs == [] then d
    else
      var last := recs[|recs| - 1];
      Insert(d, recs[..|recs| - 1]).Put(last.id, last)
  }

  /** Storing the attachment for element i extends the insert by one Put and the ids by one id. */
  lemma InsertStep(d: Dict<string, Attachment>, xs: seq<Json>, i: nat, key: string, now: string, newId: nat -> string)
    requires d.Valid() && i < |xs| && forall j :: 0 <= j <= i ==> xs[j].JObj?
    ensures var a := AttachmentFor(xs[i].fields, i, key, now, newId);
      && Insert(d, AttachmentsFor(xs, i + 1, key, now, newId)) == Insert(d, AttachmentsFor(xs, i, key, now, newId)).Put(a.id, a)
      && Ids(AttachmentsFor(xs, i + 1, key, now, newId)) == Ids(AttachmentsFor(xs, i, key, now, newId)) + [a.id]
  {
    var recs := AttachmentsFor(xs, i, key, now, newId);
    var a := AttachmentFor(xs[i].fields, i, key, now, newId);
    assert AttachmentsFor(xs, i + 1, key, now, newId) == recs + [a];
    assert (recs + [a])[..|recs|] == recs;
  }

  /** Every attachment after an insert is an old one or one of recs. */
  lemma {:induction false} InsertedEntries(d: Dict<string, Attachment>, recs: seq<Attachment>)
    requires d.Valid()
    ensures forall id :: id in Insert(d, recs).entries ==>
      (id in d.entries && Insert(d, recs).entries[id] == d.entries[id])
      || Insert(d, recs).entries[id] in recs
  {
    if recs != [] {
      var front := recs[..|recs| - 1];
      InsertedEntries(d, front);
      assert forall a :: a in front ==> a in recs;
    }
  }

  /** The ids of recs are a fresh, duplicate-free extension of d's keys. */
  ghost predicate FreshIds(d: Dict<string, Attachment>, recs: seq<Attachment>) {
    && (forall j :: 0 <= j < |recs| ==> recs[j].id !in d.entries)
    && (forall i, j :: 0 <= i < j < |recs| ==> recs[i].id != recs[j].id)
  }

  lemma FreshIdsFront(d: Dict<string, Attachment>, recs: seq<Attachment>)
    requires recs != [] && FreshIds(d, recs)
    ensures FreshIds(d, recs[..|recs| - 1])
    ensures recs[|recs| - 1].id !in d.entries
    ensures recs[|recs| - 1].id !in Ids(recs[..|recs| - 1])
  {
    var front := recs[..|recs| - 1];
    assert forall j :: 0 <= j < |front| ==> front[j] == recs[j];
  }

  /** With fresh, distinct ids, storing recs appends their ids to the key order. */
  lemma {:induction false} InsertFreshKeys(d: Dict<string, Attachment>, recs: seq<Attachment>)
    requires d.Valid() && FreshIds(d, recs)
    ensures Insert(d, recs).keys == d.keys + Ids(recs)
  {
    if recs == [] {
      assert d.keys + [] == d.keys;
    } else {
      var front := recs[..|recs| - 1];
      var last := recs[|recs| - 1];
      FreshIdsFront(d, recs);
      InsertFreshKeys(d, front);
      var before := Insert(d, front);
      assert last.id !in before.keys by {
        assert last.id !in d.keys;
      }
      assert last.id !in before.entries;
      ConcatAssoc(d.keys, Ids(front), [last.id]);
      assert Ids(recs) == Ids(front) + [last.id];
    }
  }

  /** With fresh ids, storing recs keeps every old attachment. */
  lemma {:induction false} InsertKeepsOld(d: Dict<string, Attachment>, recs: seq<Attachment>)
    requires d.Valid() && FreshIds(d, recs)
    ensures forall id :: id in d.entries ==>
      id in Insert(d, recs).entries && Insert(d, recs).entries[id] == d.entries[id]
  {
    if recs != [] {
      var front := recs[..|recs| - 1];
      var last := recs[|recs| - 1];
      FreshIdsFront(d, recs);
      InsertKeepsOld(d, front);
      var before := Insert(d, front);
      assert Insert(d, recs).entries == before.entries[last.id := last];
    }
  }

  /** With fresh, distinct ids, storing recs stores each of them under its id. */
  lemma {:induction false} InsertStoresNew(d: Dict<string, Attachment>, recs: seq<Attachment>)
    requires d.Valid() && FreshIds(d, recs)
    ensures forall j :: 0 <= j < |recs| ==>
      recs[j].id in Insert(d, recs).entries && Insert(d, recs).entries[recs[j].id] == recs[j]
  {
    if recs != [] {
      var front := recs[..|recs| - 1];
      var last := recs[|recs| - 1];
      FreshIdsFront(d, recs);
      InsertStoresNew(d, front);
      var before := Insert(d, front);
      var after := Insert(d, recs);
      assert after.entries == before.entries[last.id := last];
      forall j | 0 <= j < |front|
        ensures recs[j].id in after.entries && after.entries[recs[j].id] == recs[j]
      {
        assert recs[j] == front[j];
        assert recs[j].id != last.id;
      }
    }
  }



  /** The two dicts the server keeps: requests and attachments, each by key. */
  datatype Store = Store(requests: Dict<string, Record>, attachments: Dict<string, Attachment>) {
    ghost predicate Valid() {
      && requests.Valid()
      && attachments.Valid()
      && forall k :: k in requests.entries ==> requests.entries[k].key == k
    }

    /** Every stored attachment names a stored request. */
    ghost predicate Linked() {
      forall id :: id in attachments.entries ==> attachments.entries[id].requestKey in requests.entries
    }
  }

  /** The store after a handler, with its answer. */
  datatype Outcome = Outcome(store: Store, response: Response)

  /**
   * A full create, corrected: the attach list is checked before anything is
   * stored, so a create that fails stores nothing.
   */
  function Created(s: Store, payload: Json, now: string, newId: nat -> string): Outcome
    requires s.Valid()
  {
    if !Truthy(payload) then Outcome(s, BadRequest(BodyRequired))
    else match ValidateRbga(payload)
      case Invalid(why) => Outcome(s, BadRequest(why))
      case Raises => Outcome(s, InternalError)
      case Valid => Accepted(s, payload.fields, now, newId)
  }

  /** The corrected create of a payload `m` the validator accepted. */
  function Accepted(s: Store, m: map<string, Json>, now: string, newId: nat -> string): Outcome
    requires s.Valid() && HasTopLevelFields(JObj(m)) && m["data"].JObj?
  {
    var key := NextKey(s.requests.keys);
    match PlanAttachments(m["data"].fields, key, now, newId)
    case NoAttachField =>
      Outcome(Store(s.requests.Put(key, SubmittedRecord(m, key, now, None)), s.attachments),
              Response(201, CreatedBody(key)))
    case Planned(recs) =>
      Outcome(Store(s.requests.Put(key, SubmittedRecord(m, key, now, Some(Ids(recs)))), Insert(s.attachments, recs)),
              Response(201, CreatedBody(key)))
    case Fails(_) => Outcome(s, InternalError)
  }

  /**
   * A full create as the handler is written: attachments are stored while
   * the attach list is walked, and stay stored when a later element raises.
   */
  function CreatedAsWritten(s: Store, payload: Json, now: string, newId: nat -> string): Outcome
    requires s.Valid()
  {
    if !Truthy(payload) then Outcome(s, BadRequest(BodyRequired))
    else match ValidateRbga(payload)
      case Invalid(why) => Outcome(s, BadRequest(why))
      case Raises => Outcome(s, InternalError)
      case Valid => AcceptedAsWritten(s, payload.fields, now, newId)
  }

  /** The create as written of a payload `m` the validator accepted. */
  function AcceptedAsWritten(s: Store, m: map<string, Json>, now: string, newId: nat -> string): Outcome
    requires s.Valid() && HasTopLevelFields(JObj(m)) && m["data"].JObj?
  {
    match PlanAttachments(m["data"].fields, NextKey(s.requests.keys), now, newId)
    case Fails(stored) => Outcome(Store(s.requests, Insert(s.attachments, stored)), InternalError)
    case _ => Accepted(s, m, now, newId)
  }

  /** A draft create, stored under the draft key built from `token`. */
  function DraftCreated(s: Store, payload: Json, token: string, now: string): Outcome
    requires s.Valid()
  {
    if !Truthy(payload) then Outcome(s, BadRequest(BodyRequired))
    else match CheckDraft(payload)
      case Invalid(why) => Outcome(s, BadRequest(why))
      case Raises => Outcome(s, InternalError)
      case Valid =>
        var key := DraftKey(token);
        Outcome(Store(s.requests.Put(key, DraftRecord(payload.fields, key, now)), s.attachments),
                Response(201, DraftCreatedBody(key, now)))
  }

  // ---------------------------------------------------------------- status

  /** The fixed localized status table, one entry per locale. */
  const StatusTable: seq<(string, string)> := [
    ("Cerrado", "es_ES"),
    ("クローズ済み", "ja_JP"),
    ("종료", "ko_KR"),
    ("Closed", "en_UK"),
    ("Abgeschlossen", "de_DE")
  ]

  function LocaleEntries(table: seq<(string, string)>): (r: seq<Json>)
    ensures |r| == |table|
    ensures forall i :: 0 <= i < |table| ==>
      r[i] == JObj(map["i8nValue" := JStr(table[i].0), "localeName" := JStr(table[i].1)])
  {
    if table == [] then []
    else [JObj(map["i8nValue" := JStr(table[0].0), "localeName" := JStr(table[0].1)])]
         + LocaleEntries(table[1..])
  }

  function StatusBody(key: string): Json {
    JObj(map["status" := JArr(LocaleEntries(StatusTable)), "requestKey" := JStr(key),
             "resolution" := JStr("Approved")])
  }

  // ---------------------------------------------------------------- details

  /**
   * The names a truthy customFields value yields when iterated: a list's
   * elements, a string's characters, an object's keys; None where Python
   * cannot iterate (a number or boolean). Iteration order does not matter:
   * the answer depends only on this set.
   */
  ghost function RequestedFields(cf: Json): Option<set<Json>> {
    match cf
    case JArr(xs) => Some(Elements(xs))
    case JStr(s) => Some(Elements(Chars(s)))
    case JObj(m) => Some(set k | k in m :: JStr(k))
    case _ => None
  }

  ghost function Elements(xs: seq<Json>): set<Json> {
    set x | x in xs
  }

  lemma ElementsAppend(xs: seq<Json>, x: Json)
    ensures Elements(xs + [x]) == Elements(xs) + {x}
  {
  }

  /** A string's characters, each as a one-character string. */
  function Chars(s: string): (r: seq<Json>)
    ensures |r| == |s| && forall i :: 0 <= i < |s| ==> r[i] == JStr([s[i]])
  {
    if s == [] then [] else [JStr([s[0]])] + Chars(s[1..])
  }

  /**
   * Looking up `f` in the data raises: `f in data` itself raises, or it
   * holds but the data is not an object keyed by the string f.
   */
  ghost predicate LookupFails(f: Json, data: Json) {
    In(f, data).None? || (In(f, data) == Some(true) && !(data.JObj? && f.JStr?))
  }

  /** The data restricted to the requested names; absent names are dropped. */
  ghost function Selected(data: Json, names: set<Json>): map<string, Json> {
    if data.JObj? then map k | k in data.fields && JStr(k) in names :: data.fields[k]
    else map[]
  }

  /** Adding one name that does not fail adds its value exactly when the data holds it. */
  lemma SelectedStep(data: Json, names: set<Json>, f: Json)
    requires !LookupFails(f, data)
    ensures In(f, data) == Some(true) ==> data.JObj? && f.JStr? && f.s in data.fields
    ensures Selected(data, names + {f}) ==
      if In(f, data) == Some(true) then Selected(data, names)[f.s := data.fields[f.s]] else Selected(data, names)
  {
  }

  /** The fields every detail answer carries. */
  function DetailBase(key: string, rec: Record): map<string, Json> {
    map["key" := JStr(key), "summary" := rec.summary, "status" := JStr(rec.status),
        "resolution" := rec.resolution, "created_at" := JStr(rec.createdAt),
        "updated_at" := JStr(rec.updatedAt)]
  }

  /** The detail answer for a stored record (a missing or falsy body counts as `{}`). */
  ghost function DetailView(key: string, rec: Record, payload: Json): Response {
    var p := if Truthy(payload) then payload else JObj(map[]);
    if !p.JObj? then InternalError
    else
      var withHistory :=
        if Get(p.fields, "approvalHistory", JNull) == JStr("yes")
        then DetailBase(key, rec)["approvalHistory" := JArr(rec.approvals)]
        else DetailBase(key, rec);
      var cf := Get(p.fields, "customFields", JArr([]));
      if !Truthy(cf) then Response(200, JObj(withHistory["data" := rec.data]))
      else match RequestedFields(cf)
        case None => InternalError
        case Some(names) =>
          if exists f :: f in names && LookupFails(f, rec.data) then InternalError
          else Response(200, JObj(withHistory["customFields" := JObj(Selected(rec.data, names))]))
  }

  /**
   * The shape of every 200 detail answer: the base fields, approvalHistory
   * exactly when the body asked for it with "yes", and either the full data
   * (no custom fields requested) or customFields (some requested), never both.
   */
  lemma DetailShape(key: string, rec: Record, payload: Json)
    requires Truthy(payload) ==> payload.JObj?
    ensures var r := DetailView(key, rec, payload);
      var p := if Truthy(payload) then payload.fields else map[];
      var cf := Get(p, "customFields", JArr([]));
      && (r.Response? ==> r.code == 200 && r.body.JObj?)
      && (!Truthy(cf) ==> r.Response? && "data" in r.body.fields && r.body.fields["data"] == rec.data
                          && "customFields" !in r.body.fields)
      && (r.Response? && Truthy(cf) ==> "customFields" in r.body.fields && "data" !in r.body.fields)
      && (r.Response? ==> forall k :: k in DetailBase(key, rec) ==>
            k in r.body.fields && r.body.fields[k] == DetailBase(key, rec)[k])
      && (r.Response? ==> ("approvalHistory" in r.body.fields <==>
            Get(p, "approvalHistory", JNull) == JStr("yes")))
      && (r.Response? && "approvalHistory" in r.body.fields ==>
            r.body.fields["approvalHistory"] == JArr(rec.approvals))
  {
  }

  /**
   * Requesting a list of field names from an object-valued data map yields
   * that map restricted to the names present in it.
   */
  lemma CustomFieldsRestrictData(key: string, rec: Record, payload: Json, names: seq<string>)
    requires payload.JObj? && rec.data.JObj? && names != []
    requires Get(payload.fields, "customFields", JArr([])) == JArr(seq(|names|, i requires 0 <= i < |names| => JStr(names[i])))
    ensures var r := DetailView(key, rec, payload);
      && r.Response? && r.code == 200
      && r.body.fields["customFields"] == JObj(map k | k in rec.data.fields && k in names :: rec.data.fields[k])
      && "data" !in r.body.fields
  {
    var xs := seq(|names|, i requires 0 <= i < |names| => JStr(names[i]));
    assert xs[0] in xs;
    var set_ := Elements(xs);
    assert forall f :: f in set_ ==> !LookupFails(f, rec.data);
    assert forall k :: JStr(k) in set_ <==> k in names by {
      forall k ensures JStr(k) in set_ <==> k in names {
        if k in names {
          var i :| 0 <= i < |names| && names[i] == k;
          assert xs[i] == JStr(k);
        }
      }
    }
  }

  // ---------------------------------------------------------------- attachments

  /** The ids of the attachments linked to `key`, in insertion order. */
  function LinkedIds(ids: seq<string>, entries: map<string, Attachment>, key: string): (r: seq<string>)
    requires forall i :: 0 <= i < |ids| ==> ids[i] in entries
    ensures forall i :: 0 <= i < |r| ==> r[i] in entries && entries[r[i]].requestKey == key
  {
    if ids == [] then []
    else
      var last := ids[|ids| - 1];
      var front := LinkedIds(ids[..|ids| - 1], entries, key);
      assert forall i :: 0 <= i < |ids| - 1 ==> ids[i] == ids[..|ids| - 1][i];
      front + (if entries[last].requestKey == key then [last] else [])
  }

  /** The linked ids are exactly the ids whose attachment names `key`. */
  lemma {:induction false} LinkedIdsExact(ids: seq<string>, entries: map<string, Attachment>, key: string)
    requires forall i :: 0 <= i < |ids| ==> ids[i] in entries
    ensures forall x :: x in LinkedIds(ids, entries, key) <==> x in ids && entries[x].requestKey == key
  {
    if ids != [] {
      var front := ids[..|ids| - 1];
      assert forall i :: 0 <= i < |front| ==> front[i] == ids[i];
      LinkedIdsExact(front, entries, key);
      assert ids == front + [ids[|ids| - 1]];
    }
  }

  /** Scanning one more id: it is linked, with its entry, exactly when its attachment names `key`. */
  lemma LinkedStep(ids: seq<string>, i: nat, entries: map<string, Attachment>, key: string)
    requires i < |ids| && forall j :: 0 <= j < |ids| ==> ids[j] in entries
    ensures var before := LinkedIds(ids[..i], entries, key);
      && LinkedIds(ids[..i + 1], entries, key)
         == before + (if entries[ids[i]].requestKey == key then [ids[i]] else [])
      && AttachmentEntries(before + [ids[i]], entries)
         == AttachmentEntries(before, entries) + [AttachmentEntry(ids[i], entries[ids[i]])]
  {
    assert ids[..i + 1][..i] == ids[..i];
    var before := LinkedIds(ids[..i], entries, key);
    assert (before + [ids[i]])[..|before|] == before;
  }

  /** The JSON the handler sends for one attachment. */
  function AttachmentEntry(id: string, a: Attachment): Json {
    JObj(map["id" := JStr(id), "filename" := a.filename, "file" := a.file, "created_at" := JStr(a.createdAt)])
  }

  function AttachmentEntries(ids: seq<string>, entries: map<string, Attachment>): (r: seq<Json>)
    requires forall i :: 0 <= i < |ids| ==> ids[i] in entries
    ensures |r| == |ids|
    ensures forall i :: 0 <= i < |ids| ==> r[i] == AttachmentEntry(ids[i], entries[ids[i]])
  {
    if ids == [] then []
    else AttachmentEntries(ids[..|ids| - 1], entries) + [AttachmentEntry(ids[|ids| - 1], entries[ids[|ids| - 1]])]
  }

  /**
   * An attachment is selected by a truthy name equal to its filename or a
   * truthy id equal to its id, equal as Python compares (a filename 1 is
   * selected by the name true).
   */
  predicate Selects(id: string, a: Attachment, name: Json, attachmentId: Json) {
    (Truthy(name) && PyEq(a.filename, name)) || (Truthy(attachmentId) && PyEq(JStr(id), attachmentId))
  }

  /** The first selected position at or after `from`. */
  function FirstSelected(ids: seq<string>, entries: map<string, Attachment>, name: Json, attachmentId: Json, from: nat): (r: Option<nat>)
    requires from <= |ids| && forall i :: 0 <= i < |ids| ==> ids[i] in entries
    ensures r.Some? ==> from <= r.value < |ids| && Selects(ids[r.value], entries[ids[r.value]], name, attachmentId)
    ensures forall i :: from <= i < |ids| && (r.None? || i < r.value) ==>
      !Selects(ids[i], entries[ids[i]], name, attachmentId)
    decreases |ids| - from
  {
    if from == |ids| then None
    else if Selects(ids[from], entries[ids[from]], name, attachmentId) then Some(from)
    else FirstSelected(ids, entries, name, attachmentId, from + 1)
  }

  /** A numeric filename 1 is found by the name true, since Python's `1 == True` holds. */
  lemma BooleanNameSelectsNumericFilename(id: string, a: Attachment)
    requires a.filename == JInt(1)
    ensures AnswerAttachments([id], map[id := a], false, JBool(true), JNull)
            == Response(200, JObj(map["attachment" := AttachmentEntry(id, a)]))
  {
    assert Selects(id, a, JBool(true), JNull);
  }

  /** The answer about the linked attachments `ids`: all of them, or the first one selected. */
  function AnswerAttachments(ids: seq<string>, entries: map<string, Attachment>, sendAll: bool,
                             name: Json, attachmentId: Json): Response
    requires forall i :: 0 <= i < |ids| ==> ids[i] in entries
  {
    if sendAll then
      Response(200, JObj(map["attachments" := JArr(AttachmentEntries(ids, entries)), "count" := JInt(|ids|)]))
    else match FirstSelected(ids, entries, name, attachmentId, 0)
      case None => Response(404, ErrorBody("Attachment not found"))
      case Some(j) => Response(200, JObj(map["attachment" := AttachmentEntry(ids[j], entries[ids[j]])]))
  }

  /** The attachment answer for a request key. */
  ghost function AttachmentsView(key: string, requests: Dict<string, Record>,
                                 attachments: Dict<string, Attachment>, payload: Json): Response
    requires attachments.Valid()
  {
    if key !in requests.entries then NotFound(key)
    else
      var p := if Truthy(payload) then payload else JObj(map[]);
      if !p.JObj? then InternalError
      else
        var sendAll := Get(p.fields, "sendAll", JStr("false"));
        if !sendAll.JStr? then InternalError  // `.lower()` on a non-string
        else
          AnswerAttachments(LinkedIds(attachments.keys, attachments.entries, key), attachments.entries,
                            LowersToTrue(sendAll.s), Get(p.fields, "attachmentName", JNull),
                            Get(p.fields, "attachmentId", JNull))
  }

  // ---------------------------------------------------------------- listing

  /** A record passes the filters; an empty filter is no filter. */
  predicate Passes(rec: Record, status: string, pkey: string) {
    (status == "" || rec.status == status) && (pkey == "" || rec.pkey == JStr(pkey))
  }

  /** The keys of the records passing the filters, in insertion order. */
  function Listed(keys: seq<string>, entries: map<string, Record>, status: string, pkey: string): (r: seq<string>)
    requires forall i :: 0 <= i < |keys| ==> keys[i] in entries
    ensures forall i :: 0 <= i < |r| ==> r[i] in entries && Passes(entries[r[i]], status, pkey)
  {
    if keys == [] then []
    else
      var last := keys[|keys| - 1];
      var front := Listed(keys[..|keys| - 1], entries, status, pkey);
      assert forall i :: 0 <= i < |keys| - 1 ==> keys[i] == keys[..|keys| - 1][i];
      front + (if Passes(entries[last], status, pkey) then [last] else [])
  }

  /** The listed keys are exactly the keys whose record passes the filters. */
  lemma {:induction false} ListedExact(keys: seq<string>, entries: map<string, Record>, status: string, pkey: string)
    requires forall i :: 0 <= i < |keys| ==> keys[i] in entries
    ensures forall k :: k in Listed(keys, entries, status, pkey) <==> k in keys && Passes(entries[k], status, pkey)
  {
    if keys != [] {
      var front := keys[..|keys| - 1];
      assert forall i :: 0 <= i < |front| ==> front[i] == keys[i];
      ListedExact(front, entries, status, pkey);
      assert keys == front + [keys[|keys| - 1]];
    }
  }

  /** The summary the listing gives of one record. */
  function ListingEntry(key: string, rec: Record): Json {
    JObj(map["key" := JStr(key), "summary" := rec.summary, "status" := JStr(rec.status),
             "applicant" := rec.applicant, "created_at" := JStr(rec.createdAt),
             "workflow_stage" := JStr(rec.workflowStage)])
  }

  function ListingEntries(keys: seq<string>, entries: map<string, Record>): (r: seq<Json>)
    requires forall i :: 0 <= i < |keys| ==> keys[i] in entries
    ensures |r| == |keys|
    ensures forall i :: 0 <= i < |keys| ==> r[i] == ListingEntry(keys[i], entries[keys[i]])
  {
    if keys == [] then []
    else ListingEntries(keys[..|keys| - 1], entries) + [ListingEntry(keys[|keys| - 1], entries[keys[|keys| - 1]])]
  }

  /** Listing one more key: it is listed, with its entry, exactly when its record passes. */
  lemma ListingStep(keys: seq<string>, i: nat, entries: map<string, Record>, status: string, pkey: string)
    requires i < |keys| && forall j :: 0 <= j < |keys| ==> keys[j] in entries
    ensures var before := Listed(keys[..i], entries, status, pkey);
      && Listed(keys[..i + 1], entries, status, pkey)
         == before + (if Passes(entries[keys[i]], status, pkey) then [keys[i]] else [])
      && ListingEntries(before + [keys[i]], entries)
         == ListingEntries(before, entries) + [ListingEntry(keys[i], entries[keys[i]])]
  {
    assert keys[..i + 1][..i] == keys[..i];
    var before := Listed(keys[..i], entries, status, pkey);
    assert (before + [keys[i]])[..|before|] == before;
  }

  /** The listing answer: the passing requests' summaries and their number. */
  function ListingView(requests: Dict<string, Record>, status: string, pkey: string): Json
    requires requests.Valid()
  {
    var keys := Listed(requests.keys, requests.entries, status, pkey);
    JObj(map["requests" := JArr(ListingEntries(keys, requests.entries)), "count" := JInt(|keys|)])
  }
}
