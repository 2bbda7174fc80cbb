/**
 * The mock server: the request and attachment dicts it keeps in memory, and
 * the handlers that read and update them, each proved against the reference
 * definitions of Records.
 */
module MockServer {

  import opened Wrappers
  import opened JsonData
  import opened Dicts
  import opened RequestKeys
  import opened Validator
  import opened Records
  import Lifecycle

  /** The names that iterating a customFields value yields, in some order. */
  method Requested(cf: Json) returns (names: Option<seq<Json>>)
    ensures names.None? <==> RequestedFields(cf).None?
    ensures names.Some? ==> RequestedFields(cf) == Some(Elements(names.value))
  {
    match cf {
      case JArr(xs) =>
        names := Some(xs);
      case JStr(s) =>
        names := Some(Chars(s));
      case JObj(m) =>
        var rest := m.Keys;
        var keys: seq<Json> := [];
        while rest != {}
          invariant rest <= m.Keys
          invariant Elements(keys) == set k | k in m.Keys - rest :: JStr(k)
          decreases rest
        {
          var k :| k in rest;
          ElementsAppend(keys, JStr(k));
          keys := keys + [JStr(k)];
          rest := rest - {k};
        }
        assert m.Keys - rest == m.Keys;
        names := Some(keys);
      case _ =>
        names := None;
    }
  }

  /** Whether every element of an attach list is an object, so that the attach loop runs to its end. */
  method AllObjects(items: seq<Json>) returns (walkable: bool)
    ensures walkable <==> ObjectRun(items) == |items|
  {
    for i := 0 to |items|
      invariant forall j :: 0 <= j < i ==> items[j].JObj?
    {
      if !items[i].JObj? {
        return false;
      }
    }
    return true;
  }

  /** The first of the linked attachments a name or an id selects. */
  method FindSelected(ids: seq<string>, entries: map<string, Attachment>, name: Json, attachmentId: Json) returns (selected: Option<nat>)
    requires forall i :: 0 <= i < |ids| ==> ids[i] in entries
    ensures selected == FirstSelected(ids, entries, name, attachmentId, 0)
  {
    for j := 0 to |ids|
      invariant forall l :: 0 <= l < j ==> !Selects(ids[l], entries[ids[l]], name, attachmentId)
    {
      if Selects(ids[j], entries[ids[j]], name, attachmentId) {
        return Some(j);
      }
    }
    return None;
  }

  class Server {
    var requests: Dict<string, Record>
    var attachments: Dict<string, Attachment>

    ghost function State(): Store
      reads this
    {
      Store(requests, attachments)
    }

    ghost predicate Valid()
      reads this
    {
      State().Valid()
    }

    /** The server starts with no requests and no attachments. */
    constructor ()
      ensures Valid() && State().Linked()
      ensures requests == Empty() && attachments == Empty()
    {
      requests := Empty();
      attachments := Empty();
    }

    /** One past the highest number of any "RBGA-<number>" key. */
    method GenerateRequestKey() returns (key: string)
      requires Valid()
      ensures key == NextKey(requests.keys)
      ensures key !in requests.entries
    {
      var maxNum: nat := 0;
      var ks := requests.keys;
      for i := 0 to |ks|
        invariant maxNum == MaxSuffix(ks[..i])
      {
        assert ks[..i + 1][..i] == ks[..i];
        match Suffix(ks[i]) {
          case Some(n) => maxNum := if n > maxNum then n else maxNum;
          case None =>
        }
      }
      assert ks[..|ks|] == ks;
      key := Prefix + Decimal.NatToString(maxNum + 1);
      NextKeyIsFresh(ks);
    }

    /** Stores the attachment for element i of the attach list, the next one the loop reaches. */
    method StoreAttachment(items: seq<Json>, i: nat, key: string, now: string, newId: nat -> string,
                           ghost d0: Dict<string, Attachment>)
      returns (id: string)
      requires d0.Valid() && i < |items| && forall j :: 0 <= j <= i ==> items[j].JObj?
      requires attachments == Insert(d0, AttachmentsFor(items, i, key, now, newId))
      modifies this
      ensures requests == old(requests)
      ensures attachments == Insert(d0, AttachmentsFor(items, i + 1, key, now, newId))
      ensures id == newId(i)
    {
      var a := AttachmentFor(items[i].fields, i, key, now, newId);
      InsertStep(d0, items, i, key, now, newId);
      attachments := attachments.Put(a.id, a);
      id := a.id;
    }

    /**
     * The attach loop: stores one attachment per element, in order, and
     * stops at the first element that is not an object, keeping what it
     * stored; `complete` tells whether it reached the end.
     */
    method WalkAttachList(items: seq<Json>, key: string, now: string, newId: nat -> string)
      returns (complete: bool, ids: seq<string>)
      requires Valid()
      modifies this
      ensures Valid()
      ensures complete <==> ObjectRun(items) == |items|
      ensures var recs := AttachmentsFor(items, ObjectRun(items), key, now, newId);
        && requests == old(requests)
        && attachments == Insert(old(attachments), recs)
        && ids == Ids(recs)
    {
      ids := [];
      ghost var d0 := attachments;
      var i := 0;
      while i < |items| && items[i].JObj?
        invariant i <= |items|
        invariant requests == old(requests)
        invariant forall j :: 0 <= j < i ==> items[j].JObj?
        invariant attachments == Insert(d0, AttachmentsFor(items, i, key, now, newId))
        invariant ids == Ids(AttachmentsFor(items, i, key, now, newId))
      {
        var id := StoreAttachment(items, i, key, now, newId, d0);
        assert Ids(AttachmentsFor(items, i + 1, key, now, newId)) == ids + [id] by {
          InsertStep(d0, items, i, key, now, newId);
        }
        ids := ids + [id];
        i := i + 1;
      }
      assert ObjectRun(items) == i;
      complete := i == |items|;
    }

    /**
     * The attach field of a validated payload, corrected: the list is
     * checked first, and its attachments are stored only when every element
     * is an object. `ok` is false where the handler answers 500.
     */
    method StoreAttachField(data: map<string, Json>, key: string, now: string, newId: nat -> string)
      returns (ok: bool, ids: Option<seq<string>>)
      requires Valid()
      modifies this
      ensures Valid() && requests == old(requests)
      ensures match PlanAttachments(data, key, now, newId)
        case NoAttachField => ok && ids.None? && attachments == old(attachments)
        case Planned(recs) => ok && ids == Some(Ids(recs)) && attachments == Insert(old(attachments), recs)
        case Fails(_) => !ok && attachments == old(attachments)
    {
      if AttachField !in data {
        return true, None;
      }
      var items := Walked(data[AttachField]);
      if items.None? {
        return false, None;
      }
      var walkable := AllObjects(items.value);
      if !walkable {
        return false, None;
      }
      var complete, stored := WalkAttachList(items.value, key, now, newId);
      ids := Some(stored);
      ok := true;
    }

    /**
     * The attach field of a validated payload as the handler is written:
     * each attachment is stored as its element is reached, and those stored
     * before an element raises stay stored.
     */
    method StoreAttachFieldAsWritten(data: map<string, Json>, key: string, now: string, newId: nat -> string)
      returns (ok: bool, ids: Option<seq<string>>)
      requires Valid()
      modifies this
      ensures Valid() && requests == old(requests)
      ensures match PlanAttachments(data, key, now, newId)
        case NoAttachField => ok && ids.None? && attachments == old(attachments)
        case Planned(recs) => ok && ids == Some(Ids(recs)) && attachments == Insert(old(attachments), recs)
        case Fails(stored) => !ok && attachments == Insert(old(attachments), stored)
    {
      if AttachField !in data {
        return true, None;
      }
      var items := Walked(data[AttachField]);
      if items.None? {
        return false, None;
      }
      var complete, stored := WalkAttachList(items.value, key, now, newId);
      ids := Some(stored);
      ok := complete;
    }

    /** The corrected create of a validated payload. */
    method Accept(m: map<string, Json>, now: string, newId: nat -> string) returns (r: Response)
      requires Valid() && HasTopLevelFields(JObj(m)) && m["data"].JObj?
      modifies this
      ensures Valid()
      ensures Outcome(State(), r) == Accepted(old(State()), m, now, newId)
    {
      var key := GenerateRequestKey();
      var ok, ids := StoreAttachField(m["data"].fields, key, now, newId);
      if !ok {
        return InternalError;
      }
      requests := requests.Put(key, SubmittedRecord(m, key, now, ids));
      r := Response(201, CreatedBody(key));
    }

    /** The create as written of a validated payload. */
    method AcceptAsWritten(m: map<string, Json>, now: string, newId: nat -> string) returns (r: Response)
      requires Valid() && HasTopLevelFields(JObj(m)) && m["data"].JObj?
      modifies this
      ensures Valid()
      ensures Outcome(State(), r) == AcceptedAsWritten(old(State()), m, now, newId)
    {
      var key := GenerateRequestKey();
      var ok, ids := StoreAttachFieldAsWritten(m["data"].fields, key, now, newId);
      if !ok {
        return InternalError;
      }
      requests := requests.Put(key, SubmittedRecord(m, key, now, ids));
      r := Response(201, CreatedBody(key));
    }

    /** The full create, corrected: a create that fails stores nothing. */
    method CreateRequest(payload: Json, now: string, newId: nat -> string) returns (r: Response)
      requires Valid()
      modifies this
      ensures Valid()
      ensures Outcome(State(), r) == Created(old(State()), payload, now, newId)
      ensures old(State().Linked()) ==> State().Linked()
    {
      ghost var s0 := State();
      if s0.Linked() {
        Lifecycle.CreateKeepsInvariants(s0, payload, now, newId);
      }
      if !Truthy(payload) {
        return BadRequest(BodyRequired);
      }
      var verdict := ValidateRbga(payload);
      if verdict.Invalid? {
        return BadRequest(verdict.reason);
      }
      if verdict.Raises? {
        return InternalError;
      }
      Lifecycle.AcceptedBranch(s0, payload, now, newId);
      r := Accept(payload.fields, now, newId);
    }

    /**
     * The full create as the handler is written: attachments stored before
     * an element raises stay stored (see Lifecycle.AsWrittenOrphansAttachment).
     */
    method CreateRequestAsWritten(payload: Json, now: string, newId: nat -> string) returns (r: Response)
      requires Valid()
      modifies this
      ensures Valid()
      ensures Outcome(State(), r) == CreatedAsWritten(old(State()), payload, now, newId)
    {
      ghost var s0 := State();
      if !Truthy(payload) {
        return BadRequest(BodyRequired);
      }
      var verdict := ValidateRbga(payload);
      if verdict.Invalid? {
        return BadRequest(verdict.reason);
      }
      if verdict.Raises? {
        return InternalError;
      }
      Lifecycle.AcceptedBranch(s0, payload, now, newId);
      r := AcceptAsWritten(payload.fields, now, newId);
    }

    /** The draft create: the relaxed check, then the record under the draft key built from `token`. */
    method CreateDraftRequest(payload: Json, token: string, now: string) returns (r: Response)
      requires Valid()
      modifies this
      ensures Valid()
      ensures Outcome(State(), r) == DraftCreated(old(State()), payload, token, now)
      ensures old(State().Linked()) ==> State().Linked()
    {
      if !Truthy(payload) {
        return BadRequest(BodyRequired);
      }
      var verdict := CheckDraft(payload);
      if verdict.Invalid? {
        return BadRequest(verdict.reason);
      }
      if verdict.Raises? {
        return InternalError;
      }
      var key := DraftKey(token);
      requests := requests.Put(key, DraftRecord(payload.fields, key, now));
      r := Response(201, DraftCreatedBody(key, now));
    }

    /** The status of a request: 404 for an unknown key, else the fixed localized table. */
    function GetStatus(key: string): (r: Response)
      reads this
      ensures r.Response? && (r.code == 200 <==> key in requests.entries)
      ensures r.code != 200 ==> r == NotFound(key)
      ensures r.code == 200 ==> r.body == StatusBody(key)
    {
      if key !in requests.entries then NotFound(key) else Response(200, StatusBody(key))
    }

    /** The detail of a request, its approval history and custom fields as the body asks. */
    method GetWorkitemDetail(key: string, payload: Json) returns (r: Response)
      ensures key !in requests.entries ==> r == NotFound(key)
      ensures key in requests.entries ==> r == DetailView(key, requests.entries[key], payload)
    {
      if key !in requests.entries {
        return NotFound(key);
      }
      var p := if Truthy(payload) then payload else JObj(map[]);
      if !p.JObj? {
        return InternalError;
      }
      var rec := requests.entries[key];
      var body := DetailBase(key, rec);
      if Get(p.fields, "approvalHistory", JNull) == JStr("yes") {
        body := body["approvalHistory" := JArr(rec.approvals)];
      }
      var cf := Get(p.fields, "customFields", JArr([]));
      if !Truthy(cf) {
        return Response(200, JObj(body["data" := rec.data]));
      }
      var requested := Requested(cf);
      if requested.None? {
        return InternalError;
      }
      var names := requested.value;
      var picked: map<string, Json> := map[];
      for i := 0 to |names|
        invariant forall j :: 0 <= j < i ==> !LookupFails(names[j], rec.data)
        invariant picked == Selected(rec.data, Elements(names[..i]))
      {
        var f := names[i];
        assert f in Elements(names);
        var found := In(f, rec.data);
        if found.None? {
          assert LookupFails(f, rec.data);
          return InternalError;
        }
        if found.value {
          if !(rec.data.JObj? && f.JStr?) {
            assert LookupFails(f, rec.data);
            return InternalError;
          }
        }
        assert names[..i + 1] == names[..i] + [f];
        ElementsAppend(names[..i], f);
        SelectedStep(rec.data, Elements(names[..i]), f);
        if found.value {
          picked := picked[f.s := rec.data.fields[f.s]];
        }
      }
      assert names[..|names|] == names;
      return Response(200, JObj(body["customFields" := JObj(picked)]));
    }

    /** The ids and answer entries of the attachments linked to `key`, in insertion order. */
    method LinkedAttachments(key: string) returns (ids: seq<string>, found: seq<Json>)
      requires Valid()
      ensures ids == LinkedIds(attachments.keys, attachments.entries, key)
      ensures found == AttachmentEntries(ids, attachments.entries)
    {
      var ks := attachments.keys;
      var entries := attachments.entries;
      ids := [];
      found := [];
      for i := 0 to |ks|
        invariant ids == LinkedIds(ks[..i], entries, key)
        invariant found == AttachmentEntries(ids, entries)
      {
        LinkedStep(ks, i, entries, key);
        var a := entries[ks[i]];
        if a.requestKey == key {
          ids := ids + [ks[i]];
          found := found + [AttachmentEntry(ks[i], a)];
        }
      }
      assert ks[..|ks|] == ks;
    }

    /** The attachments of a request: all of them, or the first matching a name or an id. */
    method GetWorkitemAttachments(key: string, payload: Json) returns (r: Response)
      requires Valid()
      ensures r == AttachmentsView(key, requests, attachments, payload)
    {
      if key !in requests.entries {
        return NotFound(key);
      }
      var p := if Truthy(payload) then payload else JObj(map[]);
      if !p.JObj? {
        return InternalError;
      }
      var sendAllField := Get(p.fields, "sendAll", JStr("false"));
      if !sendAllField.JStr? {
        return InternalError;
      }
      var sendAll := LowersToTrue(sendAllField.s);
      var name := Get(p.fields, "attachmentName", JNull);
      var attachmentId := Get(p.fields, "attachmentId", JNull);
      var ids, found := LinkedAttachments(key);
      r := Answer(ids, found, sendAll, name, attachmentId);
    }

    /** The answer built from the linked attachments' ids and entries. */
    method Answer(ids: seq<string>, found: seq<Json>, sendAll: bool, name: Json, attachmentId: Json)
      returns (r: Response)
      requires forall i :: 0 <= i < |ids| ==> ids[i] in attachments.entries
      requires found == AttachmentEntries(ids, attachments.entries)
      ensures r == AnswerAttachments(ids, attachments.entries, sendAll, name, attachmentId)
    {
      if sendAll {
        return Response(200, JObj(map["attachments" := JArr(found), "count" := JInt(|found|)]));
      }
      var selected := FindSelected(ids, attachments.entries, name, attachmentId);
      if selected.Some? {
        return Response(200, JObj(map["attachment" := found[selected.value]]));
      }
      return Response(404, ErrorBody("Attachment not found"));
    }

    /** The requests passing the status and project-key filters ("" for no filter), in insertion order. */
    method ListRequests(status: string, pkey: string) returns (r: Response)
      requires Valid()
      ensures r == Response(200, ListingView(requests, status, pkey))
    {
      var ks := requests.keys;
      var listed: seq<string> := [];
      var entries: seq<Json> := [];
      for i := 0 to |ks|
        invariant listed == Listed(ks[..i], requests.entries, status, pkey)
        invariant entries == ListingEntries(listed, requests.entries)
      {
        ListingStep(ks, i, requests.entries, status, pkey);
        var rec := requests.entries[ks[i]];
        if (status == "" || rec.status == status) && (pkey == "" || rec.pkey == JStr(pkey)) {
          listed := listed + [ks[i]];
          entries := entries + [ListingEntry(ks[i], rec)];
        }
      }
      assert ks[..|ks|] == ks;
      r := Response(200, JObj(map["requests" := JArr(entries), "count" := JInt(|entries|)]));
    }
  }
}
