/**
 * Properties of the store across the create handlers and the read handlers
 * that follow them: invariants kept, what a create stores, and what the
 * read handlers then answer about it.
 */
module Lifecycle {

  import opened Wrappers
  import opened JsonData
  import opened Dicts
  import opened RequestKeys
  import opened Validator
  import opened Records

  /**
   * The attach field of a data map can be walked without raising: the declarative
   * form of `Records.Walked` succeeding with every element in the `Records.ObjectRun`.
   */
  predicate AttachListWalkable(data: map<string, Json>) {
    AttachField !in data
    || match data[AttachField]
       case JArr(xs) => forall j :: 0 <= j < |xs| ==> xs[j].JObj?
       case JObj(o) => o == map[]
       case JStr(s) => s == []
       case _ => false
  }

  /** The plan fails exactly when the attach field cannot be walked. */
  lemma PlanFailsExactlyWhenUnwalkable(data: map<string, Json>, key: string, now: string, newId: nat -> string)
    ensures PlanAttachments(data, key, now, newId).Fails? <==> !AttachListWalkable(data)
    ensures PlanAttachments(data, key, now, newId).NoAttachField? <==> AttachField !in data
  {
  }

  /** A payload the full create stores. */
  ghost predicate Storable(payload: Json) {
    Truthy(payload) && ConformsToRbga(payload) && AttachListWalkable(payload.fields["data"].fields)
  }

  /** A payload the validator accepts reaches the accepting branch of both creates. */
  lemma AcceptedBranch(s: Store, payload: Json, now: string, newId: nat -> string)
    requires s.Valid() && Truthy(payload) && ConformsToRbga(payload)
    ensures Created(s, payload, now, newId) == Accepted(s, payload.fields, now, newId)
    ensures CreatedAsWritten(s, payload, now, newId) == AcceptedAsWritten(s, payload.fields, now, newId)
  {
  }

  /** A validated payload's fields, with an attach field that can be walked. */
  ghost predicate Acceptable(m: map<string, Json>) {
    HasTopLevelFields(JObj(m)) && m["data"].JObj? && AttachListWalkable(m["data"].fields)
  }

  /** The accepting branch keeps the store well formed and every attachment linked. */
  lemma AcceptedKeepsInvariants(s: Store, m: map<string, Json>, now: string, newId: nat -> string)
    requires s.Valid() && s.Linked() && HasTopLevelFields(JObj(m)) && m["data"].JObj?
    ensures Accepted(s, m, now, newId).store.Valid()
    ensures Accepted(s, m, now, newId).store.Linked()
  {
    var key := NextKey(s.requests.keys);
    var plan := PlanAttachments(m["data"].fields, key, now, newId);
    if plan.Planned? {
      var out := Accepted(s, m, now, newId).store;
      assert out.requests == s.requests.Put(key, SubmittedRecord(m, key, now, Some(Ids(plan.recs))));
      assert out.attachments == Insert(s.attachments, plan.recs);
      PlannedAttachmentsMatchElements(m["data"].fields, key, now, newId);
      InsertedLinked(s, plan.recs, key, out.requests);
    }
  }

  /** Inserting attachments that name `key` keeps every attachment linked once `key` is stored. */
  lemma InsertedLinked(s: Store, recs: seq<Attachment>, key: string, requests: Dict<string, Record>)
    requires s.Valid() && s.Linked()
    requires forall j :: 0 <= j < |recs| ==> recs[j].requestKey == key
    requires key in requests.entries && s.requests.entries.Keys <= requests.entries.Keys
    ensures Store(requests, Insert(s.attachments, recs)).Linked()
  {
    InsertedEntries(s.attachments, recs);
    assert forall a :: a in recs ==> a.requestKey == key;
  }

  /** The corrected create keeps the store well formed and every attachment linked. */
  lemma CreateKeepsInvariants(s: Store, payload: Json, now: string, newId: nat -> string)
    requires s.Valid() && s.Linked()
    ensures Created(s, payload, now, newId).store.Valid()
    ensures Created(s, payload, now, newId).store.Linked()
  {
    if Truthy(payload) && ConformsToRbga(payload) {
      AcceptedBranch(s, payload, now, newId);
      AcceptedKeepsInvariants(s, payload.fields, now, newId);
    }
  }

  /**
   * Which answer a full create gives: 400 for a falsy body, 400 with the
   * validator's reason, 201 exactly for a storable payload, which takes the
   * accepting branch; on every answer but 201 the store is unchanged.
   */
  lemma CreateAnswers(s: Store, payload: Json, now: string, newId: nat -> string)
    requires s.Valid()
    ensures var out := Created(s, payload, now, newId);
      && (!Truthy(payload) ==> out.response == BadRequest(BodyRequired))
      && (Truthy(payload) && ValidateRbga(payload).Invalid? ==>
            out.response == BadRequest(ValidateRbga(payload).reason))
      && (out.response.StatusCode() == 201 <==> Storable(payload))
      && (out.response.StatusCode() != 201 ==> out.store == s)
    ensures Storable(payload) ==>
      (payload.JObj? && Acceptable(payload.fields)
       && Created(s, payload, now, newId) == Accepted(s, payload.fields, now, newId))
  {
    if Truthy(payload) && ConformsToRbga(payload) {
      AcceptedBranch(s, payload, now, newId);
      PlanFailsExactlyWhenUnwalkable(payload.fields["data"].fields, NextKey(s.requests.keys), now, newId);
    }
  }

  /** The accepting branch stores one record under the next key and the planned attachments. */
  lemma AcceptedRequests(s: Store, m: map<string, Json>, now: string, newId: nat -> string)
    requires s.Valid() && Acceptable(m)
    ensures var key := NextKey(s.requests.keys);
      var plan := PlanAttachments(m["data"].fields, key, now, newId);
      var out := Accepted(s, m, now, newId);
      && !plan.Fails?
      && out.response == Response(201, CreatedBody(key))
      && out.store.requests == s.requests.Put(key, SubmittedRecord(m, key, now,
           if plan.Planned? then Some(Ids(plan.recs)) else None))
      && out.store.attachments == if plan.Planned? then Insert(s.attachments, plan.recs) else s.attachments
  {
    PlanFailsExactlyWhenUnwalkable(m["data"].fields, NextKey(s.requests.keys), now, newId);
  }

  /**
   * An accepted payload is stored under the next numbered key, which no
   * request had; the answer names that key, and the following key is
   * numbered one higher (RequestKeys.NextKeySuffix gives the key's number).
   */
  lemma AcceptedStoresUnderNextKey(s: Store, m: map<string, Json>, now: string, newId: nat -> string)
    requires s.Valid() && Acceptable(m)
    ensures var out := Accepted(s, m, now, newId);
      var key := NextKey(s.requests.keys);
      && key !in s.requests.entries
      && out.response == Response(201, CreatedBody(key))
      && out.store.requests.keys == s.requests.keys + [key]
      && MaxSuffix(out.store.requests.keys) == MaxSuffix(s.requests.keys) + 1
  {
    var key := NextKey(s.requests.keys);
    assert key !in s.requests.entries by {
      NextKeyIsFresh(s.requests.keys);
    }
    assert MaxSuffix(s.requests.keys + [key]) == MaxSuffix(s.requests.keys) + 1 by {
      NextKeyAdvances(s.requests.keys);
    }
    AcceptedRequests(s, m, now, newId);
  }

  /** The accepting branch adds one request and leaves every other request as it was. */
  lemma AcceptedKeepsOtherRequests(s: Store, m: map<string, Json>, now: string, newId: nat -> string)
    requires s.Valid() && Acceptable(m)
    ensures var out := Accepted(s, m, now, newId);
      && out.store.requests.entries.Keys == s.requests.entries.Keys + {NextKey(s.requests.keys)}
      && forall k :: k in s.requests.entries ==> out.store.requests.entries[k] == s.requests.entries[k]
  {
    AcceptedRequests(s, m, now, newId);
    NextKeyIsFresh(s.requests.keys);
  }

  /**
   * The record an accepted payload is stored as: the payload's fields, the
   * "Submitted" state, and attachment ids exactly when the data has an
   * attach field.
   */
  lemma AcceptedRecord(s: Store, m: map<string, Json>, now: string, newId: nat -> string)
    requires s.Valid() && Acceptable(m)
    ensures var out := Accepted(s, m, now, newId);
      var key := NextKey(s.requests.keys);
      && key in out.store.requests.entries
      && var rec := out.store.requests.entries[key];
      && rec.key == key && rec.status == "Submitted" && rec.workflowStage == "Initial Review"
      && rec.resolution == JNull && rec.approvals == [] && !rec.isDraft
      && rec.summary == m["summary"] && rec.pkey == m["pkey"] && rec.issuetype == m["issuetype"]
      && rec.applicant == m["applicant"] && rec.priority == m["priority"]
      && rec.sourceSystem == m["sourceSystem"] && rec.data == m["data"]
      && rec.createdAt == now && rec.updatedAt == now
      && (rec.attachmentIds.Some? <==> AttachField in m["data"].fields)
  {
    AcceptedRequests(s, m, now, newId);
  }

  /** The ids the accepting branch links to its record are those of the attachments it stores, in order. */
  lemma AcceptedLinksAttachmentIds(s: Store, m: map<string, Json>, now: string, newId: nat -> string)
    requires s.Valid() && HasTopLevelFields(JObj(m)) && m["data"].JObj?
    ensures var key := NextKey(s.requests.keys);
      var plan := PlanAttachments(m["data"].fields, key, now, newId);
      var out := Accepted(s, m, now, newId);
      plan.Planned? ==>
        && key in out.store.requests.entries
        && out.store.requests.entries[key].attachmentIds == Some(Ids(plan.recs))
        && out.store.attachments == Insert(s.attachments, plan.recs)
        && forall j :: 0 <= j < |plan.recs| ==> plan.recs[j].requestKey == key
  {
    var key := NextKey(s.requests.keys);
    if PlanAttachments(m["data"].fields, key, now, newId).Planned? {
      PlannedAttachmentsMatchElements(m["data"].fields, key, now, newId);
    }
  }

  /** Linked ids split over a concatenation of key lists. */
  lemma {:induction false} LinkedIdsAppend(a: seq<string>, b: seq<string>, e: map<string, Attachment>, key: string)
    requires forall i :: 0 <= i < |a| ==> a[i] in e
    requires forall i :: 0 <= i < |b| ==> b[i] in e
    ensures LinkedIds(a + b, e, key) == LinkedIds(a, e, key) + LinkedIds(b, e, key)
  {
    if b == [] {
      assert a + b == a;
    } else {
      var front := b[..|b| - 1];
      LinkedIdsAppend(a, front, e, key);
      assert (a + b)[..|a + b| - 1] == a + front;
      ConcatAssoc(LinkedIds(a, e, key), LinkedIds(front, e, key),
                  if e[b[|b| - 1]].requestKey == key then [b[|b| - 1]] else []);
    }
  }

  /** No key in the list links to `key`: none is listed. */
  lemma LinkedIdsNone(a: seq<string>, e: map<string, Attachment>, key: string)
    requires forall i :: 0 <= i < |a| ==> a[i] in e && e[a[i]].requestKey != key
    ensures LinkedIds(a, e, key) == []
  {
  }

  /** Every key in the list links to `key`: all are listed, in order. */
  lemma {:induction false} LinkedIdsAll(b: seq<string>, e: map<string, Attachment>, key: string)
    requires forall i :: 0 <= i < |b| ==> b[i] in e && e[b[i]].requestKey == key
    ensures LinkedIds(b, e, key) == b
  {
    if b != [] {
      var front := b[..|b| - 1];
      assert forall i :: 0 <= i < |front| ==> front[i] == b[i];
      LinkedIdsAll(front, e, key);
      assert front + [b[|b| - 1]] == b;
    }
  }

  /**
   * A body whose sendAll is a string lowering to "true" ("true", "TRUE", "True", ...)
   * answers every attachment linked to the request, in insertion order, whatever
   * attachmentName or attachmentId it also carries.
   */
  lemma SendAllListsLinked(key: string, requests: Dict<string, Record>, attachments: Dict<string, Attachment>,
                           p: map<string, Json>)
    requires attachments.Valid() && key in requests.entries
    requires "sendAll" in p && p["sendAll"].JStr? && LowersToTrue(p["sendAll"].s)
    ensures var ids := LinkedIds(attachments.keys, attachments.entries, key);
      AttachmentsView(key, requests, attachments, JObj(p))
      == Response(200, JObj(map["attachments" := JArr(AttachmentEntries(ids, attachments.entries)),
                                "count" := JInt(|ids|)]))
  {
  }

  /**
   * Attachments stored under fresh ids for a key no request has yet are,
   * once stored, exactly the attachments linked to that key, in order.
   */
  lemma FreshAttachmentsListedAlone(s: Store, recs: seq<Attachment>, key: string)
    requires s.Valid() && s.Linked() && key !in s.requests.entries
    requires FreshIds(s.attachments, recs) && forall j :: 0 <= j < |recs| ==> recs[j].requestKey == key
    ensures var d := Insert(s.attachments, recs);
      && LinkedIds(d.keys, d.entries, key) == Ids(recs)
      && forall j :: 0 <= j < |recs| ==> recs[j].id in d.entries && d.entries[recs[j].id] == recs[j]
  {
    var d := Insert(s.attachments, recs);
    InsertFreshKeys(s.attachments, recs);
    InsertKeepsOld(s.attachments, recs);
    InsertStoresNew(s.attachments, recs);
    OldAttachmentsUnlinked(s, d, key);
    NewAttachmentsLinked(recs, d, key);
    LinkedIdsAppend(s.attachments.keys, Ids(recs), d.entries, key);
  }

  /** Attachments already stored name stored requests, so none of them names a fresh key. */
  lemma OldAttachmentsUnlinked(s: Store, d: Dict<string, Attachment>, key: string)
    requires s.Valid() && s.Linked() && key !in s.requests.entries
    requires forall id :: id in s.attachments.entries ==> id in d.entries && d.entries[id] == s.attachments.entries[id]
    ensures forall i :: 0 <= i < |s.attachments.keys| ==> s.attachments.keys[i] in d.entries
    ensures LinkedIds(s.attachments.keys, d.entries, key) == []
  {
    var olds := s.attachments.keys;
    forall i | 0 <= i < |olds|
      ensures olds[i] in d.entries && d.entries[olds[i]].requestKey != key
    {
      assert olds[i] in s.attachments.entries;
    }
    LinkedIdsNone(olds, d.entries, key);
  }

  /** Attachments stored for `key` are all linked to it. */
  lemma NewAttachmentsLinked(recs: seq<Attachment>, d: Dict<string, Attachment>, key: string)
    requires forall j :: 0 <= j < |recs| ==> recs[j].requestKey == key
    requires forall j :: 0 <= j < |recs| ==> recs[j].id in d.entries && d.entries[recs[j].id] == recs[j]
    ensures forall i :: 0 <= i < |Ids(recs)| ==> Ids(recs)[i] in d.entries
    ensures LinkedIds(Ids(recs), d.entries, key) == Ids(recs)
  {
    LinkedIdsAll(Ids(recs), d.entries, key);
  }

  /**
   * Round trip: with fresh attachment ids, asking for all attachments of a
   * just-created request answers exactly the attachments the create stored,
   * in list order. (A storable payload takes this branch: CreateAnswers.)
   */
  lemma CreateThenAllAttachments(s: Store, m: map<string, Json>, now: string, newId: nat -> string,
                                 p: map<string, Json>)
    requires s.Valid() && s.Linked() && Acceptable(m)
    requires "sendAll" in p && p["sendAll"].JStr? && LowersToTrue(p["sendAll"].s)
    requires var plan := PlanAttachments(m["data"].fields, NextKey(s.requests.keys), now, newId);
      plan.Planned? && FreshIds(s.attachments, plan.recs)
    ensures var key := NextKey(s.requests.keys);
      var recs := PlanAttachments(m["data"].fields, key, now, newId).recs;
      var out := Accepted(s, m, now, newId).store;
      && out.attachments.Valid()
      && (forall j :: 0 <= j < |recs| ==> recs[j].id in out.attachments.entries)
      && AttachmentsView(key, out.requests, out.attachments, JObj(p))
         == Response(200, JObj(map["attachments" := JArr(AttachmentEntries(Ids(recs), out.attachments.entries)),
                                   "count" := JInt(|recs|)]))
      && forall j :: 0 <= j < |recs| ==>
           AttachmentEntries(Ids(recs), out.attachments.entries)[j] == AttachmentEntry(recs[j].id, recs[j])
  {
    var key := NextKey(s.requests.keys);
    var recs := PlanAttachments(m["data"].fields, key, now, newId).recs;
    var out := Accepted(s, m, now, newId).store;
    AcceptedRequests(s, m, now, newId);
    AcceptedKeepsOtherRequests(s, m, now, newId);
    NextKeyIsFresh(s.requests.keys);
    PlannedAttachmentsMatchElements(m["data"].fields, key, now, newId);
    FreshAttachmentsListedAlone(s, recs, key);
    SendAllListsLinked(key, out.requests, out.attachments, p);
  }

  /**
   * Round trip: the detail of a just-created request, asked for with no
   * body, carries the payload's summary and data and the "Submitted" state.
   */
  lemma CreateThenDetail(s: Store, m: map<string, Json>, now: string, newId: nat -> string)
    requires s.Valid() && Acceptable(m)
    ensures var key := NextKey(s.requests.keys);
      var out := Accepted(s, m, now, newId).store;
      && key in out.requests.entries
      && var r := DetailView(key, out.requests.entries[key], JNull);
      && r.Response? && r.code == 200
      && r.body == JObj(map["key" := JStr(key), "summary" := m["summary"],
                            "status" := JStr("Submitted"), "resolution" := JNull,
                            "created_at" := JStr(now), "updated_at" := JStr(now),
                            "data" := m["data"]])
  {
    AcceptedRecord(s, m, now, newId);
  }

  /** An unfiltered listing names every request, in insertion order. */
  lemma {:induction false} UnfilteredListingIsAll(keys: seq<string>, entries: map<string, Record>)
    requires forall i :: 0 <= i < |keys| ==> keys[i] in entries
    ensures Listed(keys, entries, "", "") == keys
  {
    if keys != [] {
      var front := keys[..|keys| - 1];
      assert forall i :: 0 <= i < |front| ==> front[i] == keys[i];
      UnfilteredListingIsAll(front, entries);
      assert front + [keys[|keys| - 1]] == keys;
    }
  }

  /** Putting a fresh key appends it to the unfiltered listing. */
  lemma ListingAfterPut(d: Dict<string, Record>, k: string, v: Record)
    requires d.Valid() && k !in d.entries
    ensures var e := d.Put(k, v);
      Listed(e.keys, e.entries, "", "") == Listed(d.keys, d.entries, "", "") + [k]
  {
    var e := d.Put(k, v);
    UnfilteredListingOfDict(d);
    UnfilteredListingOfDict(e);
  }

  /** Without filters a dict's listing is its key order. */
  lemma UnfilteredListingOfDict(d: Dict<string, Record>)
    requires d.Valid()
    ensures forall i :: 0 <= i < |d.keys| ==> d.keys[i] in d.entries
    ensures Listed(d.keys, d.entries, "", "") == d.keys
  {
    assert forall i :: 0 <= i < |d.keys| ==> d.keys[i] in d.entries;
    UnfilteredListingIsAll(d.keys, d.entries);
  }

  /** Round trip: after a create, the unfiltered listing gains the new key at its end. */
  lemma CreateThenListing(s: Store, m: map<string, Json>, now: string, newId: nat -> string)
    requires s.Valid() && Acceptable(m)
    ensures var out := Accepted(s, m, now, newId).store;
      && out.requests.Valid()
      && Listed(out.requests.keys, out.requests.entries, "", "")
      == Listed(s.requests.keys, s.requests.entries, "", "") + [NextKey(s.requests.keys)]
  {
    var key := NextKey(s.requests.keys);
    AcceptedRequests(s, m, now, newId);
    assert key !in s.requests.entries by {
      NextKeyIsFresh(s.requests.keys);
    }
    var plan := PlanAttachments(m["data"].fields, key, now, newId);
    ListingAfterPut(s.requests, key, SubmittedRecord(m, key, now, if plan.Planned? then Some(Ids(plan.recs)) else None));
  }

  /** The mock's status answer is the same fixed table for every stored request. */
  lemma StatusIsFixedTable(key: string)
    ensures var b := StatusBody(key).fields;
      && b["requestKey"] == JStr(key) && b["resolution"] == JStr("Approved")
      && b["status"].JArr? && |b["status"].items| == 5
      && b["status"].items[3] == JObj(map["i8nValue" := JStr("Closed"), "localeName" := JStr("en_UK")])
  {
  }

  // ---------------------------------------------------------------- drafts

  /**
   * A draft create: 400 for a falsy body or a failed check, 201 exactly for a
   * payload the relaxed check accepts; the store keeps its invariants and is
   * unchanged on every answer but 201.
   */
  lemma DraftAnswers(s: Store, payload: Json, token: string, now: string)
    requires s.Valid() && s.Linked()
    ensures var out := DraftCreated(s, payload, token, now);
      && (!Truthy(payload) ==> out.response == BadRequest(BodyRequired))
      && (Truthy(payload) && CheckDraft(payload).Invalid? ==>
            out.response == BadRequest(CheckDraft(payload).reason))
      && (out.response.StatusCode() == 201 <==> Truthy(payload) && DraftConforms(payload))
      && (out.response.StatusCode() != 201 ==> out.store == s)
      && out.store.Valid() && out.store.Linked()
  {
  }

  /** An accepted draft takes the storing branch. */
  lemma DraftAcceptedBranch(s: Store, payload: Json, token: string, now: string)
    requires s.Valid() && Truthy(payload) && DraftConforms(payload)
    ensures var key := DraftKey(token);
      DraftCreated(s, payload, token, now)
      == Outcome(Store(s.requests.Put(key, DraftRecord(payload.fields, key, now)), s.attachments),
                 Response(201, DraftCreatedBody(key, now)))
  {
  }

  /**
   * An accepted draft is stored under its draft key, leaves the attachments
   * and every other request as they were, and does not change the next
   * numbered key.
   */
  lemma DraftStoresUnderDraftKey(s: Store, payload: Json, token: string, now: string)
    requires s.Valid() && Truthy(payload) && DraftConforms(payload)
    ensures var out := DraftCreated(s, payload, token, now);
      var key := DraftKey(token);
      && out.response == Response(201, DraftCreatedBody(key, now))
      && out.store.attachments == s.attachments
      && out.store.requests.entries.Keys == s.requests.entries.Keys + {key}
      && (forall k :: k in s.requests.entries && k != key ==> out.store.requests.entries[k] == s.requests.entries[k])
      && NextKey(out.store.requests.keys) == NextKey(s.requests.keys)
  {
    var key := DraftKey(token);
    var after := s.requests.Put(key, DraftRecord(payload.fields, key, now));
    assert NextKey(after.keys) == NextKey(s.requests.keys) by {
      if key !in s.requests.entries {
        DraftKeepsNextKey(s.requests.keys, token);
      }
    }
    DraftAcceptedBranch(s, payload, token, now);
  }

  /** The record an accepted draft is stored as: the "Draft" state and the defaults for absent fields. */
  lemma DraftRecordDefaults(s: Store, payload: Json, token: string, now: string)
    requires s.Valid() && Truthy(payload) && DraftConforms(payload)
    ensures var out := DraftCreated(s, payload, token, now);
      var key := DraftKey(token);
      var m := payload.fields;
      && key in out.store.requests.entries
      && var rec := out.store.requests.entries[key];
      && rec.key == key && rec.status == "Draft" && rec.workflowStage == "Draft" && rec.isDraft
      && rec.pkey == JStr("RBGA") && rec.attachmentIds.None?
      && rec.summary == m["summary"] && rec.applicant == m["applicant"]
      && ("issuetype" !in m ==> rec.issuetype == JStr("rbga.issuetype.default"))
      && ("priority" !in m ==> rec.priority == JStr("default"))
      && ("sourceSystem" !in m ==> rec.sourceSystem == JStr("WorkON"))
      && ("data" !in m ==> rec.data == JObj(map[]))
      && ("data" in m ==> rec.data == m["data"])
  {
    DraftAcceptedBranch(s, payload, token, now);
  }

  // ---------------------------------------------------------------- the create as written

  /** Where the attach list cannot fail, the handler as written and the corrected one agree. */
  lemma AsWrittenAgreesWhenWalkable(s: Store, payload: Json, now: string, newId: nat -> string)
    requires s.Valid()
    requires Truthy(payload) && ConformsToRbga(payload) ==> AttachListWalkable(payload.fields["data"].fields)
    ensures CreatedAsWritten(s, payload, now, newId) == Created(s, payload, now, newId)
  {
    if Truthy(payload) && ConformsToRbga(payload) {
      AcceptedBranch(s, payload, now, newId);
      PlanFailsExactlyWhenUnwalkable(payload.fields["data"].fields, NextKey(s.requests.keys), now, newId);
    }
  }

  /**
   * What holds of the full create as written: the same 400 answers, each
   * leaving both stores unchanged; 201 exactly for a storable payload, with
   * the corrected create's effect; any other answer is a 500 that stores no
   * request, though it may leave attachments stored.
   */
  lemma AsWrittenAnswers(s: Store, payload: Json, now: string, newId: nat -> string)
    requires s.Valid()
    ensures var out := CreatedAsWritten(s, payload, now, newId);
      && (!Truthy(payload) ==> out.response == BadRequest(BodyRequired))
      && (Truthy(payload) && ValidateRbga(payload).Invalid? ==>
            out.response == BadRequest(ValidateRbga(payload).reason))
      && (out.response.StatusCode() == 400 ==> out.store == s)
      && (out.response.StatusCode() == 201 <==> Storable(payload))
      && (Storable(payload) ==> out == Created(s, payload, now, newId))
      && (out.response.StatusCode() != 201 ==>
            (out.response.StatusCode() == 400 || out.response == InternalError)
            && out.store.requests == s.requests)
  {
    CreateAnswers(s, payload, now, newId);
    var conforming := Truthy(payload) && ConformsToRbga(payload);
    if !conforming || AttachListWalkable(payload.fields["data"].fields) {
      AsWrittenAgreesWhenWalkable(s, payload, now, newId);
    } else {
      AcceptedBranch(s, payload, now, newId);
      PlanFailsExactlyWhenUnwalkable(payload.fields["data"].fields, NextKey(s.requests.keys), now, newId);
    }
  }

  /** An attach list whose first element is an object and whose second is not fails after one attachment. */
  lemma SecondElementFails(data: map<string, Json>, key: string, now: string, newId: nat -> string)
    requires AttachField in data && data[AttachField].JArr? && |data[AttachField].items| >= 2
    requires data[AttachField].items[0].JObj? && !data[AttachField].items[1].JObj?
    ensures PlanAttachments(data, key, now, newId)
      == Fails([AttachmentFor(data[AttachField].items[0].fields, 0, key, now, newId)])
  {
    var xs := data[AttachField].items;
    assert ObjectRun(xs) == 1;
    assert AttachmentsFor(xs, 0, key, now, newId) == [];
  }

  /**
   * The handler as written: an attach list whose first element is an object
   * and whose second is not answers 500, stores no request, and yet leaves
   * the first attachment stored, linked to a key no request has, which is
   * the key the next create will take. The corrected create stores nothing.
   */
  lemma AsWrittenOrphansAttachment(s: Store, payload: Json, now: string, newId: nat -> string)
    requires s.Valid() && Truthy(payload) && ConformsToRbga(payload)
    requires var data := payload.fields["data"].fields;
      && AttachField in data && data[AttachField].JArr?
      && |data[AttachField].items| >= 2
      && data[AttachField].items[0].JObj? && !data[AttachField].items[1].JObj?
    ensures var out := CreatedAsWritten(s, payload, now, newId);
      && out.response == InternalError
      && out.store.requests == s.requests
      && newId(0) in out.store.attachments.entries
      && out.store.attachments.entries[newId(0)].requestKey == NextKey(s.requests.keys)
      && NextKey(s.requests.keys) !in out.store.requests.entries
      && NextKey(out.store.requests.keys) == NextKey(s.requests.keys)
      && !out.store.Linked()
    ensures Created(s, payload, now, newId) == Outcome(s, InternalError)
  {
    var key := NextKey(s.requests.keys);
    var m := payload.fields;
    AcceptedBranch(s, payload, now, newId);
    SecondElementFails(m["data"].fields, key, now, newId);
    var first := AttachmentFor(m["data"].fields[AttachField].items[0].fields, 0, key, now, newId);
    assert Insert(s.attachments, [first]) == s.attachments.Put(newId(0), first) by {
      assert [first][..0] == [];
    }
    assert key !in s.requests.entries by {
      NextKeyIsFresh(s.requests.keys);
    }
  }
}
