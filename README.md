# WorkOn mock server: a verified model

This project models the mock of the WorkOn REST API in
`mock-server/mock_workon_server.py`. The mock keeps two in-memory
dictionaries:

- `requests_db` maps a request key to its record;
- `attachments_db` maps an attachment id to its attachment and is iterated in insertion order.

The modelled operations:

- **Key generation:** `generate_request_key` returns `RBGA-<n+1>`, where n is the highest number found after `RBGA-` among the stored keys.
- **Validation:** `validate_rbga_request` checks the RBGA payload schema and stops at the first failure it finds.
- **Creation:** `create_request` and `create_draft_request` are the two create handlers. They validate a payload, store a record, and (full create only) store one attachment per element of `rbga.field.attach`.
- **Reading:** the read-only handlers are `get_status`, `get_workitem_detail`, `get_workitem_attachments` and `list_requests`.

Layout:

- `json_data.dfy`: decoded JSON values and the Python operations the server applies to them (truthiness, `==` with booleans equal to 0 and 1, `in`, `dict.get`, the `.lower() == "true"` test).
- `decimal.dfy`: `str(n)` and `int(s)` for ASCII decimal text.
- `request_keys.dfy`: the key a full create takes, and why it is fresh.
- `validator.dfy`: the full and the draft payload checks. Each is a pure function returning `Valid`, `Invalid(reason)`, or `Raises`. `Raises` covers the cases where Python would raise before deciding.
- `dicts.dfy`: an insertion-ordered dictionary.
- `records.dfy`: records, attachments, responses, and the reference definition of every handler on a value-level `Store`.
- `lifecycle.dfy`: properties that relate several operations, for example create then list, create then fetch attachments, or draft then create.
- `mock_server.dfy`: class `Server`, whose two fields are the dictionaries.
  - Its create methods update them in place.
  - Its attachment, listing and detail handlers build their answers with loops; `GetStatus` is a function.
  - Every method is proved equal to its reference definition, e.g. `Outcome(State(), r) == Created(old(State()), ...)`.

Injected parameters:

- Every handler returns a status code with a JSON body, or a 500 (`InternalError`) where Python raises inside the handler.
- `uuid.uuid4()` becomes a caller-supplied `token` for drafts and `newId: nat -> string` for attachment ids, indexed by element position.
- `datetime.now().isoformat()` becomes a caller-supplied `now`.

## Model

| member | source | states |
|---|---|---|
| `JsonData.PyEqString` | mock-server/mock_workon_server.py:347-348 | on strings Python's `==` is plain equality, so an id or a string name matches exactly the same string |
| `JsonData.PyEqReflexiveSymmetric` | mock-server/mock_workon_server.py:347-348 | Python's `==` on decoded JSON is reflexive and symmetric |
| `JsonData.BoolsEqualTheirIntegers` | mock-server/mock_workon_server.py:347 | for every boolean b and integer i, b equals i iff i is 1 for true or 0 for false, in either order; no string equals a number or a boolean |
| `JsonData.PyEqIsNormEquality` | mock-server/mock_workon_server.py:347-348 | Python's `==` holds exactly when the two values are the same once every boolean, at any depth, is replaced by its integer (`JsonData.Norm`) |
| `JsonData.PyEqTransitive` | mock-server/mock_workon_server.py:347-348 | Python's `==` on decoded JSON is transitive |
| `JsonData.Norm` | mock-server/mock_workon_server.py:347 | no contract of its own: the reference for Python's `==`, each boolean replaced by its integer inside lists and objects. Its properties: `JsonData.PyEqIsNormEquality` |
| `Decimal.NatToString` | mock-server/mock_workon_server.py:59 | `str(n)`: a non-empty digit string, no leading zero, whose decimal value is n |
| `Decimal.ParseNat` | mock-server/mock_workon_server.py:54-58 | the model's `int(segment)`: it succeeds exactly on non-empty ASCII digit strings, and otherwise the exception is swallowed and the key skipped. Python's `int` also accepts surrounding whitespace, a sign and underscores (see `RequestKeys.Suffix` under Left out) |
| `Decimal.ParseNatToString` | mock-server/mock_workon_server.py:55-59 | parsing the printed number gives it back, so a generated key's suffix reads back as its number |
| `RequestKeys.Segment` | mock-server/mock_workon_server.py:55 | `split("-")` takes the first segment: a dash-free prefix, followed by a dash or the end of the text |
| `RequestKeys.MaxSuffixIsMaximum` | mock-server/mock_workon_server.py:51-58 | the running maximum bounds the number of every `RBGA-<number>` key, and is one of those numbers unless it is 0 |
| `RequestKeys.MaxSuffixAppend` | mock-server/mock_workon_server.py:52-56 | one more key raises the maximum to that key's number when it is larger, and otherwise leaves it unchanged |
| `RequestKeys.SuffixOfNumberedKey` | mock-server/mock_workon_server.py:53-59 | a key `RBGA-<n>` contributes exactly n to the scan |
| `RequestKeys.NextKeySuffix` | mock-server/mock_workon_server.py:51-59 | the generated key carries the number one above the maximum in use |
| `RequestKeys.NextKeyIsFresh` | mock-server/mock_workon_server.py:48-59 | key freshness: the generated key is never a stored key |
| `RequestKeys.NumberAboveCountIsFresh` | mock-server/mock_workon_server.py:51-59 | any key numbered above the maximum is absent from the store |
| `RequestKeys.NextKeyAdvances` | mock-server/mock_workon_server.py:48-59 | storing the generated key raises the maximum by exactly one |
| `RequestKeys.DraftKeyHasNoSuffix` | mock-server/mock_workon_server.py:135 | a key `RBGA-DRAFT-<token>` contributes nothing: its second segment `DRAFT` is not a number |
| `RequestKeys.DraftKeepsNextKey` | mock-server/mock_workon_server.py:53-58 | storing a draft changes neither the maximum nor the key the next full create takes |
| `RequestKeys.KeysAboveRaiseCount` | mock-server/mock_workon_server.py:48-59 | after n successive creates the maximum is n higher |
| `RequestKeys.NextKeyAfterRun` | mock-server/mock_workon_server.py:48-59 | after i successive creates the next key is the one numbered m + i + 1 |
| `RequestKeys.SuccessiveCreates` | mock-server/mock_workon_server.py:48-59 | the i-th of n successive creates takes key number m + i + 1 |
| `RequestKeys.SuccessiveKeysDistinctAndFresh` | mock-server/mock_workon_server.py:48-59 | repeated creates give pairwise distinct keys, none of them in use before the run |
| `Validator.RequireFields` | mock-server/mock_workon_server.py:65-67 | passes iff every listed field is present; otherwise fails with prefix plus the first absent field, every field before it being present; raises iff the first test raises |
| `Validator.FirstAbsentFieldNamed` | mock-server/mock_workon_server.py:65-67 | on an object, the first absent field is the one reported, whatever follows it |
| `Validator.ReportsFirstMissingField` | mock-server/mock_workon_server.py:64-67 | the full check names the first absent top-level field, in the order summary, pkey, issuetype, applicant, priority, sourceSystem, data |
| `Validator.ReportsConstantMismatch` | mock-server/mock_workon_server.py:70-77 | with the top level present, pkey, issuetype and priority are checked in that order, each failing with its own reason |
| `Validator.ValidateValues` | mock-server/mock_workon_server.py:69-80 | passes iff the three constants hold and the data conforms; it can raise only when data is not an object |
| `Validator.TopLevelPassesToData` | mock-server/mock_workon_server.py:69-80 | with the top level right, the full check is the check of `data` |
| `Validator.ReportsFirstMissingDataField` | mock-server/mock_workon_server.py:83-86 | the full check names the first absent of termCheck, description, workflowType, approver1 |
| `Validator.ValidateData` | mock-server/mock_workon_server.py:82-115 | passes iff data has the four fields, both enums hold and the approver block conforms; it can raise only on a non-object |
| `Validator.DataValueChecks` | mock-server/mock_workon_server.py:88-94 | termCheck outside {yes, no} fails first, then workflowType outside {Parallel, Serial}; otherwise the answer is the approver-block check |
| `Validator.ReportsDataValueMismatch` | mock-server/mock_workon_server.py:88-97 | the same enum order, seen from the whole payload |
| `Validator.ValidateApproverBlock` | mock-server/mock_workon_server.py:96-115 | never raises; passes iff approver1 is an object with a non-empty `approvers` list of objects, each having userid and description |
| `Validator.ApproverBlockChecks` | mock-server/mock_workon_server.py:97-103 | a missing object or key gives the 'approvers' array reason; a non-list or empty list gives the non-empty array reason |
| `Validator.ApproverFieldsChecked` | mock-server/mock_workon_server.py:110-113 | an object entry fails on userid first, then description |
| `Validator.CheckApprover` | mock-server/mock_workon_server.py:106-113 | entry i passes iff it is an object with both fields; otherwise the reason names index i and the fault |
| `Validator.CheckApprovers` | mock-server/mock_workon_server.py:105-113 | passes iff every entry is an approver; otherwise the reason is that of the lowest bad index |
| `Validator.ReportsFirstBadApprover` | mock-server/mock_workon_server.py:106-113 | the first bad entry j is the one reported, with its index |
| `Validator.ValidateRbga` | mock-server/mock_workon_server.py:61-115 | `(True, "")` iff the payload conforms to the whole schema; it raises only on a non-object payload or a non-object `data` |
| `Validator.CheckDraft` | mock-server/mock_workon_server.py:125-132 | the draft check passes iff summary, pkey and applicant are present and pkey is "RBGA"; it raises only on a non-object |
| `Validator.ReportsFirstMissingDraftField` | mock-server/mock_workon_server.py:126-129 | the draft check names the first absent of summary, pkey, applicant |
| `Validator.FullCheckImpliesDraftCheck` | mock-server/mock_workon_server.py:125-132 | every payload the full check admits, the draft check admits too |
| `Dicts.Dict.Put` | mock-server/mock_workon_server.py:222 | `d[k] = v`: maps k to v, keeps a present key in its place, appends a new key last, and keeps the dict well formed |
| `Dicts.Empty` | mock-server/mock_workon_server.py:17-18 | the initial dicts are empty and well formed |
| `Records.ObjectRun` | mock-server/mock_workon_server.py:209-213 | the attach loop gets through a leading run of object elements and stops at the first element that is not one |
| `Records.AttachmentsForElements` | mock-server/mock_workon_server.py:209-217 | the j-th attachment stored comes from element j: id newId(j), the filename defaulting to `attachment_j`, the file defaulting to "" |
| `Records.PlannedAttachmentsMatchElements` | mock-server/mock_workon_server.py:206-218 | an all-object attach list gives one attachment per element, in order, each linked to the new key |
| `Records.InsertedEntries` | mock-server/mock_workon_server.py:211-217 | after storing attachments, every entry is an old entry unchanged or one of the new ones |
| `Records.InsertFreshKeys` | mock-server/mock_workon_server.py:211 | with fresh ids, the attachments' ids are appended to the iteration order, in loop order |
| `Records.InsertKeepsOld` | mock-server/mock_workon_server.py:211-217 | with fresh ids, every old attachment is kept unchanged |
| `Records.InsertStoresNew` | mock-server/mock_workon_server.py:211-217 | with fresh ids, every new attachment is stored under its id |
| `Records.LocaleEntries` | mock-server/mock_workon_server.py:241-262 | the status list has one `{i8nValue, localeName}` object per table row, in table order |
| `Records.DetailShape` | mock-server/mock_workon_server.py:284-307 | every 200 detail answer has the base fields. approvalHistory is present iff the body asked "yes" and then holds the approvals. With no custom fields the answer has the full data and no customFields; otherwise it has customFields and no data |
| `Records.CustomFieldsRestrictData` | mock-server/mock_workon_server.py:298-307 | a non-empty list of names answers the data restricted to those names; absent names are dropped and `data` is omitted |
| `Records.LinkedIds` | mock-server/mock_workon_server.py:328-336 | every candidate id is a stored attachment of the request |
| `Records.LinkedIdsExact` | mock-server/mock_workon_server.py:329-330 | the candidates are exactly the stored attachments that name the request |
| `Records.AttachmentEntries` | mock-server/mock_workon_server.py:331-336 | one answer entry per candidate, with its id, filename, file and creation time |
| `Records.FirstSelected` | mock-server/mock_workon_server.py:345-350 | the attachment found is selected by a truthy name or id, equal under Python's `==`, and no earlier candidate is; None means no candidate is selected |
| `Records.BooleanNameSelectsNumericFilename` | mock-server/mock_workon_server.py:347 | a filename 1 is found by the name true, since `1 == True` in Python |
| `Records.Listed` | mock-server/mock_workon_server.py:473-477 | every listed request passes both filters |
| `Records.ListedExact` | mock-server/mock_workon_server.py:472-486 | the listed requests are exactly those that pass every non-empty filter |
| `Records.ListingEntries` | mock-server/mock_workon_server.py:479-486 | one summary per listed request: key, summary, status, applicant, created_at, workflow_stage |
| `Lifecycle.PlanFailsExactlyWhenUnwalkable` | mock-server/mock_workon_server.py:206-213 | the attach loop raises exactly when the attach value cannot be walked to its end |
| `Lifecycle.AcceptedBranch` | mock-server/mock_workon_server.py:179-185 | a truthy payload that the validator accepts reaches key generation |
| `Lifecycle.CreateAnswers` | mock-server/mock_workon_server.py:174-225 | corrected create: a falsy body gives 400 "Request body is required"; a validation failure gives 400 with its reason. The answer is 201 exactly for a storable payload, and any other answer leaves both stores unchanged |
| `Lifecycle.AcceptedRequests` | mock-server/mock_workon_server.py:184-225 | an accepted payload adds one record under the generated key, adds the planned attachments, and answers 201 with that key |
| `Lifecycle.AcceptedStoresUnderNextKey` | mock-server/mock_workon_server.py:184-222 | the new key is fresh, is appended to the key order, and raises the maximum by one |
| `Lifecycle.AcceptedKeepsOtherRequests` | mock-server/mock_workon_server.py:221-222 | exactly one request is added; every other request is unchanged |
| `Lifecycle.AcceptedRecord` | mock-server/mock_workon_server.py:188-203 | the stored record has status "Submitted", workflow_stage "Initial Review", resolution None, no approvals, and summary, pkey, issuetype, applicant, priority, sourceSystem and data copied from the payload. Both timestamps are `now`. It has attachment_ids iff data has an attach field |
| `Lifecycle.AcceptedLinksAttachmentIds` | mock-server/mock_workon_server.py:205-219 | attachment_ids lists the stored attachments' ids in element order, each attachment linked to the new key |
| `Lifecycle.AcceptedKeepsInvariants` | mock-server/mock_workon_server.py:184-222 | an accepted create keeps the store well formed and every attachment linked to a stored request |
| `Lifecycle.InsertedLinked` | mock-server/mock_workon_server.py:206-222 | attachments naming a key that ends up stored keep every attachment linked |
| `Lifecycle.CreateKeepsInvariants` | mock-server/mock_workon_server.py:171-228 | corrected create: any full create keeps the store well formed and linked |
| `Lifecycle.SendAllListsLinked` | mock-server/mock_workon_server.py:323-342 | for any body whose sendAll is a string that lowers to "true" ("true", "TRUE", "True", ...), whatever attachmentName or attachmentId it carries, the answer is every attachment linked to the request in insertion order, with count equal to their number, even when there are none |
| `Lifecycle.FreshAttachmentsListedAlone` | mock-server/mock_workon_server.py:328-336 | attachments stored under fresh ids for a fresh key are exactly that key's candidates, in order |
| `Lifecycle.CreateThenAllAttachments` | mock-server/mock_workon_server.py:205-219 | round trip: fetching all attachments of a just-created request, with any body whose sendAll lowers to "true", answers exactly the attachments the create stored, in element order |
| `Lifecycle.CreateThenDetail` | mock-server/mock_workon_server.py:284-307 | round trip: the detail of a just-created request, with an empty body, is its base fields with status "Submitted" and the payload's data |
| `Lifecycle.UnfilteredListingIsAll` | mock-server/mock_workon_server.py:472-486 | without filters every request is listed, in insertion order |
| `Lifecycle.ListingAfterPut` | mock-server/mock_workon_server.py:473-486 | storing a fresh key appends it to the unfiltered listing |
| `Lifecycle.CreateThenListing` | mock-server/mock_workon_server.py:222 | round trip: after a create, the unfiltered listing gains the new key at its end |
| `Lifecycle.StatusIsFixedTable` | mock-server/mock_workon_server.py:240-265 | the status answer has requestKey equal to the key and resolution "Approved". Its table has 5 locales, e.g. en_UK is "Closed" |
| `Lifecycle.DraftAnswers` | mock-server/mock_workon_server.py:120-166 | a falsy body or a failed check gives 400 with its reason. The answer is 201 exactly for a conforming payload; any other answer leaves the store unchanged; the store stays well formed and linked |
| `Lifecycle.DraftAcceptedBranch` | mock-server/mock_workon_server.py:134-166 | an accepted draft stores its record under `RBGA-DRAFT-<token>` and answers 201 with the success body |
| `Lifecycle.DraftStoresUnderDraftKey` | mock-server/mock_workon_server.py:134-157 | an accepted draft adds exactly the draft key and changes no attachment, no other request and not the next numbered key |
| `Lifecycle.DraftRecordDefaults` | mock-server/mock_workon_server.py:138-154 | the draft record has status and workflow_stage "Draft" and is_draft set. Absent issuetype, priority, sourceSystem and data default to `rbga.issuetype.default`, `default`, `WorkON` and `{}` |
| `Lifecycle.AsWrittenAnswers` | mock-server/mock_workon_server.py:174-228 | the create as written: a falsy body gives 400 "Request body is required" and a validation failure 400 with its reason, each leaving both stores unchanged. It answers 201 exactly for a storable payload, with the corrected create's effect. Any other answer is a 500 that stores no request, though attachments may stay (see Findings) |
| `Lifecycle.AsWrittenAgreesWhenWalkable` | mock-server/mock_workon_server.py:205-222 | where the attach loop cannot raise, the handler as written and the corrected one have the same effect |
| `Lifecycle.SecondElementFails` | mock-server/mock_workon_server.py:209-213 | an object followed by a non-object stores one attachment, then raises |
| `Lifecycle.AsWrittenOrphansAttachment` | mock-server/mock_workon_server.py:205-228 | as written, such a payload answers 500 and stores no request, yet leaves an attachment stored under the key the next create will take; the corrected create stores nothing |
| `MockServer.Requested` | mock-server/mock_workon_server.py:301 | iterating customFields yields a list's elements, a string's characters or an object's keys, and raises on anything else |
| `MockServer.AllObjects` | mock-server/mock_workon_server.py:209-213 | true iff the attach loop would reach the end of the list |
| `MockServer.FindSelected` | mock-server/mock_workon_server.py:345-350 | the search loop finds the first candidate selected by name or id |
| `MockServer.Server.constructor` | mock-server/mock_workon_server.py:17-18 | the server starts with no requests and no attachments |
| `MockServer.Server.GenerateRequestKey` | mock-server/mock_workon_server.py:48-59 | the scan loop returns `RBGA-<max+1>`, a key not in the store |
| `MockServer.Server.StoreAttachment` | mock-server/mock_workon_server.py:210-218 | one loop step stores the attachment for element i under newId(i) |
| `MockServer.Server.WalkAttachList` | mock-server/mock_workon_server.py:208-218 | the attach loop stores the attachments of the leading object run, in order, and returns their ids; it reports whether it reached the end |
| `MockServer.Server.StoreAttachField` | mock-server/mock_workon_server.py:205-219 | corrected: the attachments are stored only when the whole list can be walked; otherwise nothing is stored |
| `MockServer.Server.StoreAttachFieldAsWritten` | mock-server/mock_workon_server.py:205-219 | as written: the attachments reached before the loop raises stay stored |
| `MockServer.Server.Accept` | mock-server/mock_workon_server.py:184-225 | the accepting branch, corrected, has exactly the effect of `Records.Accepted` |
| `MockServer.Server.AcceptAsWritten` | mock-server/mock_workon_server.py:184-225 | the accepting branch, as written, has exactly the effect of `Records.AcceptedAsWritten` |
| `MockServer.Server.CreateRequest` | mock-server/mock_workon_server.py:171-228 | corrected create: the full create has exactly the effect of `Records.Created` and keeps every attachment linked |
| `MockServer.Server.CreateRequestAsWritten` | mock-server/mock_workon_server.py:171-228 | the full create as written has exactly the effect of `Records.CreatedAsWritten` |
| `MockServer.Server.CreateDraftRequest` | mock-server/mock_workon_server.py:117-169 | the draft create has exactly the effect of `Records.DraftCreated` and keeps every attachment linked |
| `MockServer.Server.GetStatus` | mock-server/mock_workon_server.py:230-270 | 200 iff the key is stored, then with the fixed table for that key; otherwise 404 naming the key |
| `MockServer.Server.GetWorkitemDetail` | mock-server/mock_workon_server.py:273-312 | 404 naming an unknown key; otherwise the detail answer of `Records.DetailView`, built field by field |
| `MockServer.Server.LinkedAttachments` | mock-server/mock_workon_server.py:327-336 | the candidate loop collects the request's attachments in insertion order |
| `MockServer.Server.Answer` | mock-server/mock_workon_server.py:338-357 | sendAll answers every candidate with its count; otherwise the first selected candidate, or 404 "Attachment not found" |
| `MockServer.Server.GetWorkitemAttachments` | mock-server/mock_workon_server.py:314-360 | 404 for an unknown key; otherwise the answer of `Records.AttachmentsView` |
| `MockServer.Server.ListRequests` | mock-server/mock_workon_server.py:463-494 | answers 200 with the summaries of exactly the passing requests, in insertion order, and their number as count |
| `JsonData.Truthy` | mock-server/mock_workon_server.py:122 | no contract of its own: Python truthiness, used by `if not payload` (lines 122, 176), `or {}` (280, 321), `if custom_fields` (299) and the `and` tests (347-348). Its effects are stated by `Lifecycle.CreateAnswers`, `Lifecycle.DraftAnswers` and `Records.DetailShape` |
| `JsonData.In` | mock-server/mock_workon_server.py:66 | no contract of its own: Python's `in`, used at lines 66, 85, 98, 112, 128 and 302. A list holds an item equal to it under `PyEq`. Where it raises is what the Raises clause of `Validator.RequireFields` and `Records.LookupFails` build on |
| `JsonData.PyEq` | mock-server/mock_workon_server.py:347-348 | no contract of its own: Python's `==`, with booleans equal to 0 and 1. Its properties: `JsonData.PyEqIsNormEquality`, `JsonData.PyEqString`, `JsonData.PyEqReflexiveSymmetric`, `JsonData.PyEqTransitive`, `JsonData.BoolsEqualTheirIntegers` |
| `JsonData.LowersToTrue` | mock-server/mock_workon_server.py:323 | no contract of its own: `sendAll.lower() == "true"`. It is used by `Lifecycle.SendAllListsLinked` |
| `RequestKeys.Suffix` | mock-server/mock_workon_server.py:53-58 | no contract of its own: the number a key contributes to the scan, or none. Its properties: `RequestKeys.SuffixOfNumberedKey`, `RequestKeys.DraftKeyHasNoSuffix` |
| `RequestKeys.MaxSuffix` | mock-server/mock_workon_server.py:51-58 | no contract of its own: the final `max_num`. Its properties: `RequestKeys.MaxSuffixIsMaximum`, `RequestKeys.MaxSuffixAppend` |
| `RequestKeys.NextKey` | mock-server/mock_workon_server.py:59 | no contract of its own: the returned key. Its properties: `RequestKeys.NextKeyIsFresh`, `RequestKeys.NextKeySuffix`, `RequestKeys.NextKeyAdvances`; `MockServer.Server.GenerateRequestKey` is proved equal to it |
| `RequestKeys.DraftKey` | mock-server/mock_workon_server.py:135 | no contract of its own: `RBGA-DRAFT-<token>`. Its properties: `RequestKeys.DraftKeyHasNoSuffix`, `RequestKeys.DraftKeepsNextKey` |
| `Validator.ConformsToRbga` | mock-server/mock_workon_server.py:61-115 | no contract of its own: the full schema stated declaratively, the partner of `Validator.ValidateRbga` |
| `Validator.DraftConforms` | mock-server/mock_workon_server.py:125-132 | no contract of its own: the draft schema stated declaratively, the partner of `Validator.CheckDraft` |
| `Records.SubmittedRecord` | mock-server/mock_workon_server.py:188-203 | no contract of its own: the record of a full create. Its properties: `Lifecycle.AcceptedRecord` |
| `Records.DraftRecord` | mock-server/mock_workon_server.py:138-154 | no contract of its own: the record of a draft create. Its properties: `Lifecycle.DraftRecordDefaults` |
| `Records.Walked` | mock-server/mock_workon_server.py:209 | no contract of its own: what `enumerate` yields from the attach value before `.get` can raise. Its properties: `Lifecycle.PlanFailsExactlyWhenUnwalkable` |
| `Records.PlanAttachments` | mock-server/mock_workon_server.py:205-219 | no contract of its own: which attachments the attach loop stores, and whether it raises. Its properties: `Records.PlannedAttachmentsMatchElements`, `Lifecycle.PlanFailsExactlyWhenUnwalkable`, `Lifecycle.SecondElementFails` |
| `Records.Created` | mock-server/mock_workon_server.py:171-228 | no contract of its own: the corrected full create. Its properties: `Lifecycle.CreateAnswers`, `Lifecycle.CreateKeepsInvariants`; `MockServer.Server.CreateRequest` is proved equal to it |
| `Records.Accepted` | mock-server/mock_workon_server.py:184-225 | no contract of its own: the corrected accepting branch. Its properties: `Lifecycle.AcceptedRequests`, `Lifecycle.AcceptedStoresUnderNextKey`, `Lifecycle.AcceptedKeepsOtherRequests`, `Lifecycle.AcceptedRecord`, `Lifecycle.AcceptedLinksAttachmentIds` |
| `Records.CreatedAsWritten` | mock-server/mock_workon_server.py:171-228 | no contract of its own: the full create as written. Its properties: `Lifecycle.AsWrittenAnswers`, `Lifecycle.AsWrittenAgreesWhenWalkable`, `Lifecycle.AsWrittenOrphansAttachment` |
| `Records.AcceptedAsWritten` | mock-server/mock_workon_server.py:205-222 | no contract of its own: the accepting branch as written, which keeps the attachments stored before a raise. Its properties: `Lifecycle.AsWrittenOrphansAttachment` |
| `Records.DraftCreated` | mock-server/mock_workon_server.py:117-169 | no contract of its own: the draft create. Its properties: `Lifecycle.DraftAnswers`, `Lifecycle.DraftStoresUnderDraftKey`, `Lifecycle.DraftRecordDefaults` |
| `Records.StatusBody` | mock-server/mock_workon_server.py:240-265 | no contract of its own: the status answer. Its properties: `Lifecycle.StatusIsFixedTable`, `Records.LocaleEntries` |
| `Records.RequestedFields` | mock-server/mock_workon_server.py:301 | no contract of its own: the names iterating customFields yields. `MockServer.Requested` is proved to yield them |
| `Records.LookupFails` | mock-server/mock_workon_server.py:302-303 | no contract of its own: where the model treats `field in data` followed by `data[field]` as raising. A lookup into list data is always treated as raising (see Left out) |
| `Records.Selected` | mock-server/mock_workon_server.py:300-303 | no contract of its own: the data restricted to the requested names. Its properties: `Records.CustomFieldsRestrictData` |
| `Records.DetailView` | mock-server/mock_workon_server.py:273-312 | no contract of its own: the detail answer. Its properties: `Records.DetailShape`, `Records.CustomFieldsRestrictData`, `Lifecycle.CreateThenDetail` |
| `Records.Selects` | mock-server/mock_workon_server.py:347-348 | no contract of its own: the selection test of the search loop. Its properties: `Records.FirstSelected`, `Records.BooleanNameSelectsNumericFilename` |
| `Records.AnswerAttachments` | mock-server/mock_workon_server.py:338-357 | no contract of its own: all candidates with their count, or the first selected one, or 404. `MockServer.Server.Answer` is proved equal to it |
| `Records.AttachmentsView` | mock-server/mock_workon_server.py:314-360 | no contract of its own: the attachment answer. Its properties: `Lifecycle.SendAllListsLinked`, `Lifecycle.CreateThenAllAttachments` |
| `Records.Passes` | mock-server/mock_workon_server.py:474-477 | no contract of its own: the two filters. Its properties: `Records.ListedExact` |
| `Records.ListingView` | mock-server/mock_workon_server.py:488-491 | no contract of its own: the listing answer. `MockServer.Server.ListRequests` is proved equal to it |
| `JsonData.Get` | mock-server/mock_workon_server.py:142 | no contract of its own: `d.get(key, default)` on a dictionary, used at lines 142-146, 213-214, 294, 298 and 322-325 |
| `JsonData.IsSubstring` | mock-server/mock_workon_server.py:302 | no contract of its own: Python's `in` on two strings, a substring test, reached when stored data is a string |
| `Validator.ApproverFault` | mock-server/mock_workon_server.py:106-113 | no contract of its own: the reason for a bad approver entry i, "must be an object" (line 108) or a missing field (line 113). Its properties: `Validator.CheckApprover`, `Validator.ReportsFirstBadApprover` |
| `Records.CreatedBody` | mock-server/mock_workon_server.py:225 | no contract of its own: the 201 body `{"key": key}` of a full create |
| `Records.DraftCreatedBody` | mock-server/mock_workon_server.py:160-166 | no contract of its own: the 201 body of a draft create. Its properties: `Lifecycle.DraftAcceptedBranch` |
| `Records.AttachmentFor` | mock-server/mock_workon_server.py:211-217 | no contract of its own: the attachment for element i, with id newId(i), filename defaulting to `attachment_i`, file defaulting to "", linked to the key. Its properties: `Records.AttachmentsForElements` |
| `Records.AttachmentsFor` | mock-server/mock_workon_server.py:209-218 | the attachments stored for the first n elements, one per element. Their contents are stated by `Records.AttachmentsForElements` |
| `Records.Insert` | mock-server/mock_workon_server.py:211 | the attachment dict after storing the attachments one after the other stays well formed. Its properties: `Records.InsertedEntries`, `Records.InsertFreshKeys`, `Records.InsertKeepsOld`, `Records.InsertStoresNew` |
| `Records.DetailBase` | mock-server/mock_workon_server.py:284-291 | no contract of its own: the base fields of every detail answer. Its properties: `Records.DetailShape` |
| `Lifecycle.AttachListWalkable` | mock-server/mock_workon_server.py:206-213 | no contract of its own: the attach value can be walked to its end, stated declaratively; the partner of `Records.PlanAttachments` via `Lifecycle.PlanFailsExactlyWhenUnwalkable` |

## Left out

- Flask plumbing is not modelled: routing, `jsonify`, the 404/405 handlers, `app.run` and the sample data seeded at start-up. `request.get_json()` is taken to have produced a decoded value. A malformed JSON body, on which Flask raises, is not modelled.
- The message of a 500 (`str(e)`) is not modelled. Every Python exception inside a handler becomes `InternalError`.
- `/health`, `/rbga/template` and the `RBGA_FIELDS` table are constant data with nothing to prove.
- `uuid.uuid4()` and `datetime.now()` are inputs:
  - a draft's key takes a caller-supplied `token`, so the upper-cased 8-character shape is not modelled;
  - attachment ids come from `newId(i)`;
  - every timestamp takes one `now`, although Python calls `datetime.now()` afresh for each.
  - Freshness of attachment ids is an assumption (`FreshIds`) where a lemma needs it, since uuid4 uniqueness cannot be proved.
- `RequestKeys.Suffix` parses only ASCII decimal digits. Python's `int()` also accepts surrounding whitespace, a sign, underscores and non-ASCII digits; keys with those shapes never arise from the server itself.
- JSON numbers are integers only. There are no floats, so `float` key segments and float payload values are not modelled.
- A JSON object is a map, so the order in which `customFields` iterates an object's keys is not fixed. The detail answer depends only on the set of names, and `MockServer.Requested` picks some order.
- `JsonData.LowersToTrue` handles case only for ASCII letters, which is all that can lower to "true".
- `list_requests` takes its query filters as strings, with "" standing for an absent or empty parameter, since both are falsy in Python.
- Concurrency is not modelled: key generation scans and then stores, unlocked; the model is single-threaded.
- MockServer.Server.GetWorkitemDetail: a lookup of a requested field into stored data that is not an object answers 500, although Python can index a list with an integer. Only a draft can store such data, since the full check requires an object. For example, a draft with `"data": [0]` asked for `{"customFields": [0]}` answers 200 `{"customFields": {"0": 0}}` in the source. The key Python then renders depends on the order of the requested names (`1` and `true` are one key), which the set-based `Records.DetailView` does not keep.
- Records.LookupFails: treats every lookup into list data as raising, where Python indexes a list with an in-range integer or boolean (the case of the line above).
- `Records.DetailView` and `Records.AttachmentsView` are ghost definitions. The detail and attachment handlers are proved equal to them, and their shape is stated by `Records.DetailShape`, `Lifecycle.SendAllListsLinked` and the other lemmas.

## Findings

| source | as written | input that shows it | evidently intended | confidence | as-written member | corrected member |
|---|---|---|---|---|---|---|
| mock-server/mock_workon_server.py:205-228 | attachments are written to `attachments_db` inside the attach loop; an element that is not an object raises on `.get`, the handler answers 500, and the attachments already written stay, linked to a key that no request has | a valid payload whose `rbga.field.attach` is `[{"filename": "a.pdf"}, 7]` | a create that fails stores nothing: the attach list is checked before anything is written, so every attachment names a stored request. As written, the orphan is adopted by the next successful create, which takes the same key | not executed | `Lifecycle.AsWrittenOrphansAttachment` | `MockServer.Server.CreateRequest` |
