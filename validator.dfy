/**
 * Payload validation for the two create operations: the full RBGA schema
 * check that admits a submitted request, and the relaxed check for drafts.
 * Both stop at the first failure and name it.
 */
module Validator {

  import opened Wrappers
  import opened JsonData
  import opened Decimal

  /**
   * The outcome of a check: it passes, it fails with a reason, or Python
   * raises before it can decide (a membership test on a number, `.get` on a
   * list or string), which the handler reports as a 500.
   */
  datatype Verdict = Valid | Invalid(reason: string) | Raises

  const TopLevelFields: seq<string> :=
    ["summary", "pkey", "issuetype", "applicant", "priority", "sourceSystem", "data"]
  const DataFields: seq<string> :=
    ["rbga.field.termCheck", "rbga.field.description", "rbga.field.workflowType", "rbga.field.approver1"]
  const ApproverFields: seq<string> := ["userid", "description"]
  const DraftFields: seq<string> := ["summary", "pkey", "applicant"]

  const MissingField := "Missing required field: "
  const MissingDataField := "Missing required RBGA field: "

  /** Every named field present in `container`, under Python's `in`. */
  ghost predicate HasAll(container: Json, fields: seq<string>) {
    forall i :: 0 <= i < |fields| ==> In(JStr(fields[i]), container) == Some(true)
  }

  /**
   * Checks the fields in order; the first absent one fails with
   * `prefix + name`.
   */
  function RequireFields(container: Json, fields: seq<string>, prefix: string): (r: Verdict)
    ensures r == Valid <==> HasAll(container, fields)
    ensures r == Raises <==> fields != [] && In(JStr(fields[0]), container).None?
    ensures r.Invalid? ==>
      exists i :: 0 <= i < |fields| && In(JStr(fields[i]), container) == Some(false)
        && (forall j :: 0 <= j < i ==> In(JStr(fields[j]), container) == Some(true))
        && r.reason == prefix + fields[i]
    decreases |fields|
  {
    if fields == [] then Valid
    else match In(JStr(fields[0]), container)
      case None => Raises
      case Some(false) => Invalid(prefix + fields[0])
      case Some(true) =>
        var rest := RequireFields(container, fields[1..], prefix);
        assert forall i :: 1 <= i < |fields| ==> fields[i] == fields[1..][i - 1];
        rest
  }

  /** An approver entry: an object carrying a user id and a description. */
  ghost predicate IsApprover(j: Json) {
    j.JObj? && "userid" in j.fields && "description" in j.fields
  }

  function ApproverPrefix(i: nat): string {
    "Approver " + NatToString(i)
  }

  const MissingApproverField := " missing required field: "

  /** The per-entry field check on an object entry, worked out for the two fields. */
  lemma ApproverFieldsChecked(x: Json, prefix: string)
    requires x.JObj?
    ensures RequireFields(x, ApproverFields, prefix) ==
      if "userid" !in x.fields then Invalid(prefix + "userid")
      else if "description" !in x.fields then Invalid(prefix + "description")
      else Valid
  {
    assert ApproverFields[1..] == ["description"];
    assert ApproverFields[1..][1..] == [];
  }

  /** The reason reported for a bad approver entry at index i. */
  ghost function ApproverFault(i: nat, x: Json): string {
    if !x.JObj? then ApproverPrefix(i) + " must be an object"
    else if "userid" !in x.fields then ApproverPrefix(i) + MissingApproverField + "userid"
    else ApproverPrefix(i) + MissingApproverField + "description"
  }

  /** Checks the approver entry at index i. */
  function CheckApprover(i: nat, x: Json): (r: Verdict)
    ensures r == Valid <==> IsApprover(x)
    ensures r != Valid ==> r == Invalid(ApproverFault(i, x))
  {
    if !x.JObj? then Invalid(ApproverPrefix(i) + " must be an object")
    else
      var prefix := ApproverPrefix(i) + MissingApproverField;
      ApproverFieldsChecked(x, prefix);
      RequireFields(x, ApproverFields, prefix)
  }

  /** Checks approvers[from..], naming the index of the first bad entry. */
  function CheckApprovers(approvers: seq<Json>, from: nat): (r: Verdict)
    requires from <= |approvers|
    ensures !r.Raises?
    ensures r == Valid <==> forall j :: from <= j < |approvers| ==> IsApprover(approvers[j])
    ensures r.Invalid? ==>
      exists j :: from <= j < |approvers| && !IsApprover(approvers[j])
        && (forall k :: from <= k < j ==> IsApprover(approvers[k]))
        && r.reason == ApproverFault(j, approvers[j])
    decreases |approvers| - from
  {
    if from == |approvers| then Valid
    else
      var r := CheckApprover(from, approvers[from]);
      if r == Valid then CheckApprovers(approvers, from + 1) else r
  }

  /** `validate_rbga_request`. */
  function ValidateRbga(payload: Json): (r: Verdict)
    ensures r == Valid <==> ConformsToRbga(payload)
    ensures r.Raises? ==> !payload.JObj? || ("data" in payload.fields && !payload.fields["data"].JObj?)
  {
    match RequireFields(payload, TopLevelFields, MissingField)
    case Invalid(why) => Invalid(why)
    case Raises => Raises
    case Valid =>
      // A list or string can pass the membership tests; `.get` then raises.
      if !payload.JObj? then Raises
      else
        assert HasAll(payload, TopLevelFields);
        assert forall i :: 0 <= i < |TopLevelFields| ==> TopLevelFields[i] in payload.fields;
        assert TopLevelFields[1] == "pkey" && TopLevelFields[2] == "issuetype";
        assert TopLevelFields[4] == "priority" && TopLevelFields[6] == "data";
        ValidateValues(payload.fields)
  }

  function ValidateValues(m: map<string, Json>): (r: Verdict)
    requires "pkey" in m && "issuetype" in m && "priority" in m && "data" in m
    ensures r == Valid <==> ValuesConform(m)
    ensures r.Raises? ==> !m["data"].JObj?
  {
    if m["pkey"] != JStr("RBGA") then Invalid("pkey must be 'RBGA'")
    else if m["issuetype"] != JStr("rbga.issuetype.default") then Invalid("issuetype must be 'rbga.issuetype.default'")
    else if m["priority"] != JStr("default") then Invalid("priority must be 'default'")
    else ValidateData(m["data"])
  }

  function ValidateData(data: Json): (r: Verdict)
    ensures r == Valid <==> DataConforms(data)
    ensures r.Raises? ==> !data.JObj?
  {
    match RequireFields(data, DataFields, MissingDataField)
    case Invalid(why) => Invalid(why)
    case Raises => Raises
    case Valid =>
      if !data.JObj? then Raises
      else
        var d := data.fields;
        assert HasAll(data, DataFields);
        assert forall i :: 0 <= i < |DataFields| ==> DataFields[i] in d;
        assert DataFields[0] == "rbga.field.termCheck" && DataFields[2] == "rbga.field.workflowType";
        assert DataFields[3] == "rbga.field.approver1";
        if d["rbga.field.termCheck"] !in [JStr("yes"), JStr("no")] then
          Invalid("rbga.field.termCheck must be 'yes' or 'no'")
        else if d["rbga.field.workflowType"] !in [JStr("Parallel"), JStr("Serial")] then
          Invalid("rbga.field.workflowType must be 'Parallel' or 'Serial'")
        else ValidateApproverBlock(d["rbga.field.approver1"])
  }

  function ValidateApproverBlock(block: Json): (r: Verdict)
    ensures !r.Raises?
    ensures r == Valid <==> ApproverBlockConforms(block)
  {
    if !block.JObj? || "approvers" !in block.fields then
      Invalid("rbga.field.approver1 must contain 'approvers' array")
    else
      var list := block.fields["approvers"];
      if !list.JArr? || |list.items| == 0 then
        Invalid("rbga.field.approver1.approvers must be a non-empty array")
      else CheckApprovers(list.items, 0)
  }

  // The schema, stated declaratively.

  ghost predicate ApproverBlockConforms(block: Json) {
    && block.JObj?
    && "approvers" in block.fields
    && block.fields["approvers"].JArr?
    && |block.fields["approvers"].items| > 0
    && forall j :: 0 <= j < |block.fields["approvers"].items| ==> IsApprover(block.fields["approvers"].items[j])
  }

  ghost predicate DataConforms(data: Json) {
    && HasDataFields(data)
    && (data.fields["rbga.field.termCheck"] == JStr("yes") || data.fields["rbga.field.termCheck"] == JStr("no"))
    && (data.fields["rbga.field.workflowType"] == JStr("Parallel")
        || data.fields["rbga.field.workflowType"] == JStr("Serial"))
    && ApproverBlockConforms(data.fields["rbga.field.approver1"])
  }

  ghost predicate ValuesConform(m: map<string, Json>)
    requires "data" in m
  {
    && ConstantsRight(m)
    && DataConforms(m["data"])
  }

  /** The three constant-valued top-level fields hold their constants. */
  ghost predicate ConstantsRight(m: map<string, Json>) {
    && "pkey" in m && m["pkey"] == JStr("RBGA")
    && "issuetype" in m && m["issuetype"] == JStr("rbga.issuetype.default")
    && "priority" in m && m["priority"] == JStr("default")
  }

  /** An object holding the seven required top-level fields. */
  ghost predicate HasTopLevelFields(payload: Json) {
    && payload.JObj?
    && "summary" in payload.fields
    && "pkey" in payload.fields
    && "issuetype" in payload.fields
    && "applicant" in payload.fields
    && "priority" in payload.fields
    && "sourceSystem" in payload.fields
    && "data" in payload.fields
  }

  /** An object holding the four required data fields. */
  ghost predicate HasDataFields(data: Json) {
    && data.JObj?
    && "rbga.field.termCheck" in data.fields
    && "rbga.field.description" in data.fields
    && "rbga.field.workflowType" in data.fields
    && "rbga.field.approver1" in data.fields
  }

  /** A payload the full create accepts. */
  ghost predicate ConformsToRbga(payload: Json) {
    HasTopLevelFields(payload) && ValuesConform(payload.fields)
  }

  /** The relaxed check of a draft create: three fields, and the project key. */
  function CheckDraft(payload: Json): (r: Verdict)
    ensures r == Valid <==> DraftConforms(payload)
    ensures r.Raises? ==> !payload.JObj?
  {
    match RequireFields(payload, DraftFields, MissingField)
    case Invalid(why) => Invalid(why)
    case Raises => Raises
    case Valid =>
      if !payload.JObj? then Raises
      else
        assert HasAll(payload, DraftFields);
        assert DraftFields[1] == "pkey" && In(JStr(DraftFields[1]), payload) == Some(true);
        if payload.fields["pkey"] != JStr("RBGA") then Invalid("pkey must be 'RBGA'")
        else Valid
  }

  /** A payload the draft create accepts. */
  ghost predicate DraftConforms(payload: Json) {
    && payload.JObj?
    && "summary" in payload.fields
    && "pkey" in payload.fields
    && "applicant" in payload.fields
    && payload.fields["pkey"] == JStr("RBGA")
  }

  // First failures.

  /**
   * On an object, the field check fails on the first absent field, whatever
   * follows it.
   */
  lemma FirstAbsentFieldNamed(container: Json, fields: seq<string>, prefix: string, i: nat)
    requires container.JObj? && i < |fields|
    requires fields[i] !in container.fields
    requires forall j :: 0 <= j < i ==> fields[j] in container.fields
    ensures RequireFields(container, fields, prefix) == Invalid(prefix + fields[i])
  {
    assert In(JStr(fields[i]), container) == Some(false);
  }

  /** The full check names the first absent top-level field, in schema order. */
  lemma ReportsFirstMissingField(payload: Json, i: nat)
    requires payload.JObj? && i < |TopLevelFields|
    requires TopLevelFields[i] !in payload.fields
    requires forall j :: 0 <= j < i ==> TopLevelFields[j] in payload.fields
    ensures ValidateRbga(payload) == Invalid(MissingField + TopLevelFields[i])
  {
    FirstAbsentFieldNamed(payload, TopLevelFields, MissingField, i);
  }

  /** With the top level in order, the full check names the first absent data field. */
  lemma ReportsFirstMissingDataField(payload: Json, i: nat)
    requires HasTopLevelFields(payload) && ConstantsRight(payload.fields)
    requires i < |DataFields| && payload.fields["data"].JObj?
    requires DataFields[i] !in payload.fields["data"].fields
    requires forall j :: 0 <= j < i ==> DataFields[j] in payload.fields["data"].fields
    ensures ValidateRbga(payload) == Invalid(MissingDataField + DataFields[i])
  {
    assert HasAll(payload, TopLevelFields);
    FirstAbsentFieldNamed(payload.fields["data"], DataFields, MissingDataField, i);
  }

  /** The constant-valued top-level fields are checked in order pkey, issuetype, priority. */
  lemma ReportsConstantMismatch(payload: Json)
    requires HasTopLevelFields(payload)
    ensures var m := payload.fields;
      m["pkey"] != JStr("RBGA") ==>
      ValidateRbga(payload) == Invalid("pkey must be 'RBGA'")
    ensures var m := payload.fields;
      (m["pkey"] == JStr("RBGA") && m["issuetype"] != JStr("rbga.issuetype.default")) ==>
      ValidateRbga(payload) == Invalid("issuetype must be 'rbga.issuetype.default'")
    ensures var m := payload.fields;
      (m["pkey"] == JStr("RBGA") && m["issuetype"] == JStr("rbga.issuetype.default")
       && m["priority"] != JStr("default")) ==>
      ValidateRbga(payload) == Invalid("priority must be 'default'")
  {
    assert HasAll(payload, TopLevelFields);
  }

  /** With the top level in order, the full check is the check of `data`. */
  lemma TopLevelPassesToData(payload: Json)
    requires HasTopLevelFields(payload) && ConstantsRight(payload.fields)
    ensures ValidateRbga(payload) == ValidateData(payload.fields["data"])
  {
    assert HasAll(payload, TopLevelFields);
  }

  lemma DataValueChecks(data: Json)
    requires HasDataFields(data)
    ensures var d := data.fields;
      (d["rbga.field.termCheck"] != JStr("yes") && d["rbga.field.termCheck"] != JStr("no")) ==>
      ValidateData(data) == Invalid("rbga.field.termCheck must be 'yes' or 'no'")
    ensures var d := data.fields;
      ((d["rbga.field.termCheck"] == JStr("yes") || d["rbga.field.termCheck"] == JStr("no"))
       && d["rbga.field.workflowType"] != JStr("Parallel") && d["rbga.field.workflowType"] != JStr("Serial")) ==>
      ValidateData(data) == Invalid("rbga.field.workflowType must be 'Parallel' or 'Serial'")
    ensures var d := data.fields;
      ((d["rbga.field.termCheck"] == JStr("yes") || d["rbga.field.termCheck"] == JStr("no"))
       && (d["rbga.field.workflowType"] == JStr("Parallel") || d["rbga.field.workflowType"] == JStr("Serial"))) ==>
      ValidateData(data) == ValidateApproverBlock(d["rbga.field.approver1"])
  {
    assert HasAll(data, DataFields);
  }

  /**
   * With every required field present and the constants right, the enums are
   * checked next (termCheck before workflowType), then the approver block.
   */
  lemma ReportsDataValueMismatch(payload: Json)
    requires HasTopLevelFields(payload) && ConstantsRight(payload.fields)
    requires HasDataFields(payload.fields["data"])
    ensures var d := payload.fields["data"].fields;
      (d["rbga.field.termCheck"] != JStr("yes") && d["rbga.field.termCheck"] != JStr("no")) ==>
      ValidateRbga(payload) == Invalid("rbga.field.termCheck must be 'yes' or 'no'")
    ensures var d := payload.fields["data"].fields;
      ((d["rbga.field.termCheck"] == JStr("yes") || d["rbga.field.termCheck"] == JStr("no"))
       && d["rbga.field.workflowType"] != JStr("Parallel") && d["rbga.field.workflowType"] != JStr("Serial")) ==>
      ValidateRbga(payload) == Invalid("rbga.field.workflowType must be 'Parallel' or 'Serial'")
    ensures var d := payload.fields["data"].fields;
      ((d["rbga.field.termCheck"] == JStr("yes") || d["rbga.field.termCheck"] == JStr("no"))
       && (d["rbga.field.workflowType"] == JStr("Parallel") || d["rbga.field.workflowType"] == JStr("Serial"))) ==>
      ValidateRbga(payload) == ValidateApproverBlock(d["rbga.field.approver1"])
  {
    TopLevelPassesToData(payload);
    DataValueChecks(payload.fields["data"]);
  }

  /** The approver block: an object with "approvers", a non-empty list, then entry by entry. */
  lemma ApproverBlockChecks(block: Json)
    ensures (!block.JObj? || "approvers" !in block.fields) ==>
      ValidateApproverBlock(block) == Invalid("rbga.field.approver1 must contain 'approvers' array")
    ensures (block.JObj? && "approvers" in block.fields
             && (!block.fields["approvers"].JArr? || block.fields["approvers"].items == [])) ==>
      ValidateApproverBlock(block) == Invalid("rbga.field.approver1.approvers must be a non-empty array")
  {
  }

  /** The first bad approver entry is the one named, by its index. */
  lemma ReportsFirstBadApprover(approvers: seq<Json>, j: nat)
    requires j < |approvers| && !IsApprover(approvers[j])
    requires forall k :: 0 <= k < j ==> IsApprover(approvers[k])
    ensures CheckApprovers(approvers, 0) == Invalid(ApproverFault(j, approvers[j]))
  {
    var r := CheckApprovers(approvers, 0);
    var w :| 0 <= w < |approvers| && !IsApprover(approvers[w])
      && (forall k :: 0 <= k < w ==> IsApprover(approvers[k]))
      && r.reason == ApproverFault(w, approvers[w]);
    assert w == j;
  }

  /** Anything the full check admits, the draft check admits too. */
  lemma FullCheckImpliesDraftCheck(payload: Json)
    requires ValidateRbga(payload) == Valid
    ensures CheckDraft(payload) == Valid
  {
  }

  /** The draft check names the first absent of summary, pkey, applicant. */
  lemma ReportsFirstMissingDraftField(payload: Json, i: nat)
    requires payload.JObj? && i < |DraftFields|
    requires DraftFields[i] !in payload.fields
    requires forall j :: 0 <= j < i ==> DraftFields[j] in payload.fields
    ensures CheckDraft(payload) == Invalid(MissingField + DraftFields[i])
  {
    FirstAbsentFieldNamed(payload, DraftFields, MissingField, i);
  }
}
