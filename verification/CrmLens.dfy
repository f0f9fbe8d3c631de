/** The two directions of the CRM field mapper (amocrm-mapper.ts) over the mock CRM client
    (amocrm-mock.client.ts), and the laws that tie them together. */
module CrmLens {
  import opened Wrappers
  import opened InsertionMap

  datatype Stage = PreparationForProduction | Detailing | MaterialsArrival | Production
                 | TransferToWarehouse | CompletenessCheck | ReadyForDelivery

  function StageName(s: Stage): string {
    match s
    case PreparationForProduction => "preparation_for_production"
    case Detailing => "detailing"
    case MaterialsArrival => "materials_arrival"
    case Production => "production"
    case TransferToWarehouse => "transfer_to_warehouse"
    case CompletenessCheck => "completeness_check"
    case ReadyForDelivery => "ready_for_delivery"
  }

  const STAGES := [PreparationForProduction, Detailing, MaterialsArrival, Production,
                   TransferToWarehouse, CompletenessCheck, ReadyForDelivery]

  /** VALID_STAGES.has(name), giving the stage of that name. */
  function ParseStage(name: string): Option<Stage> {
    ParseAmong(STAGES, name)
  }

  function ParseAmong(stages: seq<Stage>, name: string): Option<Stage> {
    if stages == [] then None
    else if StageName(stages[0]) == name then Some(stages[0])
    else ParseAmong(stages[1..], name)
  }

  /** A custom field's value; NotFinite stands for NaN and the infinities. */
  datatype JsValue = Text(text: string) | Number(number: real) | NotFinite(shown: string) | Flag(flag: bool)

  datatype Field = Field(id: int, values: seq<JsValue>)

  datatype Json = Json(text: string)

  /** Number-to-string, Number(string) when finite, and JSON.parse when it does not throw. */
  datatype Js = Js(show: real -> string, parse: string -> Option<real>, json: string -> Option<Json>)

  datatype Lead = Lead(id: int, name: Option<string>, statusId: Option<int>, updatedAt: int,
                       fields: Option<seq<Field>>, contactId: Option<int>)

  datatype FieldIds = FieldIds(stage: int, progress: int, comment: int, prepayment: int, partner: int, services: int)

  predicate DistinctIds(ids: FieldIds) {
    && ids.stage !in {ids.progress, ids.comment, ids.prepayment, ids.partner, ids.services}
    && ids.progress !in {ids.comment, ids.prepayment, ids.partner, ids.services}
    && ids.comment !in {ids.prepayment, ids.partner, ids.services}
  }

  datatype OrderPatch = OrderPatch(dealId: int, contactId: Option<int>, productName: Option<string>,
                                   stage: Option<Stage>, progress: Option<int>, comment: Option<string>,
                                   prepayment: Option<real>, services: Option<Json>, partner: Option<string>)

  /** What an administrator enters, and what the outbound job carries to the CRM. */
  datatype ProgressInput = ProgressInput(stage: Option<Stage>, progress: Option<real>, comment: Option<string>)

  datatype PullError = InvalidStage(name: string)

  // ------------------------------------------------------------------ reading

  const FIELD_ID: Field -> int := (f: Field) => f.id

  /** new Map(fields.map((f) => [f.field_id, f])).get(id)?.values?.[0]?.value */
  function ReadValue(fields: seq<Field>, id: int): Option<JsValue> {
    match Get(FIELD_ID, PutAll(FIELD_ID, [], fields), id)
    case Some(f) => if f.values == [] then None else Some(f.values[0])
    case None => None
  }

  function ReadString(js: Js, fields: seq<Field>, id: int): Option<string> {
    match ReadValue(fields, id)
    case None => None
    case Some(Text(s)) => Some(s)
    case Some(Number(n)) => Some(js.show(n))
    case Some(NotFinite(shown)) => Some(shown)
    case Some(Flag(b)) => Some(if b then "true" else "false")
  }

  function ReadNumber(js: Js, fields: seq<Field>, id: int): Option<real> {
    match ReadValue(fields, id)
    case None => None
    case Some(Text(s)) => js.parse(s)
    case Some(Number(n)) => Some(n)
    case Some(NotFinite(_)) => None
    case Some(Flag(b)) => Some(if b then 1.0 else 0.0)
  }

  /** Math.round: half-way values go up. */
  function JsRound(x: real): int {
    (x + 0.5).Floor
  }

  /** Math.max(0, Math.min(100, Math.round(x))) */
  function ClampPercent(x: real): int {
    var r := JsRound(x);
    var capped := if r < 100 then r else 100;
    if capped > 0 then capped else 0
  }

  function Fields(lead: Lead): seq<Field> {
    lead.fields.GetOr([])
  }

  /** The stage the pipeline status stands for, when the status is mapped. */
  function StatusStage(statusToStage: map<int, string>, lead: Lead): Option<string> {
    if lead.statusId.Some? && lead.statusId.value in statusToStage then Some(statusToStage[lead.statusId.value]) else None
  }

  function StageText(js: Js, ids: FieldIds, statusToStage: map<int, string>, lead: Lead): Option<string> {
    var mapped := StatusStage(statusToStage, lead);
    if mapped.Some? then mapped else ReadString(js, Fields(lead), ids.stage)
  }

  /** The patch of a lead with this stage: every other part is read from its own field. */
  function PatchOf(js: Js, ids: FieldIds, lead: Lead, stage: Option<Stage>): OrderPatch {
    var fields := Fields(lead);
    var progress := ReadNumber(js, fields, ids.progress);
    var partner := ReadString(js, fields, ids.partner);
    var services := ReadString(js, fields, ids.services);
    OrderPatch(
      lead.id, lead.contactId,
      if lead.name == Some("") then None else lead.name,
      stage,
      if progress.Some? then Some(ClampPercent(progress.value)) else None,
      ReadString(js, fields, ids.comment),
      ReadNumber(js, fields, ids.prepayment),
      if services.Some? then js.json(services.value) else None,
      if partner == Some("") then None else partner)
  }

  /** leadToOrderPatch, read field by field. */
  function Pull(js: Js, ids: FieldIds, statusToStage: map<int, string>, lead: Lead): Result<OrderPatch, PullError> {
    var stage := StageText(js, ids, statusToStage, lead);
    if stage.None? then Ok(PatchOf(js, ids, lead, None))
    else if ParseStage(stage.value).None? then Err(InvalidStage(stage.value))
    else Ok(PatchOf(js, ids, lead, ParseStage(stage.value)))
  }

  /** leadToOrderPatch as the source writes it: a patch object filled step by step. */
  method LeadToOrderPatch(js: Js, lead: Lead, ids: FieldIds, statusToStage: map<int, string>)
    returns (r: Result<OrderPatch, PullError>)
    ensures r == Pull(js, ids, statusToStage, lead)
  {
    var fields := Fields(lead);
    var productName, contactId := None, None;
    if lead.name.Some? && lead.name.value != "" { productName := lead.name; }
    var stageText: Option<string> := None;
    if lead.statusId.Some? && lead.statusId.value in statusToStage {
      stageText := Some(statusToStage[lead.statusId.value]);
    }
    if stageText.None? {
      stageText := ReadString(js, fields, ids.stage);
    }
    var stage: Option<Stage> := None;
    if stageText.Some? {
      stage := ParseStage(stageText.value);
      if stage.None? { return Err(InvalidStage(stageText.value)); }
    }
    var progress: Option<int> := None;
    var progressRaw := ReadNumber(js, fields, ids.progress);
    if progressRaw.Some? { progress := Some(ClampPercent(progressRaw.value)); }
    var comment := ReadString(js, fields, ids.comment);
    var prepayment := ReadNumber(js, fields, ids.prepayment);
    var partner := ReadString(js, fields, ids.partner);
    if partner == Some("") { partner := None; }
    var services: Option<Json> := None;
    var servicesRaw := ReadString(js, fields, ids.services);
    if servicesRaw.Some? { services := js.json(servicesRaw.value); }
    if lead.contactId.Some? { contactId := lead.contactId; }
    r := Ok(OrderPatch(lead.id, contactId, productName, stage, progress, comment, prepayment, services, partner));
  }

  // ------------------------------------------------------------------ writing

  function ToCustomFields(input: ProgressInput, ids: FieldIds): seq<Field> {
    (if input.stage.Some? then [Field(ids.stage, [Text(StageName(input.stage.value))])] else []) +
    (if input.progress.Some? then [Field(ids.progress, [Number(input.progress.value)])] else []) +
    (if input.comment.Some? then [Field(ids.comment, [Text(input.comment.value)])] else [])
  }

  method OrderToCustomFields(input: ProgressInput, ids: FieldIds) returns (result: seq<Field>)
    ensures result == ToCustomFields(input, ids)
  {
    result := [];
    if input.stage.Some? {
      result := result + [Field(ids.stage, [Text(StageName(input.stage.value))])];
    }
    if input.progress.Some? {
      result := result + [Field(ids.progress, [Number(input.progress.value)])];
    }
    if input.comment.Some? {
      result := result + [Field(ids.comment, [Text(input.comment.value)])];
    }
  }

  /** The merge of patchLead: a map of the lead's fields, overwritten by the pushed ones. */
  function MergeFields(existing: seq<Field>, pushed: seq<Field>): seq<Field> {
    PutAll(FIELD_ID, PutAll(FIELD_ID, [], existing), pushed)
  }

  function PatchedLead(lead: Lead, pushed: seq<Field>, nowMs: int): Lead {
    lead.(fields := Some(MergeFields(Fields(lead), pushed)), updatedAt := nowMs / 1000)
  }

  function Push(lead: Lead, input: ProgressInput, ids: FieldIds, nowMs: int): Lead {
    PatchedLead(lead, ToCustomFields(input, ids), nowMs)
  }

  // -------------------------------------------------------------- the mock client

  class MockClient {
    var leads: map<int, Lead>

    constructor (seeded: map<int, Lead>)
      ensures leads == seeded
    {
      leads := seeded;
    }

    /** Returns false where the source throws because the lead is not seeded. */
    method PatchLead(id: int, customFields: seq<Field>, nowMs: int) returns (found: bool)
      modifies this
      ensures found == (id in old(leads))
      ensures leads == if found then old(leads)[id := PatchedLead(old(leads)[id], customFields, nowMs)] else old(leads)
    {
      if id !in leads { return false; }
      var lead := leads[id];
      var existing := PutAll(FIELD_ID, [], Fields(lead));
      ghost var start := existing;
      var i := 0;
      while i < |customFields|
        invariant 0 <= i <= |customFields|
        invariant PutAll(FIELD_ID, existing, customFields[i..]) == PutAll(FIELD_ID, start, customFields)
        invariant leads == old(leads)
      {
        assert customFields[i..][1..] == customFields[i + 1..];
        existing := Put(FIELD_ID, existing, customFields[i]);
        i := i + 1;
      }
      lead := lead.(fields := Some(existing));
      lead := lead.(updatedAt := nowMs / 1000);
      leads := leads[id := lead];
      found := true;
    }
  }

  // ------------------------------------------------------------------- the laws

  lemma ParseStageName(s: Stage)
    ensures ParseStage(StageName(s)) == Some(s)
  {
    assert STAGES[0..] == STAGES;
    ParseFrom(s, 0);
  }

  lemma {:induction false} ParseFrom(s: Stage, i: nat)
    requires i < 7 && STAGES[i..] != [] && s in STAGES[i..]
    ensures ParseAmong(STAGES[i..], StageName(s)) == Some(s)
    decreases 7 - i
  {
    if STAGES[i] != s {
      assert STAGES[i..][1..] == STAGES[i + 1..];
      ParseFrom(s, i + 1);
    }
  }

  /** Reading back after a merge: a pushed field is found as pushed, another as it was,
      even if the lead listed a field id more than once. */
  lemma ReadMerged(existing: seq<Field>, pushed: seq<Field>, id: int)
    ensures ReadValue(MergeFields(existing, pushed), id) ==
      match Last(FIELD_ID, pushed, id) {
        case Some(f) => if f.values == [] then None else Some(f.values[0])
        case None => ReadValue(existing, id)
      }
  {
    var m := PutAll(FIELD_ID, [], existing);
    GetPutAll(FIELD_ID, m, pushed, id);
    PutAllKeepsDistinct(FIELD_ID, [], existing);
    PutAllKeepsDistinct(FIELD_ID, m, pushed);
    assert [] + MergeFields(existing, pushed) == MergeFields(existing, pushed);
    PutAllDistinctAppends(FIELD_ID, [], MergeFields(existing, pushed));
  }

  lemma ReadSingle(f: Field, id: int)
    ensures ReadValue([f], id) == if f.id == id && f.values != [] then Some(f.values[0]) else None
  {
    var one := [f];
    assert one[1..] == [];
    assert PutAll(FIELD_ID, [], one) == PutAll(FIELD_ID, Put(FIELD_ID, [], f), []) == [f];
    assert Get(FIELD_ID, one[1..], id).None?;
  }

  lemma LastPushed(input: ProgressInput, ids: FieldIds, id: int)
    requires DistinctIds(ids)
    ensures Last(FIELD_ID, ToCustomFields(input, ids), id) ==
      if id == ids.comment && input.comment.Some? then Some(Field(id, [Text(input.comment.value)]))
      else if id == ids.progress && input.progress.Some? then Some(Field(id, [Number(input.progress.value)]))
      else if id == ids.stage && input.stage.Some? then Some(Field(id, [Text(StageName(input.stage.value))]))
      else None
  {
    var a := if input.stage.Some? then [Field(ids.stage, [Text(StageName(input.stage.value))])] else [];
    var b := if input.progress.Some? then [Field(ids.progress, [Number(input.progress.value)])] else [];
    var c := if input.comment.Some? then [Field(ids.comment, [Text(input.comment.value)])] else [];
    LastOfConcat(a + b, c, id);
    LastOfConcat(a, b, id);
  }

  lemma LastOfConcat(a: seq<Field>, b: seq<Field>, id: int)
    requires |b| <= 1
    ensures Last(FIELD_ID, a + b, id) == if Last(FIELD_ID, b, id).Some? then Last(FIELD_ID, b, id) else Last(FIELD_ID, a, id)
  {
    if b == [] {
      assert a + b == a;
    } else {
      assert (a + b)[..|a|] == a;
    }
  }

  /** The value a push writes under a field id. */
  function Written(input: ProgressInput, ids: FieldIds, id: int): Option<JsValue> {
    if id == ids.comment && input.comment.Some? then Some(Text(input.comment.value))
    else if id == ids.progress && input.progress.Some? then Some(Number(input.progress.value))
    else if id == ids.stage && input.stage.Some? then Some(Text(StageName(input.stage.value)))
    else None
  }

  lemma ReadAfterPush(lead: Lead, input: ProgressInput, ids: FieldIds, nowMs: int, id: int)
    requires DistinctIds(ids)
    ensures ReadValue(Fields(Push(lead, input, ids, nowMs)), id)
         == if Written(input, ids, id).Some? then Written(input, ids, id) else ReadValue(Fields(lead), id)
  {
    ReadMerged(Fields(lead), ToCustomFields(input, ids), id);
    LastPushed(input, ids, id);
  }

  lemma StageAfterPush(js: Js, ids: FieldIds, statusToStage: map<int, string>, lead: Lead, input: ProgressInput, nowMs: int)
    requires DistinctIds(ids)
    ensures StageText(js, ids, statusToStage, Push(lead, input, ids, nowMs)) ==
      if StatusStage(statusToStage, lead).None? && input.stage.Some? then Some(StageName(input.stage.value))
      else StageText(js, ids, statusToStage, lead)
  {
    ReadAfterPush(lead, input, ids, nowMs, ids.stage);
  }

  lemma NumbersAfterPush(js: Js, ids: FieldIds, lead: Lead, input: ProgressInput, nowMs: int)
    requires DistinctIds(ids)
    ensures var after := Fields(Push(lead, input, ids, nowMs));
      && ReadNumber(js, after, ids.progress)
         == (if input.progress.Some? then input.progress else ReadNumber(js, Fields(lead), ids.progress))
      && ReadNumber(js, after, ids.prepayment) == ReadNumber(js, Fields(lead), ids.prepayment)
  {
    ReadAfterPush(lead, input, ids, nowMs, ids.progress);
    ReadAfterPush(lead, input, ids, nowMs, ids.prepayment);
  }

  lemma TextsAfterPush(js: Js, ids: FieldIds, lead: Lead, input: ProgressInput, nowMs: int)
    requires DistinctIds(ids)
    ensures var after := Fields(Push(lead, input, ids, nowMs));
      && ReadString(js, after, ids.comment)
         == (if input.comment.Some? then input.comment else ReadString(js, Fields(lead), ids.comment))
      && ReadString(js, after, ids.partner) == ReadString(js, Fields(lead), ids.partner)
      && ReadString(js, after, ids.services) == ReadString(js, Fields(lead), ids.services)
  {
    ReadAfterPush(lead, input, ids, nowMs, ids.comment);
    ReadAfterPush(lead, input, ids, nowMs, ids.partner);
    ReadAfterPush(lead, input, ids, nowMs, ids.services);
  }

  /** All but the stage of a patch, after a push. */
  lemma PatchAfterPush(js: Js, ids: FieldIds, lead: Lead, input: ProgressInput, nowMs: int, stage: Option<Stage>)
    requires DistinctIds(ids)
    ensures PatchOf(js, ids, Push(lead, input, ids, nowMs), stage)
         == PatchOf(js, ids, lead, stage).(
              progress := if input.progress.Some? then Some(ClampPercent(input.progress.value))
                          else PatchOf(js, ids, lead, stage).progress,
              comment := if input.comment.Some? then input.comment else PatchOf(js, ids, lead, stage).comment)
  {
    NumbersAfterPush(js, ids, lead, input, nowMs);
    TextsAfterPush(js, ids, lead, input, nowMs);
  }

  /** What the patch becomes when `input` has been pushed. */
  function Overlay(patch: OrderPatch, input: ProgressInput, statusMapped: bool): OrderPatch {
    patch.(
      stage := if !statusMapped && input.stage.Some? then input.stage else patch.stage,
      progress := if input.progress.Some? then Some(ClampPercent(input.progress.value)) else patch.progress,
      comment := if input.comment.Some? then input.comment else patch.comment)
  }

  /** Push then pull, for every lead: the comment comes back verbatim, the progress clamped
      and rounded, the stage unless the status is mapped, and nothing else changes. Where the
      lead could not be pulled for an invalid stage, a pushed stage repairs it. */
  lemma PushThenPull(js: Js, ids: FieldIds, statusToStage: map<int, string>, lead: Lead, input: ProgressInput, nowMs: int)
    requires DistinctIds(ids)
    ensures var mapped := StatusStage(statusToStage, lead).Some?;
      var after := Pull(js, ids, statusToStage, Push(lead, input, ids, nowMs));
      match Pull(js, ids, statusToStage, lead)
      case Ok(patch) => after == Ok(Overlay(patch, input, mapped))
      case Err(e) =>
        if mapped || input.stage.None? then after == Err(e)
        else after == Ok(Overlay(PatchOf(js, ids, lead, None), input, false))
  {
    StageAfterPush(js, ids, statusToStage, lead, input, nowMs);
    var stage := StageText(js, ids, statusToStage, Push(lead, input, ids, nowMs));
    PatchAfterPush(js, ids, lead, input, nowMs, if stage.Some? then ParseStage(stage.value) else None);
    if input.stage.Some? {
      ParseStageName(input.stage.value);
    }
  }

  /** The stage makes the round trip exactly when the lead's status is unmapped or already
      stands for that stage. */
  lemma StageRoundTripIff(js: Js, ids: FieldIds, statusToStage: map<int, string>, lead: Lead, input: ProgressInput, nowMs: int)
    requires DistinctIds(ids) && input.stage.Some?
    ensures var after := Pull(js, ids, statusToStage, Push(lead, input, ids, nowMs));
      var status := StatusStage(statusToStage, lead);
      (after.Ok? && after.value.stage == input.stage) <==> (status.None? || ParseStage(status.value) == input.stage)
  {
    PushThenPull(js, ids, statusToStage, lead, input, nowMs);
    ParseStageName(input.stage.value);
  }

  /** An input that fails: the status stands for detailing, production is pushed, and
      detailing comes back. */
  lemma MappedStatusWins(js: Js, ids: FieldIds, contact: Option<int>, nowMs: int)
    requires DistinctIds(ids)
    ensures var lead := Lead(7, None, Some(1), 0, None, contact);
      var status := map[1 := StageName(Detailing)];
      var after := Pull(js, ids, status, Push(lead, ProgressInput(Some(Production), None, None), ids, nowMs));
      after.Ok? && after.value.stage == Some(Detailing)
  {
    var lead := Lead(7, None, Some(1), 0, None, contact);
    var status := map[1 := StageName(Detailing)];
    PushThenPull(js, ids, status, lead, ProgressInput(Some(Production), None, None), nowMs);
    ParseStageName(Detailing);
  }

  /** Pushing back what was pulled changes nothing that can be pulled. */
  lemma PullThenPush(js: Js, ids: FieldIds, statusToStage: map<int, string>, lead: Lead, nowMs: int)
    requires DistinctIds(ids) && Pull(js, ids, statusToStage, lead).Ok?
    ensures var patch := Pull(js, ids, statusToStage, lead).value;
      var input := ProgressInput(patch.stage, if patch.progress.Some? then Some(patch.progress.value as real) else None,
                                 patch.comment);
      Pull(js, ids, statusToStage, Push(lead, input, ids, nowMs)) == Ok(patch)
  {
    var patch := Pull(js, ids, statusToStage, lead).value;
    var input := ProgressInput(patch.stage, if patch.progress.Some? then Some(patch.progress.value as real) else None,
                               patch.comment);
    PushThenPull(js, ids, statusToStage, lead, input, nowMs);
    if patch.progress.Some? {
      ClampOfPercent(patch.progress.value);
    }
  }

  lemma ClampOfPercent(n: int)
    ensures 0 <= n <= 100 ==> ClampPercent(n as real) == n
  {
    assert (n as real + 0.5).Floor == n;
  }

  /** The later of two pushes, field by field. */
  function Override(a: ProgressInput, b: ProgressInput): ProgressInput {
    ProgressInput(if b.stage.Some? then b.stage else a.stage,
                  if b.progress.Some? then b.progress else a.progress,
                  if b.comment.Some? then b.comment else a.comment)
  }

  /** Two pushes are one push of the overriding values: every field reads the same. */
  lemma PushTwice(lead: Lead, a: ProgressInput, b: ProgressInput, ids: FieldIds, at: int, at': int, id: int)
    requires DistinctIds(ids)
    ensures ReadValue(Fields(Push(Push(lead, a, ids, at), b, ids, at')), id)
         == ReadValue(Fields(Push(lead, Override(a, b), ids, at')), id)
  {
    ReadMerged(Fields(lead), ToCustomFields(a, ids), id);
    ReadMerged(Fields(Push(lead, a, ids, at)), ToCustomFields(b, ids), id);
    ReadMerged(Fields(lead), ToCustomFields(Override(a, b), ids), id);
    LastPushed(a, ids, id);
    LastPushed(b, ids, id);
    LastPushed(Override(a, b), ids, id);
  }

  // ------------------------------------------------------------------ what is read

  /** A percentage is the nearest whole one, half-way values going up, within 0 and 100. */
  lemma ClampNearest(x: real)
    ensures 0 <= ClampPercent(x) <= 100
    ensures 0.0 <= x <= 100.0 ==> ClampPercent(x) as real - 0.5 <= x < ClampPercent(x) as real + 0.5
    ensures x < 0.0 ==> ClampPercent(x) == 0
    ensures x > 100.0 ==> ClampPercent(x) == 100
  {
  }

  /** The one value of a field as text and as number. */
  lemma ValueReads(js: Js, id: int, v: JsValue)
    ensures var text, number := ReadString(js, [Field(id, [v])], id), ReadNumber(js, [Field(id, [v])], id);
      match v
      case Text(s) => text == Some(s) && number == js.parse(s)
      case Number(n) => text == Some(js.show(n)) && number == Some(n)
      case NotFinite(shown) => text == Some(shown) && number.None?
      case Flag(b) => if b then text == Some("true") && number == Some(1.0) else text == Some("false") && number == Some(0.0)
    ensures ReadString(js, [Field(id, [])], id).None? && ReadNumber(js, [Field(id, [])], id).None?
  {
    ReadSingle(Field(id, [v]), id);
    ReadSingle(Field(id, []), id);
  }

  /** A lead can be pulled exactly when the stage it has, if any, is a stage; the status speaks
      before the field. Each part of the patch is read from its own place in the lead. */
  lemma PullReads(js: Js, ids: FieldIds, statusToStage: map<int, string>, lead: Lead)
    ensures var pulled := Pull(js, ids, statusToStage, lead);
      var status := if lead.statusId.Some? && lead.statusId.value in statusToStage then Some(statusToStage[lead.statusId.value]) else None;
      var stage := if status.Some? then status else ReadString(js, Fields(lead), ids.stage);
      && (stage.Some? && ParseStage(stage.value).None? ==> pulled == Err(InvalidStage(stage.value)))
      && (stage.None? || ParseStage(stage.value).Some? ==>
            && pulled.Ok?
            && var patch := pulled.value;
               && patch.dealId == lead.id && patch.contactId == lead.contactId
               && (patch.stage.None? <==> stage.None?) && (stage.Some? ==> patch.stage == ParseStage(stage.value))
               && (patch.productName.None? <==> lead.name.None? || lead.name == Some("")) && (patch.productName.Some? ==> patch.productName == lead.name)
               && patch.comment == ReadString(js, Fields(lead), ids.comment)
               && patch.prepayment == ReadNumber(js, Fields(lead), ids.prepayment)
               && (patch.partner.None? <==> ReadString(js, Fields(lead), ids.partner) in {None, Some("")})
               && (patch.partner.Some? ==> patch.partner == ReadString(js, Fields(lead), ids.partner)))
  {
  }

  /** A push stamps the lead with the second and leaves all but its fields alone. */
  lemma PushStamps(lead: Lead, input: ProgressInput, ids: FieldIds, nowMs: int)
    ensures var pushed := Push(lead, input, ids, nowMs);
      && 1000 * pushed.updatedAt <= nowMs < 1000 * pushed.updatedAt + 1000
      && pushed.(fields := lead.fields, updatedAt := lead.updatedAt) == lead
  {
  }
}
