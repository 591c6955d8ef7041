/** The two matter-writing routes: creating a matter (refused when its case
    number is already used) and updating one through a fixed whitelist of
    columns. A stored matter is a row of named columns; the table maps each
    matter id to its row. */
module Matters {
  import opened Wrappers
  import opened Api

  /** A stored matter: column name to value. */
  type Row = map<string, Json>

  /** The matters table, keyed by matter id. */
  type Table = map<string, Row>

  /** Roles allowed to create and update matters. */
  const MatterRoles: seq<string> := ["Admin", "Partner"]

  /** The only columns an update may set, in the route's order. */
  const UpdatableColumns: seq<string> := [
    "matter_name", "matter_type", "status", "assigned_partner_id",
    "assigned_associate_id", "estimated_value", "description", "closing_date"]

  // ---------------------------------------------------------------------------
  // Creating a matter

  /** The body of a create request; absent fields are `None`. */
  datatype CreateRequest = CreateRequest(
    caseNumber: Option<string>,
    clientId: Option<string>,
    matterName: Option<string>,
    matterType: Option<string>,
    assignedPartnerId: Option<Json>,
    assignedAssociateId: Option<Json>,
    estimatedValue: Option<Json>,
    description: Option<Json>)

  /** The validation chain of the create route, in declaration order; an absent
      text field is checked as "". */
  function CreateChecks(req: CreateRequest): seq<(string, bool)> {
    [ ("caseNumber", NotEmpty(req.caseNumber.GetOr(""))),
      ("clientId", IsUuid(req.clientId.GetOr(""))),
      ("matterName", NotEmpty(req.matterName.GetOr(""))),
      ("matterType", NotEmpty(req.matterType.GetOr(""))) ]
  }

  /** The create request passes validation. */
  predicate CreateAccepted(req: CreateRequest) {
    && req.caseNumber.Some? && NotEmpty(req.caseNumber.value)
    && req.clientId.Some? && IsUuid(req.clientId.value)
    && req.matterName.Some? && NotEmpty(req.matterName.value)
    && req.matterType.Some? && NotEmpty(req.matterType.value)
  }

  /** Some stored matter already has this case number. */
  predicate CaseNumberTaken(t: Table, caseNumber: string) {
    exists id :: id in t && "case_number" in t[id] && t[id]["case_number"] == JStr(caseNumber)
  }

  /** No two stored matters share a case number. */
  predicate UniqueCaseNumbers(t: Table) {
    forall a, b :: a in t && b in t && a != b && "case_number" in t[a] && "case_number" in t[b]
      ==> t[a]["case_number"] != t[b]["case_number"]
  }

  /** The row the insert writes: the four required fields as given, the four
      optional ones as NULL when absent or falsy. */
  function NewRow(req: CreateRequest): (row: Row)
    requires CreateAccepted(req)
    ensures row.Keys == {"case_number", "client_id", "matter_name", "matter_type",
                         "assigned_partner_id", "assigned_associate_id", "estimated_value", "description"}
    ensures row["case_number"] == JStr(req.caseNumber.value)
    ensures row["client_id"] == JStr(req.clientId.value)
    ensures row["matter_name"] == JStr(req.matterName.value)
    ensures row["matter_type"] == JStr(req.matterType.value)
    ensures row["assigned_partner_id"] == OrNull(req.assignedPartnerId)
    ensures row["assigned_associate_id"] == OrNull(req.assignedAssociateId)
    ensures row["estimated_value"] == OrNull(req.estimatedValue)
    ensures row["description"] == OrNull(req.description)
  {
    map[
      "case_number" := JStr(req.caseNumber.value),
      "client_id" := JStr(req.clientId.value),
      "matter_name" := JStr(req.matterName.value),
      "matter_type" := JStr(req.matterType.value),
      "assigned_partner_id" := OrNull(req.assignedPartnerId),
      "assigned_associate_id" := OrNull(req.assignedAssociateId),
      "estimated_value" := OrNull(req.estimatedValue),
      "description" := OrNull(req.description)]
  }

  /** The validation chain's reply: none when every check passes, otherwise
      400 listing exactly the fields whose check failed. */
  function CreateValidation(req: CreateRequest): (r: Option<HttpError>)
    ensures r.None? <==> CreateAccepted(req)
    ensures r.Some? ==>
      r.value.status == 400 && r.value.reason.ValidationFailed?
      && ("caseNumber" in r.value.reason.fields <==> !(req.caseNumber.Some? && NotEmpty(req.caseNumber.value)))
      && ("clientId" in r.value.reason.fields <==> !(req.clientId.Some? && IsUuid(req.clientId.value)))
      && ("matterName" in r.value.reason.fields <==> !(req.matterName.Some? && NotEmpty(req.matterName.value)))
      && ("matterType" in r.value.reason.fields <==> !(req.matterType.Some? && NotEmpty(req.matterType.value)))
  {
    var checks := CreateChecks(req);
    var failed := FailedFields(checks);
    assert CreateAccepted(req) <==> checks[0].1 && checks[1].1 && checks[2].1 && checks[3].1;
    assert checks[0].0 == "caseNumber" && checks[1].0 == "clientId" && checks[2].0 == "matterName" && checks[3].0 == "matterType";
    if failed != [] then Some(HttpError(400, ValidationFailed(failed))) else None
  }

  /** POST /api/matters: the role gate, the validation chain, the duplicate
      case-number check, then one insert under the id the store hands out. */
  function Create(t: Table, actor: Actor, req: CreateRequest, freshId: string): (r: Result<Table, HttpError>)
    requires freshId !in t
    ensures !Authorized(actor, MatterRoles) ==> r == Failure(ForbiddenError)
    ensures Authorized(actor, MatterRoles) && !CreateAccepted(req) ==>
      r.Failure? && r.error.status == 400 && r.error.reason.ValidationFailed?
      && ("caseNumber" in r.error.reason.fields <==> !(req.caseNumber.Some? && NotEmpty(req.caseNumber.value)))
      && ("clientId" in r.error.reason.fields <==> !(req.clientId.Some? && IsUuid(req.clientId.value)))
      && ("matterName" in r.error.reason.fields <==> !(req.matterName.Some? && NotEmpty(req.matterName.value)))
      && ("matterType" in r.error.reason.fields <==> !(req.matterType.Some? && NotEmpty(req.matterType.value)))
    ensures Authorized(actor, MatterRoles) && CreateAccepted(req) && CaseNumberTaken(t, req.caseNumber.value) ==>
      r == Failure(HttpError(400, CaseNumberExists))
    ensures r.Success? <==>
      Authorized(actor, MatterRoles) && CreateAccepted(req) && !CaseNumberTaken(t, req.caseNumber.value)
    ensures r.Success? ==>
      && r.value.Keys == t.Keys + {freshId}
      && (forall id :: id in t ==> r.value[id] == t[id])
      && r.value[freshId] == NewRow(req)
      && "case_number" in r.value[freshId]
      && r.value[freshId]["case_number"] == JStr(req.caseNumber.value)
  {
    if !Authorized(actor, MatterRoles) then Failure(ForbiddenError)
    else
      match CreateValidation(req)
      case Some(err) => Failure(err)
      case None =>
        if CaseNumberTaken(t, req.caseNumber.value) then Failure(HttpError(400, CaseNumberExists))
        else Success(t[freshId := NewRow(req)])
  }

  /** Creating matters one request at a time never produces two matters with
      the same case number. */
  lemma CreateKeepsCaseNumbersUnique(t: Table, actor: Actor, req: CreateRequest, freshId: string)
    requires freshId !in t && UniqueCaseNumbers(t)
    ensures Create(t, actor, req, freshId).Success? ==> UniqueCaseNumbers(Create(t, actor, req, freshId).value)
  {
    var r := Create(t, actor, req, freshId);
    if r.Success? {
      var t' := r.value;
      forall a, b | a in t' && b in t' && a != b && "case_number" in t'[a] && "case_number" in t'[b]
        ensures t'[a]["case_number"] != t'[b]["case_number"]
      {
        if a == freshId {
          assert b in t && t'[b] == t[b];
        } else if b == freshId {
          assert a in t && t'[a] == t[a];
        } else {
          assert t'[a] == t[a] && t'[b] == t[b];
        }
      }
    }
  }

  // ---------------------------------------------------------------------------
  // Updating a matter

  /** The keys of a request body, in body order. */
  function Keys(body: seq<(string, Json)>): (ks: seq<string>)
    ensures |ks| == |body|
    ensures forall i :: 0 <= i < |body| ==> ks[i] == body[i].0
  {
    if |body| == 0 then [] else [body[0].0] + Keys(body[1..])
  }

  /** A JSON object's keys are distinct. */
  predicate DistinctKeys(body: seq<(string, Json)>) {
    forall i, j :: 0 <= i < j < |body| ==> body[i].0 != body[j].0
  }

  /** The body's whitelisted entries, in body order. */
  function Whitelisted(body: seq<(string, Json)>): (ups: seq<(string, Json)>)
    ensures |ups| <= |body|
    ensures forall p :: p in ups <==> p in body && p.0 in UpdatableColumns
  {
    if |body| == 0 then []
    else (if body[0].0 in UpdatableColumns then [body[0]] else []) + Whitelisted(body[1..])
  }

  /** `xs` is `ys` with some elements left out, the rest kept in order. */
  predicate IsSubsequence<T(==)>(xs: seq<T>, ys: seq<T>)
    decreases |ys|
  {
    if |xs| == 0 then true
    else if |ys| == 0 then false
    else if xs[0] == ys[0] then IsSubsequence(xs[1..], ys[1..])
    else IsSubsequence(xs, ys[1..])
  }

  /** The whitelist keeps the body's order: its result is a subsequence of the body. */
  lemma {:induction false} WhitelistedKeepsOrder(body: seq<(string, Json)>)
    ensures IsSubsequence(Whitelisted(body), body)
  {
    if |body| > 0 {
      var rest := Whitelisted(body[1..]);
      WhitelistedKeepsOrder(body[1..]);
      if body[0].0 in UpdatableColumns {
        assert ([body[0]] + rest)[1..] == rest;
      } else {
        assert Whitelisted(body) == rest;
        if |rest| > 0 {
          assert rest[0] in rest;
          assert rest[0] != body[0];
        }
      }
    }
  }

  /** The whitelisted entries of a body with distinct keys have distinct keys. */
  lemma {:induction false} WhitelistedDistinct(body: seq<(string, Json)>)
    requires DistinctKeys(body)
    ensures DistinctKeys(Whitelisted(body))
  {
    if |body| > 0 {
      var rest := Whitelisted(body[1..]);
      assert DistinctKeys(body[1..]) by {
        forall i, j | 0 <= i < j < |body[1..]|
          ensures body[1..][i].0 != body[1..][j].0
        {
          assert body[1..][i] == body[i + 1] && body[1..][j] == body[j + 1];
        }
      }
      WhitelistedDistinct(body[1..]);
      if body[0].0 in UpdatableColumns {
        var ups := [body[0]] + rest;
        forall i, j | 0 <= i < j < |ups|
          ensures ups[i].0 != ups[j].0
        {
          if i == 0 {
            assert ups[j] == rest[j - 1] && rest[j - 1] in body[1..];
            var b :| 0 <= b < |body[1..]| && body[1..][b] == rest[j - 1];
            assert body[b + 1] == ups[j];
          } else {
            assert ups[i] == rest[i - 1] && ups[j] == rest[j - 1];
          }
        }
      } else {
        assert Whitelisted(body) == rest;
      }
    }
  }

  /** The row after setting each listed column, in order. */
  function ApplyUpdates(row: Row, ups: seq<(string, Json)>): (row': Row)
    ensures row'.Keys == row.Keys + set p | p in ups :: p.0
    decreases |ups|
  {
    if |ups| == 0 then row else ApplyUpdates(row[ups[0].0 := ups[0].1], ups[1..])
  }

  /** With distinct keys, each listed column takes its listed value and every
      other column keeps its old one. */
  lemma {:induction false} ApplyUpdatesAt(row: Row, ups: seq<(string, Json)>, k: string)
    requires DistinctKeys(ups)
    ensures forall p :: p in ups && p.0 == k ==> k in ApplyUpdates(row, ups) && ApplyUpdates(row, ups)[k] == p.1
    ensures (forall p :: p in ups ==> p.0 != k) && k in row ==> k in ApplyUpdates(row, ups) && ApplyUpdates(row, ups)[k] == row[k]
    decreases |ups|
  {
    if |ups| > 0 {
      ApplyUpdatesAt(row[ups[0].0 := ups[0].1], ups[1..], k);
      forall p | p in ups && p.0 == k
        ensures ApplyUpdates(row, ups)[k] == p.1
      {
        if p != ups[0] {
          var j :| 0 <= j < |ups| && ups[j] == p;
          assert ups[1..][j - 1] == p;
        } else {
          forall q | q in ups[1..]
            ensures q.0 != k
          {
            var j :| 0 <= j < |ups[1..]| && ups[1..][j] == q;
            assert ups[j + 1] == q;
          }
        }
      }
    }
  }

  /** PUT /api/matters/:id: the role gate; the body's whitelisted entries, in
      body order; 400 when none is left; 404 when there is no such matter;
      otherwise those columns are set and `updated_at` becomes `now`. */
  function Update(t: Table, actor: Actor, id: string, body: seq<(string, Json)>, now: Json): (r: Result<Table, HttpError>)
    ensures !Authorized(actor, MatterRoles) ==> r == Failure(ForbiddenError)
    ensures Authorized(actor, MatterRoles) && Whitelisted(body) == [] ==> r == Failure(HttpError(400, NothingToUpdate))
    ensures Authorized(actor, MatterRoles) && Whitelisted(body) != [] && id !in t ==> r == Failure(HttpError(404, NotFound))
    ensures r.Success? <==> Authorized(actor, MatterRoles) && Whitelisted(body) != [] && id in t
    ensures r.Success? ==>
      && r.value.Keys == t.Keys
      && (forall other :: other in t && other != id ==> r.value[other] == t[other])
      && r.value[id] == ApplyUpdates(t[id], Whitelisted(body))["updated_at" := now]
  {
    if !Authorized(actor, MatterRoles) then Failure(ForbiddenError)
    else
      var ups := Whitelisted(body);
      if ups == [] then Failure(HttpError(400, NothingToUpdate))
      else if id !in t then Failure(HttpError(404, NotFound))
      else Success(t[id := ApplyUpdates(t[id], ups)["updated_at" := now]])
  }

  /** What an accepted update does to the row, column by column: a
      whitelisted column from the body takes the body's value, `updated_at`
      takes `now`, and every other column (including any non-whitelisted key
      the body carried) keeps its old value. */
  lemma UpdateColumns(t: Table, actor: Actor, id: string, body: seq<(string, Json)>, now: Json, k: string)
    requires DistinctKeys(body)
    requires Update(t, actor, id, body, now).Success?
    ensures var row' := Update(t, actor, id, body, now).value[id];
      && (k == "updated_at" ==> row'[k] == now)
      && (forall p :: p in body && p.0 == k && k in UpdatableColumns && k != "updated_at" ==> k in row' && row'[k] == p.1)
      && (k != "updated_at" && k in t[id] && (k !in UpdatableColumns || k !in Keys(body)) ==> k in row' && row'[k] == t[id][k])
  {
    var ups := Whitelisted(body);
    WhitelistedDistinct(body);
    ApplyUpdatesAt(t[id], ups, k);
    if k !in UpdatableColumns || k !in Keys(body) {
      forall p | p in ups
        ensures p.0 != k
      {
        assert p in body;
        var j :| 0 <= j < |body| && body[j] == p;
        assert Keys(body)[j] == p.0;
      }
    }
  }
}
