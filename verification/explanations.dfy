/** How the tester reads the API's answer: `get_query_explanation` and
    `get_delete_explanation`, with colour codes and exact wording abstracted away. */
module Explanations {
  import opened Wrappers
  import opened Json
  import opened ErrorContract

  /** The texts of `RESPONSE_CODE_EXPLANATION`, one per listed status. */
  datatype Explanation =
    | ValidationFailed    // 400
    | BadCredentials      // 401
    | DeletionDenied      // 403
    | DataNotFound        // 404
    | UnexpectedError     // 500

  /** `RESPONSE_CODE_EXPLANATION`. */
  function StatusTable(): (t: map<int, Explanation>)
    ensures t.Keys == {400, 401, 403, 404, 500}
    ensures forall s, s' :: s in t && s' in t && t[s] == t[s'] ==> s == s'
    ensures t[403] == DeletionDenied && t[500] == UnexpectedError
  {
    map[400 := ValidationFailed, 401 := BadCredentials, 403 := DeletionDenied,
        404 := DataNotFound, 500 := UnexpectedError]
  }

  /** The headline after "Response status code: N". */
  datatype Outcome =
    | Success             // query 200 with JSON: "Success." then "The response JSON:"
    | Failure             // query 200 without JSON: "Failure."
    | Deleted             // delete 204, not a dry run: "The data has been deleted"
    | Deletable           // delete 204, dry run: "The data can be deleted"
    | Listed(e: Explanation)
    | UnknownStatus       // "Unknown response status code"

  /** The "(The errors are [NOT] in the correct format)" line, when there is one. */
  datatype FormatCheck = NotChecked | CorrectFormat | IncorrectFormat

  /** What is appended after the headline. */
  datatype Rendering =
    | NothingAppended
    | PrettyJson(value: Json)     // json.dumps(value, indent=4)
    | RawContent(raw: string)     // "No content ... Raw content:" then the raw text
    | NoContent                   // "No content in response or JSON parsing failed."

  /** The explanation, in the order its parts are concatenated. */
  datatype Verdict = Verdict(status: int, outcome: Outcome, format: FormatCheck, body: Rendering)

  /** A query body: the raw text and what `json.loads` made of it (`None` when it
      raised `JSONDecodeError`). */
  datatype QueryBody = QueryBody(raw: string, parsed: Option<Json>)

  /** `json.loads` raises on text holding no JSON value, the empty text in particular. */
  predicate ParsedFaithfully(b: QueryBody) {
    b.raw == "" ==> b.parsed == None
  }

  /** A delete body as `await response.json()` sees it: a non-JSON content type
      (`ContentTypeError`, caught), malformed JSON (`JSONDecodeError`, not caught),
      or a decoded value. */
  datatype DeleteBody = NotJsonContentType | MalformedJson | JsonBody(value: Json)

  /** `get_query_explanation(response)`. */
  function QueryVerdict(status: int, body: QueryBody): (v: Verdict)
    ensures v.status == status && v.format == NotChecked
    ensures v.outcome in {Success, Failure} <==> status == 200
    ensures v.outcome == Success <==> status == 200 && body.parsed.Some?
    ensures v.outcome == UnknownStatus <==> status != 200 && status !in StatusTable().Keys - {403}
    ensures status != 200 && status != 403 && status in StatusTable() ==>
      v.outcome == Listed(StatusTable()[status])
    ensures body.parsed.Some? ==> v.body == PrettyJson(body.parsed.value)
    ensures body.parsed.None? ==> v.body == RawContent(body.raw)
  {
    var rendering := match body.parsed
      case Some(j) => PrettyJson(j)
      case None => RawContent(body.raw);
    if status == 200 then
      Verdict(status, if body.parsed.Some? then Success else Failure, NotChecked, rendering)
    else if status != 403 && status in StatusTable() then
      Verdict(status, Listed(StatusTable()[status]), NotChecked, rendering)
    else
      Verdict(status, UnknownStatus, NotChecked, rendering)
  }

  /** `get_delete_explanation(response, dry_run)`; `dry_run` already reduced to
      its truthiness. */
  function DeleteVerdict(status: int, body: DeleteBody, dryRun: bool): (r: Result<Verdict>)
    ensures r.Raised? <==> (status in {403, 500} &&
      (body.MalformedJson? || (body.JsonBody? && IsValidErrors(body.value) == Raise)))
    ensures r.Returned? ==> r.value.status == status
    ensures r.Returned? && status != 204 ==>
      r.value.outcome == (if status in StatusTable() then Listed(StatusTable()[status]) else UnknownStatus)
    ensures r.Returned? && status == 204 ==>
      r.value == Verdict(204, if dryRun then Deletable else Deleted, NotChecked, NothingAppended)
  {
    if status == 204 then
      Returned(Verdict(status, if !dryRun then Deleted else Deletable, NotChecked, NothingAppended))
    else
      var outcome := if status in StatusTable() then Listed(StatusTable()[status]) else UnknownStatus;
      if status in {403, 500} then
        match body
        case NotJsonContentType => Returned(Verdict(status, outcome, NotChecked, NoContent))
        case MalformedJson => Raised(JsonDecodeError)
        case JsonBody(j) =>
          match IsValidErrors(j)
          case Raise => Raised(AttributeError)
          case Accept => Returned(Verdict(status, outcome, CorrectFormat, PrettyJson(j)))
          case Reject => Returned(Verdict(status, outcome, IncorrectFormat, PrettyJson(j)))
      else
        Returned(Verdict(status, outcome, NotChecked, NothingAppended))
  }

  // ---- How the two interpreters relate ----

  /** The dry-run flag changes only the wording of a successful deletion. */
  lemma DryRunOnlyRewordsDeletion(status: int, body: DeleteBody)
    ensures status != 204 ==> DeleteVerdict(status, body, true) == DeleteVerdict(status, body, false)
    ensures status == 204 ==>
      && DeleteVerdict(status, body, true).value.outcome == Deletable
      && DeleteVerdict(status, body, false).value.outcome == Deleted
      && DeleteVerdict(status, body, true).value.(outcome := Deleted) == DeleteVerdict(status, body, false).value
  {
  }

  /** Only a 403 or 500 answer has its body read; any other answer is explained
      from its status alone, never raises, and appends nothing. */
  lemma DeleteBodyReadOnlyOnDenialOrError(status: int, b1: DeleteBody, b2: DeleteBody, dryRun: bool)
    requires status !in {403, 500}
    ensures DeleteVerdict(status, b1, dryRun) == DeleteVerdict(status, b2, dryRun)
    ensures DeleteVerdict(status, b1, dryRun).Returned?
    ensures DeleteVerdict(status, b1, dryRun).value.format == NotChecked
    ensures DeleteVerdict(status, b1, dryRun).value.body == NothingAppended
  {
  }

  /** On a 403 or 500 with a JSON body, the format line is the validator's answer
      and the decoded body is appended. */
  lemma DeleteFormatFollowsValidator(status: int, j: Json, dryRun: bool)
    requires status in {403, 500}
    requires IsValidErrors(j) != Raise
    ensures DeleteVerdict(status, JsonBody(j), dryRun).Returned?
    ensures DeleteVerdict(status, JsonBody(j), dryRun).value.format == CorrectFormat <==> IsValidErrors(j) == Accept
    ensures DeleteVerdict(status, JsonBody(j), dryRun).value.format == IncorrectFormat <==> IsValidErrors(j) == Reject
    ensures DeleteVerdict(status, JsonBody(j), dryRun).value.body == PrettyJson(j)
  {
  }

  /** A body that is not JSON is reported as absent content, not as a format violation. */
  lemma NonJsonBodyIsNoContent(status: int, dryRun: bool)
    requires status in {403, 500}
    ensures DeleteVerdict(status, NotJsonContentType, dryRun)
      == Returned(Verdict(status, Listed(StatusTable()[status]), NotChecked, NoContent))
  {
  }

  /** Both interpreters read a status through the same table, except that the
      query treats 403 as unknown while the delete explains it as a denial. */
  lemma InterpretersShareTheTable(status: int, qb: QueryBody, db: DeleteBody, dryRun: bool)
    requires status != 200 && status != 204
    requires DeleteVerdict(status, db, dryRun).Returned?
    ensures status != 403 ==> QueryVerdict(status, qb).outcome == DeleteVerdict(status, db, dryRun).value.outcome
    ensures status == 403 ==>
      && QueryVerdict(status, qb).outcome == UnknownStatus
      && DeleteVerdict(status, db, dryRun).value.outcome == Listed(DeletionDenied)
  {
  }

  /** Each listed status other than 403 gets its own table text from both
      interpreters, and a delete answered 200 is an unknown status. */
  lemma ListedStatusesExplained(qb: QueryBody, db: DeleteBody, dryRun: bool)
    ensures QueryVerdict(400, qb).outcome == Listed(ValidationFailed)
    ensures QueryVerdict(401, qb).outcome == Listed(BadCredentials)
    ensures QueryVerdict(404, qb).outcome == Listed(DataNotFound)
    ensures QueryVerdict(500, qb).outcome == Listed(UnexpectedError)
    ensures DeleteVerdict(400, db, dryRun).value.outcome == Listed(ValidationFailed)
    ensures DeleteVerdict(401, db, dryRun).value.outcome == Listed(BadCredentials)
    ensures DeleteVerdict(404, db, dryRun).value.outcome == Listed(DataNotFound)
    ensures DeleteVerdict(200, db, dryRun) == Returned(Verdict(200, UnknownStatus, NotChecked, NothingAppended))
  {
  }

  /** A 200 answer with an empty body is a failure, not a success. */
  lemma EmptyQueryAnswerFails(body: QueryBody)
    requires ParsedFaithfully(body) && body.raw == ""
    ensures QueryVerdict(200, body).outcome == Failure
    ensures QueryVerdict(200, body).body == RawContent("")
  {
  }

  /** A 200 answer is a success for every JSON value, even `null`, `""` or `[]`. */
  lemma AnyJsonQueryAnswerSucceeds(raw: string, j: Json)
    ensures QueryVerdict(200, QueryBody(raw, Some(j))).outcome == Success
  {
  }

  /** A 403 whose errors follow the strict contract is reported as correctly formatted. */
  lemma StrictErrorsOnDenialAreCorrect(j: Json, dryRun: bool)
    requires StrictlyConforming(j)
    ensures DeleteVerdict(403, JsonBody(j), dryRun) ==
      Returned(Verdict(403, Listed(DeletionDenied), CorrectFormat, PrettyJson(j)))
  {
    StrictlyConformingAccepted(j);
  }

  /** A 403 whose `errors` are all objects but one lacks `message` is reported as
      incorrectly formatted. */
  lemma MissingMessageOnDenialIsIncorrect(j: Json, k: nat, dryRun: bool)
    requires j.Obj? && Field(j.members, "errors").Arr?
    requires var es := Field(j.members, "errors").elems;
      && (forall i :: 0 <= i < |es| ==> es[i].Obj?)
      && k < |es|
      && "message" !in Keys(es[k].members)
    ensures DeleteVerdict(403, JsonBody(j), dryRun) ==
      Returned(Verdict(403, Listed(DeletionDenied), IncorrectFormat, PrettyJson(j)))
  {
  }
}
