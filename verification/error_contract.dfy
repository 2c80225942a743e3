/** The error-contract validator `is_valid_gdpr_api_errors`: does a 403/500 body
    carry `errors` shaped as the Profile back-end expects? */
module ErrorContract {
  import opened Wrappers
  import opened Json

  /** Returning `True`, returning `False`, or the `AttributeError` that escapes
      when an element of `errors` is not a dict. */
  datatype Validity = Accept | Reject | Raise

  const ExpectedKeys: set<string> := {"code", "message"}

  // ---- The declarative reading of a well-shaped entry ----

  /** Each locale key is non-empty and each text is a string (possibly empty). */
  predicate GoodTexts(ms: Members) {
    forall i :: 0 <= i < |ms| ==> ms[i].0 != "" && ms[i].1.Str?
  }

  /** `message`: a non-empty object of non-empty keys to strings. */
  predicate ConformingMessage(m: Json) {
    m.Obj? && |m.members| > 0 && GoodTexts(m.members)
  }

  /** An entry the validator lets through: exactly the keys `code` and `message`,
      `code` a non-empty string, `message` a conforming message object. */
  ghost predicate ConformingEntry(e: Json) {
    && e.Obj?
    && Keys(e.members) == ExpectedKeys
    && (exists c :: c != "" && Get(e.members, "code") == Some(Str(c)))
    && (exists m :: ConformingMessage(m) && Get(e.members, "message") == Some(m))
  }

  // ---- The validator as written ----

  /** The loop over `error["message"].items()`: rejects at the first empty key or
      non-string value. */
  function CheckTexts(ms: Members): (r: Validity)
    ensures r != Raise
    ensures r == Accept <==> GoodTexts(ms)
  {
    if |ms| == 0 then Accept
    else if ms[0].0 == "" || !ms[0].1.Str? then Reject
    else
      var r := CheckTexts(ms[1..]);
      assert GoodTexts(ms) <==> GoodTexts(ms[1..]) by {
        if GoodTexts(ms[1..]) {
          forall i | 0 <= i < |ms| ensures ms[i].0 != "" && ms[i].1.Str? {
            if i > 0 { assert ms[i] == ms[1..][i - 1]; }
          }
        }
      }
      r
  }

  /** One iteration of `for error in errors`, with its checks in source order:
      `Accept` means the loop moves on to the next entry. */
  function CheckEntry(e: Json): (r: Validity)
    ensures r == Raise <==> !e.Obj?
    ensures r == Accept <==> ConformingEntry(e)
  {
    if !e.Obj? then Raise
    else if Keys(e.members) != ExpectedKeys then Reject
    else
      var code := Field(e.members, "code");
      var message := Field(e.members, "message");
      if !Truthy(code) || !code.Str? then Reject
      else if !Truthy(message) || !message.Obj? then Reject
      else CheckTexts(message.members)
  }

  /** The whole loop: the first entry that does not pass decides the outcome. */
  function CheckEntries(items: seq<Json>): (r: Validity)
    ensures r == Accept <==> AllConforming(items)
    ensures r == Raise <==> FailsFirstOnNonObject(items)
  {
    if |items| == 0 then Accept
    else
      AllConformingCons(items);
      FailsFirstCons(items);
      var first := CheckEntry(items[0]);
      if first != Accept then first else CheckEntries(items[1..])
  }

  ghost predicate AllConforming(items: seq<Json>) {
    forall i :: 0 <= i < |items| ==> ConformingEntry(items[i])
  }

  /** A list conforms exactly when its head and its tail do. */
  lemma AllConformingCons(items: seq<Json>)
    requires |items| > 0
    ensures AllConforming(items) <==> ConformingEntry(items[0]) && AllConforming(items[1..])
  {
  }

  /** The loop raises on a list exactly when its head is not a dict, or the head
      passes and the loop raises on the tail. */
  lemma FailsFirstCons(items: seq<Json>)
    requires |items| > 0
    ensures FailsFirstOnNonObject(items) <==>
      !items[0].Obj? || (ConformingEntry(items[0]) && FailsFirstOnNonObject(items[1..]))
  {
    if items[0].Obj? {
      if FailsFirstOnNonObject(items) {
        FailsFirstOnTail(items);
      } else if ConformingEntry(items[0]) && FailsFirstOnNonObject(items[1..]) {
        FailsFirstFromTail(items);
      }
    }
  }

  lemma FailsFirstOnTail(items: seq<Json>)
    requires |items| > 0 && items[0].Obj? && FailsFirstOnNonObject(items)
    ensures ConformingEntry(items[0]) && FailsFirstOnNonObject(items[1..])
  {
    var i :| 0 <= i < |items| && !items[i].Obj? && forall j :: 0 <= j < i ==> ConformingEntry(items[j]);
    assert i > 0;
    var tail := items[1..];
    assert !tail[i - 1].Obj?;
    assert forall j :: 0 <= j < i - 1 ==> ConformingEntry(tail[j]) by {
      forall j | 0 <= j < i - 1 ensures ConformingEntry(tail[j]) {
        assert tail[j] == items[j + 1];
      }
    }
  }

  lemma FailsFirstFromTail(items: seq<Json>)
    requires |items| > 0 && ConformingEntry(items[0]) && FailsFirstOnNonObject(items[1..])
    ensures FailsFirstOnNonObject(items)
  {
    var tail := items[1..];
    var i :| 0 <= i < |tail| && !tail[i].Obj? && forall j :: 0 <= j < i ==> ConformingEntry(tail[j]);
    assert !items[i + 1].Obj?;
    assert forall j :: 0 <= j < i + 1 ==> ConformingEntry(items[j]) by {
      forall j | 0 <= j < i + 1 ensures ConformingEntry(items[j]) {
        if j > 0 { assert items[j] == tail[j - 1]; }
      }
    }
  }

  /** Some entry is not an object, and every entry before it passes. */
  ghost predicate FailsFirstOnNonObject(items: seq<Json>) {
    exists i :: 0 <= i < |items| && !items[i].Obj? && forall j :: 0 <= j < i ==> ConformingEntry(items[j])
  }

  /** `is_valid_gdpr_api_errors(response_json)`. */
  function IsValidErrors(response: Json): (r: Validity)
    ensures !Truthy(response) || !response.Obj? ==> r == Reject
    ensures response.Obj? && Field(response.members, "errors") in {Null, Bool(false), Bool(true)} ==> r == Reject
    ensures response.Obj? && Field(response.members, "errors").Num? ==> r == Reject
  {
    if !Truthy(response) then Reject
    else if !response.Obj? then Reject
    else
      match Iterate(Field(response.members, "errors"))
      case None => Reject
      case Some(items) => CheckEntries(items)
  }

  // ---- What the validator decides, stated over the whole body ----

  /** Accepted exactly when the body is an object with an `errors` member that is
      an array of conforming entries (the empty array included), or is an empty
      string or an empty object, both of which iterate over nothing. */
  lemma AcceptedIff(response: Json)
    ensures IsValidErrors(response) == Accept <==>
      && response.Obj?
      && "errors" in Keys(response.members)
      && var e := Field(response.members, "errors");
         || (e.Arr? && forall i :: 0 <= i < |e.elems| ==> ConformingEntry(e.elems[i]))
         || e == Str("")
         || e == Obj([])
  {
  }

  /** The `AttributeError` escapes exactly when `errors` is a non-empty string, a
      non-empty object, or an array whose first non-passing entry is not a dict. */
  lemma RaisesIff(response: Json)
    ensures IsValidErrors(response) == Raise <==>
      && response.Obj?
      && "errors" in Keys(response.members)
      && var e := Field(response.members, "errors");
         || (e.Str? && e.s != "")
         || (e.Obj? && e.members != [])
         || (e.Arr? && FailsFirstOnNonObject(e.elems))
  {
  }

  /** A missing, `null`, boolean or numeric `errors` is rejected, never raised on. */
  lemma NonIterableErrorsRejected(response: Json)
    requires response.Obj?
    requires var e := Field(response.members, "errors"); e.Null? || e.Bool? || e.Num?
    ensures IsValidErrors(response) == Reject
  {
  }

  /** When every entry is a dict, one entry without a `message` member makes the
      whole body non-conforming, and the validator returns `False` (it does not raise). */
  lemma EntryWithoutMessageRejected(response: Json, k: nat)
    requires response.Obj?
    requires Field(response.members, "errors").Arr?
    requires var es := Field(response.members, "errors").elems;
      && (forall i :: 0 <= i < |es| ==> es[i].Obj?)
      && k < |es|
      && "message" !in Keys(es[k].members)
    ensures IsValidErrors(response) == Reject
  {
  }

  // ---- The strict schema, and where the validator is looser ----

  /** The strict reading of the error contract: a non-empty `errors` array of
      entries with a non-empty `code` and a non-empty `message` object whose keys
      and texts are all non-empty strings. */
  ghost predicate StrictlyConforming(response: Json) {
    && response.Obj?
    && var e := Field(response.members, "errors");
    && e.Arr? && |e.elems| > 0
    && forall i :: 0 <= i < |e.elems| ==> StrictEntry(e.elems[i])
  }

  ghost predicate StrictEntry(e: Json) {
    && e.Obj?
    && Keys(e.members) == ExpectedKeys
    && (exists c :: c != "" && Get(e.members, "code") == Some(Str(c)))
    && (exists m :: StrictMessage(m) && Get(e.members, "message") == Some(m))
  }

  predicate StrictMessage(m: Json) {
    && m.Obj? && |m.members| > 0
    && forall i :: 0 <= i < |m.members| ==>
         m.members[i].0 != "" && m.members[i].1.Str? && m.members[i].1.s != ""
  }

  /** Every strictly conforming body is accepted. */
  lemma StrictlyConformingAccepted(response: Json)
    requires StrictlyConforming(response)
    ensures IsValidErrors(response) == Accept
  {
    var es := Field(response.members, "errors").elems;
    assert "errors" in Keys(response.members);
    forall i | 0 <= i < |es| ensures ConformingEntry(es[i]) {
      assert StrictEntry(es[i]);
      var m :| StrictMessage(m) && Get(es[i].members, "message") == Some(m);
      assert ConformingMessage(m);
    }
    AcceptedIff(response);
  }

  /** An entry with exactly the keys `code` and `message`, in that order. */
  function Entry(code: Json, message: Json): Json {
    Obj([("code", code), ("message", message)])
  }

  lemma EntryKeys(code: Json, message: Json)
    ensures Keys(Entry(code, message).members) == ExpectedKeys
  {
    var ms := Entry(code, message).members;
    KeysCons(ms);
    KeysCons(ms[1..]);
  }

  /** An `errors` member that iterates over nothing (an empty array, string or
      object) is accepted, though the strict reading wants at least one entry. */
  lemma VacuousErrorsAccepted(response: Json)
    requires response.Obj?
    requires Get(response.members, "errors") in {Some(Arr([])), Some(Str("")), Some(Obj([]))}
    ensures IsValidErrors(response) == Accept
    ensures !StrictlyConforming(response)
  {
  }

  /** A message text may be empty: the validator accepts it, the strict reading does not. */
  lemma EmptyTextAccepted()
    ensures var body := Obj([("errors", Arr([Entry(Str("E1"), Obj([("en", Str(""))]))]))]);
      IsValidErrors(body) == Accept && !StrictlyConforming(body)
  {
    var e := Entry(Str("E1"), Obj([("en", Str(""))]));
    var body := Obj([("errors", Arr([e]))]);
    EmptyTextEntry();
    assert Field(body.members, "errors") == Arr([e]);
  }

  /** The entry of `EmptyTextAccepted` passes the validator's checks but not the strict ones. */
  lemma EmptyTextEntry()
    ensures var e := Entry(Str("E1"), Obj([("en", Str(""))]));
      ConformingEntry(e) && !StrictEntry(e)
  {
    var m := Obj([("en", Str(""))]);
    var e := Entry(Str("E1"), m);
    EntryKeys(Str("E1"), m);
    assert Get(e.members, "code") == Some(Str("E1"));
    assert Get(e.members, "message") == Some(m);
    assert GoodTexts(m.members);
    assert !StrictMessage(m) by { assert m.members[0].1.s == ""; }
  }

  /** A well-formed entry is accepted. */
  lemma ExampleAccepted()
    ensures IsValidErrors(Obj([("errors", Arr([Entry(Str("E1"), Obj([("en", Str("bad"))]))]))])) == Accept
  {
    EntryKeys(Str("E1"), Obj([("en", Str("bad"))]));
  }

  /** An empty `code` is rejected. */
  lemma ExampleEmptyCode()
    ensures IsValidErrors(Obj([("errors", Arr([Entry(Str(""), Obj([("en", Str("bad"))]))]))])) == Reject
  {
  }

  /** An empty `message` object is rejected. */
  lemma ExampleEmptyMessage()
    ensures IsValidErrors(Obj([("errors", Arr([Entry(Str("E1"), Obj([]))]))])) == Reject
  {
  }

  /** A plain-string `errors` is iterated character by character and raises. */
  lemma ExampleStringErrors()
    ensures IsValidErrors(Obj([("errors", Str("not-a-list"))])) == Raise
  {
  }
}
