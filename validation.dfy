// The checks the request validators share: which required fields are
// missing, the "1"/"2" code check, and the millisecond-timestamp check, with
// the outcome of a validator as a value.
module Validation {
  import opened Values

  /** Why a payload is rejected. `Missing` is the "缺少欄位" error; its text
      lists `fields` after `lead` in Python's set iteration order, so the model
      keeps the set. `Invalid` carries the exact message of any other
      ValueError. */
  datatype Rejection = Missing(lead: string, fields: set<string>) | Invalid(message: string)

  /** The outcome of a validator: returned normally, raised ValueError, or
      raised another exception, which no handler catches. */
  datatype Check = Pass | Fail(rejection: Rejection) | Crash

  /** `[f for f in required if not data.get(f)]` as a set. */
  function MissingFields(data: map<string, Value>, required: set<string>): set<string> {
    set f | f in required && !Truthy(Get(data, f))
  }

  /** A field counts as missing when absent, None, 0, "" or empty alike, and
      a present truthy value never does. */
  lemma {:induction false} MissingMeansFalsy(data: map<string, Value>, required: set<string>, f: string)
    requires f in required
    ensures f !in data ==> f in MissingFields(data, required)
    ensures f in MissingFields(data[f := VInt(0)], required)
    ensures f in MissingFields(data[f := VStr("")], required)
    ensures f in MissingFields(data[f := VNone], required)
    ensures f in data && Truthy(data[f]) ==> f !in MissingFields(data, required)
  {
  }

  /** With nothing missing, every required field is present and truthy. */
  lemma {:induction false} NothingMissing(data: map<string, Value>, required: set<string>, f: string)
    requires MissingFields(data, required) == {}
    requires f in required
    ensures f in data && Truthy(data[f])
  {
    assert f !in MissingFields(data, required);
    assert Truthy(Get(data, f));
  }

  /** Nothing is missing exactly when every required field is present and
      truthy. */
  lemma {:induction false} NoneMissingIffAllTruthy(d: map<string, Value>, required: set<string>)
    ensures MissingFields(d, required) == {} <==> forall f :: f in required ==> f in d && Truthy(d[f])
  {
    if MissingFields(d, required) == {} {
      forall f | f in required ensures f in d && Truthy(d[f]) {
        NothingMissing(d, required, f);
      }
    } else {
      var f :| f in MissingFields(d, required);
      assert !Truthy(Get(d, f));
    }
  }

  /** `str(v) in {"1", "2"}`: the side and margin-type codes. */
  predicate CodeOk(v: Value) {
    Str(v) == "1" || Str(v) == "2"
  }

  /** The smallest millisecond timestamp accepted, 10**12. */
  const MinMillis: int := 1000000000000

  /** The timestamp check as copy-signal writes it: `int(float(v))` failing
      and the value being below 10**12 raise different messages. */
  function MillisCheck(num: NumberSyntax, v: Value, notNumber: string, tooShort: string): Option<Rejection> {
    match IntOfFloat(num, v)
    case None => Some(Invalid(notNumber))
    case Some(ms) => if ms < MinMillis then Some(Invalid(tooShort)) else None
  }

  /** The timestamp check as trade-summary and scalp-update write it: the
      "too short" ValueError is raised inside the `try` whose handler catches
      ValueError, so it is re-raised with the "not a number" message. */
  function MillisCheckRewrapped(num: NumberSyntax, v: Value, notNumber: string, tooShort: string): Option<Rejection> {
    match IntOfFloat(num, v)
    case None => Some(Invalid(notNumber))
    case Some(ms) => if ms < MinMillis then Some(Invalid(notNumber)) else None
  }

  /** The intended check tells the two failures apart. */
  lemma {:induction false} MillisCheckReasons(num: NumberSyntax, v: Value, notNumber: string, tooShort: string)
    requires notNumber != tooShort
    ensures MillisCheck(num, v, notNumber, tooShort) == None <==>
      IntOfFloat(num, v).Some? && IntOfFloat(num, v).value >= MinMillis
    ensures MillisCheck(num, v, notNumber, tooShort) == Some(Invalid(notNumber)) <==> IntOfFloat(num, v).None?
    ensures MillisCheck(num, v, notNumber, tooShort) == Some(Invalid(tooShort)) <==>
      IntOfFloat(num, v).Some? && IntOfFloat(num, v).value < MinMillis
  {
  }

  /** As written, a well-formed number below 10**12 is reported as not a
      number, and the "too short" message is never produced. */
  lemma {:induction false} RewrapHidesReason(num: NumberSyntax, ms: int, notNumber: string, tooShort: string)
    requires ms < MinMillis && notNumber != tooShort
    ensures MillisCheckRewrapped(num, VInt(ms), notNumber, tooShort) == Some(Invalid(notNumber))
    ensures MillisCheck(num, VInt(ms), notNumber, tooShort) == Some(Invalid(tooShort))
    ensures forall v :: MillisCheckRewrapped(num, v, notNumber, tooShort) != Some(Invalid(tooShort))
  {
  }

  /** Both checks accept and reject the same values. */
  lemma {:induction false} RewrapSameVerdict(num: NumberSyntax, v: Value, notNumber: string, tooShort: string)
    ensures MillisCheckRewrapped(num, v, notNumber, tooShort).None? <==> MillisCheck(num, v, notNumber, tooShort).None?
  {
  }

  /** The threshold on integers: 10**12 is accepted, anything below is not
      (999999999999 and 1700000000 among them). */
  lemma {:induction false} MillisThreshold(num: NumberSyntax, ms: int, notNumber: string, tooShort: string)
    ensures MillisCheck(num, VInt(ms), notNumber, tooShort).None? <==> ms >= 1000000000000
  {
  }

  /** Checks run in order until the first one that does not pass: that
      one's outcome, or Pass when every check passes. */
  function FirstFailure(checks: seq<Check>): Check
    decreases |checks|
  {
    if checks == [] then Pass
    else
      var r := FirstFailure(checks[..|checks| - 1]);
      if r != Pass then r else checks[|checks| - 1]
  }

  /** The checks pass together exactly when each passes; otherwise the
      outcome is the first check that does not pass. */
  lemma {:induction false} FirstFailureSpec(checks: seq<Check>)
    ensures FirstFailure(checks) == Pass <==> forall j :: 0 <= j < |checks| ==> checks[j] == Pass
    ensures FirstFailure(checks) != Pass ==>
      exists j :: 0 <= j < |checks| && checks[j] == FirstFailure(checks) && forall k :: 0 <= k < j ==> checks[k] == Pass
    decreases |checks|
  {
    if checks != [] {
      var init := checks[..|checks| - 1];
      FirstFailureSpec(init);
      assert forall j :: 0 <= j < |init| ==> init[j] == checks[j];
    }
  }

  /** One step of the walk: after a passing prefix, the outcome of the
      next prefix is the next check. */
  lemma {:induction false} FirstFailureNext(checks: seq<Check>, i: int)
    requires 0 <= i < |checks| && FirstFailure(checks[..i]) == Pass
    ensures FirstFailure(checks[..i + 1]) == checks[i]
  {
    assert checks[..i + 1][..i] == checks[..i];
  }

  /** Once a prefix of the checks has failed, the later checks do not
      matter. */
  lemma {:induction false} FirstFailureStops(checks: seq<Check>, k: int)
    requires 0 <= k <= |checks| && FirstFailure(checks[..k]) != Pass
    ensures FirstFailure(checks) == FirstFailure(checks[..k])
    decreases |checks| - k
  {
    if k < |checks| {
      var next := checks[..k + 1];
      assert next[..k] == checks[..k];
      FirstFailureStops(checks, k + 1);
    } else {
      assert checks[..k] == checks;
    }
  }
}
