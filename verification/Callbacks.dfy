/** Parsing one element of an event's callbacks array. */
module Callbacks {
  import opened Basics
  import opened Json
  import opened Table
  import opened Config
  import Decimal

  const MAX_EXTERNAL_TIMEOUT_SECS: nat := 7 * 86_400

  datatype Reason =
    | NotArray | TooManyCallbacks | NotAnObject | MissingName | NameNotString | NameInvalid
    | MissingUrl | UrlNotString | UrlRejected | MissingSigningKeyId | InvalidMode
    | HeadersNotObject | HeaderNameInvalid | HeaderReserved | HeaderDuplicate | HeaderValueInvalid
    | MaxAttemptsNotInteger | MaxAttemptsOutOfRange
    | BackoffNotArray | BackoffEmptyList | BackoffElementInvalid | BackoffElementOutOfRange
    | TimeoutNotInteger | TimeoutOutOfRange | ExternalTimeoutNotInteger | ExternalTimeoutOutOfRange
    | MaxCompletionCyclesNotInteger | MaxCompletionCyclesOutOfRange | ExternalMissingTimeout | DuplicateName
    | PayloadTooLarge

  /** The settings, the URL check, which rests on URL parsing outside this model, and the message
      recorded for each reason. */
  datatype Rules = Rules(settings: DispatchSettings, urlOk: string -> bool, message: Reason -> string)

  /** `name` is the callback's name, or its position in brackets. */
  datatype Invalid = Invalid(name: string, reason: Reason)

  datatype Parsed = Parsed(valid: seq<Target>, invalid: seq<Invalid>)

  datatype NamedError = NotFound | Rejected(reason: Reason)

  // ---- field parsers -----------------------------------------------------------------

  function Position(index: nat): string {
    "[" + Decimal.Digits(index) + "]"
  }

  /** ^[a-z][a-z0-9_]{2,63}$ */
  predicate ValidName(name: string) {
    && 3 <= |name| <= 64
    && 'a' <= name[0] <= 'z'
    && (forall i :: 1 <= i < |name| ==> 'a' <= name[i] <= 'z' || Decimal.IsDigit(name[i]) || name[i] == '_')
  }

  function ParseMode(j: Option<Json>): Result<Mode, Reason> {
    match if j.Some? then AsStr(j.value) else None
    case None => Ok(Managed)
    case Some(s) => if s == "managed" then Ok(Managed) else if s == "external" then Ok(External) else Err(InvalidMode)
  }

  /** An optional integer field within bounds, or the default. */
  function ParseBounded(j: Option<Json>, default: nat, max: nat, notInteger: Reason, outOfRange: Reason)
    : Result<nat, Reason>
  {
    if j.None? then Ok(default)
    else if AsU64(j.value).None? then Err(notInteger)
    else if 1 <= AsU64(j.value).value <= max then Ok(AsU64(j.value).value)
    else Err(outOfRange)
  }

  function ParseExternalTimeout(j: Option<Json>): Result<Option<nat>, Reason> {
    if j.None? then Ok(None)
    else if AsU64(j.value).None? then Err(ExternalTimeoutNotInteger)
    else if 1 <= AsU64(j.value).value <= MAX_EXTERNAL_TIMEOUT_SECS then Ok(Some(AsU64(j.value).value))
    else Err(ExternalTimeoutOutOfRange)
  }

  function ParseBackoffItems(items: seq<Json>): (r: Result<seq<nat>, Reason>)
    ensures r.Ok? ==> |r.value| == |items|
    ensures r.Ok? ==> forall i :: 0 <= i < |items| ==>
              items[i] == Int(r.value[i]) && 1 <= r.value[i] <= MAX_BACKOFF_ELEMENT_SECS
  {
    if items == [] then Ok([])
    else
      var n := AsU64(items[0]);
      if n.None? || n.value == 0 then Err(BackoffElementInvalid)
      else if n.value > MAX_BACKOFF_ELEMENT_SECS then Err(BackoffElementOutOfRange)
      else
        var rest := ParseBackoffItems(items[1..]);
        if rest.Err? then rest else Ok([n.value] + rest.value)
  }

  function ParseBackoff(j: Option<Json>, default: seq<nat>): Result<seq<nat>, Reason> {
    if j.None? then Ok(default)
    else if !j.value.Arr? then Err(BackoffNotArray)
    else if j.value.items == [] then Err(BackoffEmptyList)
    else ParseBackoffItems(j.value.items)
  }

  // ---- headers -------------------------------------------------------------------------

  function LowerChar(c: char): char {
    if 'A' <= c <= 'Z' then c - 'A' + 'a' else c
  }

  function Lower(s: string): (r: string)
    ensures |r| == |s| && forall i :: 0 <= i < |s| ==> r[i] == LowerChar(s[i])
  {
    seq(|s|, i requires 0 <= i < |s| => LowerChar(s[i]))
  }

  /** Section 3.2.6 of RFC 7230. */
  predicate TokenChar(c: char) {
    c in "!#$%&'*+-.^_`|~" || Decimal.IsDigit(c) || 'A' <= c <= 'Z' || 'a' <= c <= 'z'
  }

  predicate ValidHeaderName(s: string) {
    s != [] && forall i :: 0 <= i < |s| ==> TokenChar(s[i])
  }

  predicate ValidHeaderValue(s: string) {
    forall i :: 0 <= i < |s| ==> s[i] == '\t' || (0x20 as char <= s[i] < 0x7f as char)
  }

  const RESERVED_HEADERS: seq<string> := [
    "authorization", "cookie", "host", "content-length", "content-type", "transfer-encoding",
    "connection", "upgrade", "expect", "te", "trailer", "proxy-authorization"]

  predicate ReservedHeader(lower: string) {
    lower in RESERVED_HEADERS || "x-outbox-" <= lower
  }

  /** Why one header field is refused, given the lower-cased names already seen. */
  function HeaderProblem(field: (string, Json), seen: set<string>): Option<Reason> {
    if !ValidHeaderName(field.0) then Some(HeaderNameInvalid)
    else if ReservedHeader(Lower(field.0)) then Some(HeaderReserved)
    else if Lower(field.0) in seen then Some(HeaderDuplicate)
    else if !field.1.Str? || !ValidHeaderValue(field.1.s) then Some(HeaderValueInvalid)
    else None
  }

  function LowerNames(fields: seq<(string, Json)>): set<string> {
    if fields == [] then {} else LowerNames(fields[..|fields| - 1]) + {Lower(fields[|fields| - 1].0)}
  }

  /** The first field refused, if any. */
  function FirstProblem(fields: seq<(string, Json)>, n: nat): Option<Reason>
    requires n <= |fields|
  {
    if n == 0 then None
    else if FirstProblem(fields, n - 1).Some? then FirstProblem(fields, n - 1)
    else HeaderProblem(fields[n - 1], LowerNames(fields[..n - 1]))
  }

  function HeaderMap(fields: seq<(string, Json)>): map<string, string> {
    if fields == [] then map[]
    else
      var (k, v) := fields[|fields| - 1];
      HeaderMap(fields[..|fields| - 1])[k := if v.Str? then v.s else ""]
  }

  function ParseHeaders(j: Option<Json>): Result<map<string, string>, Reason> {
    if j.None? then Ok(map[])
    else if !j.value.Obj? then Err(HeadersNotObject)
    else
      var problem := FirstProblem(j.value.fields, |j.value.fields|);
      if problem.Some? then Err(problem.value) else Ok(HeaderMap(j.value.fields))
  }

  lemma {:induction false} EarlierProblems(fields: seq<(string, Json)>, n: nat, i: nat)
    requires i < n <= |fields| && FirstProblem(fields, n).None?
    ensures HeaderProblem(fields[i], LowerNames(fields[..i])).None?
  {
    if i < n - 1 { EarlierProblems(fields, n - 1, i); }
  }

  lemma {:induction false} SeenBefore(fields: seq<(string, Json)>, i: nat)
    requires i < |fields|
    ensures Lower(fields[i].0) in LowerNames(fields)
  {
    if i < |fields| - 1 {
      SeenBefore(fields[..|fields| - 1], i);
      assert fields[..|fields| - 1][i] == fields[i];
    }
  }

  /** Accepted fields differ pairwise even in lower case. */
  lemma DistinctHeaders(fields: seq<(string, Json)>, i: nat, j: nat)
    requires i < j < |fields| && FirstProblem(fields, |fields|).None?
    ensures Lower(fields[i].0) != Lower(fields[j].0)
  {
    EarlierProblems(fields, |fields|, j);
    SeenBefore(fields[..j], i);
    assert fields[..j][i] == fields[i];
  }

  /** A header in the map comes from the last field of that name. */
  lemma {:induction false} HeaderSource(fields: seq<(string, Json)>, k: string) returns (i: nat)
    requires k in HeaderMap(fields)
    ensures i < |fields| && fields[i].0 == k && (fields[i].1.Str? ==> HeaderMap(fields)[k] == fields[i].1.s)
  {
    var n := |fields| - 1;
    if fields[n].0 == k { i := n; } else { i := HeaderSource(fields[..n], k); }
  }

  /** The loop of `parse_headers`. */
  method ParseHeadersLoop(val: Option<Json>) returns (r: Result<map<string, string>, Reason>)
    ensures r == ParseHeaders(val)
  {
    if val.None? { return Ok(map[]); }
    if !val.value.Obj? { return Err(HeadersNotObject); }
    var fields := val.value.fields;
    var headers: map<string, string> := map[];
    var seen: set<string> := {};
    for i := 0 to |fields|
      invariant FirstProblem(fields, i).None?
      invariant seen == LowerNames(fields[..i])
      invariant headers == HeaderMap(fields[..i])
    {
      var (k, v) := fields[i];
      if !ValidHeaderName(k) { ProblemStays(fields, i + 1); return Err(HeaderNameInvalid); }
      var lower := Lower(k);
      if ReservedHeader(lower) { ProblemStays(fields, i + 1); return Err(HeaderReserved); }
      if lower in seen { ProblemStays(fields, i + 1); return Err(HeaderDuplicate); }
      if !v.Str? || !ValidHeaderValue(v.s) { ProblemStays(fields, i + 1); return Err(HeaderValueInvalid); }
      assert fields[..i + 1][..i] == fields[..i];
      seen := seen + {lower};
      headers := headers[k := v.s];
    }
    assert fields[..|fields|] == fields;
    return Ok(headers);
  }

  lemma {:induction false} ProblemStays(fields: seq<(string, Json)>, n: nat)
    requires n <= |fields| && FirstProblem(fields, n).Some?
    ensures FirstProblem(fields, |fields|) == FirstProblem(fields, n)
    decreases |fields| - n
  {
    if n < |fields| { ProblemStays(fields, n + 1); }
  }

  /** The headers `deliver` sets itself. */
  const OWN_HEADERS: seq<string> := [
    "Content-Type", "X-Outbox-Event-Id", "X-Outbox-Delivery-Id", "X-Outbox-Callback-Name", "X-Outbox-Kind",
    "X-Outbox-Mode", "X-Outbox-Attempt", "X-Outbox-Signing-Key-Id", "X-Outbox-Signature"]

  /** No custom header repeats another or one `deliver` sets itself, in any mix of cases. */
  lemma HeadersNeverClash(j: Option<Json>, k1: string, k2: string, own: string)
    requires ParseHeaders(j).Ok? && k1 in ParseHeaders(j).value && k2 in ParseHeaders(j).value && own in OWN_HEADERS
    ensures ValidHeaderName(k1) && ValidHeaderValue(ParseHeaders(j).value[k1])
    ensures Lower(k1) == Lower(k2) ==> k1 == k2
    ensures Lower(k1) != Lower(own)
  {
    var fields := j.value.fields;
    var i1 := HeaderSource(fields, k1);
    var i2 := HeaderSource(fields, k2);
    EarlierProblems(fields, |fields|, i1);
    if i1 < i2 { DistinctHeaders(fields, i1, i2); }
    if i2 < i1 { DistinctHeaders(fields, i2, i1); }
    OwnHeadersReserved(own);
  }

  lemma OwnHeadersReserved(own: string)
    requires own in OWN_HEADERS
    ensures ReservedHeader(Lower(own))
  {
    if own == OWN_HEADERS[0] {
      assert Lower(own) == "content-type" == RESERVED_HEADERS[4];
    } else {
      assert "X-Outbox-" <= own;
      assert "x-outbox-" <= Lower(own);
    }
  }

  // ---- one callback ------------------------------------------------------------------------

  /** Everything but the name of a callback object, in the order the fields are checked. */
  function ParseBody(obj: Json, name: string, rules: Rules): Result<Target, Reason> {
    var c := rules.settings;
    var url := Get(obj, "url");
    if url.None? then Err(MissingUrl)
    else if !url.value.Str? then Err(UrlNotString)
    else if !rules.urlOk(url.value.s) then Err(UrlRejected)
    else
      var mode := ParseMode(Get(obj, "mode"));
      if mode.Err? then Err(mode.error)
      else
        var key := if Get(obj, "signing_key_id").Some? then AsStr(Get(obj, "signing_key_id").value) else None;
        if !c.allowUnsignedCallbacks && key.None? then Err(MissingSigningKeyId)
        else
          var headers := ParseHeaders(Get(obj, "headers"));
          if headers.Err? then Err(headers.error)
          else ParseLimits(obj, rules, Target(name, url.value.s, mode.value, key, headers.value, 0, [], 0, None, 0))
  }

  /** Completes a target with its retry and timeout settings. */
  function ParseLimits(obj: Json, rules: Rules, t: Target): Result<Target, Reason> {
    var c := rules.settings;
    var attempts := ParseBounded(Get(obj, "max_attempts"), c.maxAttempts, MAX_PER_CALLBACK_ATTEMPTS,
                                 MaxAttemptsNotInteger, MaxAttemptsOutOfRange);
    var backoff := ParseBackoff(Get(obj, "backoff_seconds"), c.backoffSecs);
    var timeout := ParseBounded(Get(obj, "timeout_seconds"), c.handlerTimeoutSecs, MAX_HANDLER_TIMEOUT_SECS,
                                TimeoutNotInteger, TimeoutOutOfRange);
    var external := ParseExternalTimeout(Get(obj, "external_completion_timeout_seconds"));
    var cycles := ParseBounded(Get(obj, "max_completion_cycles"), c.maxCompletionCycles, MAX_COMPLETION_CYCLES_LIMIT,
                               MaxCompletionCyclesNotInteger, MaxCompletionCyclesOutOfRange);
    if attempts.Err? then Err(attempts.error)
    else if backoff.Err? then Err(backoff.error)
    else if timeout.Err? then Err(timeout.error)
    else if external.Err? then Err(external.error)
    else if cycles.Err? then Err(cycles.error)
    else if t.mode.External? && external.value.None? then Err(ExternalMissingTimeout)
    else Ok(t.(maxAttempts := attempts.value, backoff := backoff.value, timeout := timeout.value,
               externalTimeout := external.value, maxCycles := cycles.value))
  }

  function ParseOne(element: Json, index: nat, rules: Rules): Result<Target, Invalid> {
    if !element.Obj? then Err(Invalid(Position(index), NotAnObject))
    else
      var name := Get(element, "name");
      if name.None? then Err(Invalid(Position(index), MissingName))
      else if !name.value.Str? then Err(Invalid(Position(index), NameNotString))
      else if !ValidName(name.value.s) then Err(Invalid(name.value.s, NameInvalid))
      else
        var body := ParseBody(element, name.value.s, rules);
        if body.Ok? then Ok(body.value) else Err(Invalid(name.value.s, body.error))
  }

  /** The string under "name", if there is one. */
  function NameOf(element: Json): Option<string> {
    if Get(element, "name").Some? then AsStr(Get(element, "name").value) else None
  }

  lemma ParseOneSpec(element: Json, index: nat, rules: Rules)
    ensures var r := ParseOne(element, index, rules);
            && (forall i: nat :: ParseOne(element, i, rules).Ok? <==> r.Ok?)
            && (r.Ok? ==>
                  && NameOf(element) == Some(r.value.name) && ValidName(r.value.name)
                  && (forall i: nat :: ParseOne(element, i, rules) == r)
                  && (r.value.mode.External? ==> r.value.externalTimeout.Some?))
            && (r.Err? ==> r.error.name == if NameOf(element).Some? then NameOf(element).value else Position(index))
  {
  }

  /** The limits docs publish: attempts, timeouts, cycles and every backoff delay are bounded. */
  predicate WithinLimits(t: Target) {
    && 1 <= t.maxAttempts <= MAX_PER_CALLBACK_ATTEMPTS
    && 1 <= t.timeout <= MAX_HANDLER_TIMEOUT_SECS
    && 1 <= t.maxCycles <= MAX_COMPLETION_CYCLES_LIMIT
    && (t.externalTimeout.Some? ==> 1 <= t.externalTimeout.value <= MAX_EXTERNAL_TIMEOUT_SECS)
    && t.backoff != []
    && (forall b :: b in t.backoff ==> 1 <= b <= MAX_BACKOFF_ELEMENT_SECS)
  }

  lemma TargetWithinLimits(element: Json, index: nat, rules: Rules)
    requires Bounded(rules.settings) && ParseOne(element, index, rules).Ok?
    ensures WithinLimits(ParseOne(element, index, rules).value)
  {
    var j := Get(element, "backoff_seconds");
    if j.Some? {
      assert ParseBackoff(j, rules.settings.backoffSecs) == ParseBackoffItems(j.value.items);
    }
  }
}
