/** The three readers of a callbacks array agree on every callback, with the exact exceptions. */
module Agreement {
  import opened Basics
  import opened Json
  import opened Table
  import opened Callbacks
  import Decimal

  // ---- the schedule-time parser --------------------------------------------------------

  /** Element `i` parses to `t`, and no earlier element parses to a target of that name. */
  ghost predicate FirstValid(items: seq<Json>, i: nat, t: Target, rules: Rules) {
    && i < |items| && ParseOne(items[i], i, rules) == Ok(t)
    && forall j :: 0 <= j < i && ParseOne(items[j], j, rules).Ok? ==> ParseOne(items[j], j, rules).value.name != t.name
  }

  function SeenNames(items: seq<Json>, n: nat, rules: Rules): set<string>
    requires n <= |items|
  {
    set i | 0 <= i < n && ParseOne(items[i], i, rules).Ok? :: ParseOne(items[i], i, rules).value.name
  }

  /** The first `n` elements, parsed. */
  function ParseItems(items: seq<Json>, n: nat, rules: Rules): Parsed
    requires n <= |items|
  {
    if n == 0 then Parsed([], [])
    else
      var p := ParseItems(items, n - 1, rules);
      match ParseOne(items[n - 1], n - 1, rules)
      case Err(e) => p.(invalid := p.invalid + [e])
      case Ok(t) =>
        if t.name in SeenNames(items, n - 1, rules) then p.(invalid := p.invalid + [Invalid(t.name, DuplicateName)])
        else p.(valid := p.valid + [t])
  }

  function ParseAll(callbacks: Json, rules: Rules): Parsed {
    if !callbacks.Arr? then Parsed([], [Invalid("<root>", NotArray)])
    else if |callbacks.items| > rules.settings.maxCallbacksPerEvent
    then Parsed([], [Invalid("<root>", TooManyCallbacks)])
    else ParseItems(callbacks.items, |callbacks.items|, rules)
  }

  /** `parse_callbacks`, with its vectors and its set of names seen. */
  method ParseCallbacks(callbacks: Json, rules: Rules) returns (r: Parsed)
    ensures r == ParseAll(callbacks, rules)
  {
    var valid: seq<Target> := [];
    var invalid: seq<Invalid> := [];
    var seen: set<string> := {};
    if !callbacks.Arr? {
      return Parsed(valid, invalid + [Invalid("<root>", NotArray)]);
    }
    var items := callbacks.items;
    if |items| > rules.settings.maxCallbacksPerEvent {
      return Parsed(valid, invalid + [Invalid("<root>", TooManyCallbacks)]);
    }
    for i := 0 to |items|
      invariant Parsed(valid, invalid) == ParseItems(items, i, rules)
      invariant seen == SeenNames(items, i, rules)
    {
      var one := ParseOne(items[i], i, rules);
      match one
      case Ok(target) =>
        if target.name in seen {
          invalid := invalid + [Invalid(target.name, DuplicateName)];
        } else {
          valid := valid + [target];
        }
        assert SeenNames(items, i + 1, rules) == seen + {target.name};
        seen := seen + {target.name};
      case Err(e) =>
        invalid := invalid + [e];
        assert SeenNames(items, i + 1, rules) == seen;
    }
    return Parsed(valid, invalid);
  }

  /** A target is valid exactly if it is the first valid element of its name. */
  lemma {:induction false} ValidExactly(items: seq<Json>, n: nat, t: Target, rules: Rules)
    requires n <= |items|
    ensures t in ParseItems(items, n, rules).valid <==> exists i :: 0 <= i < n && FirstValid(items, i, t, rules)
  {
    if n > 0 {
      ValidExactly(items, n - 1, t, rules);
      var before, one := ParseItems(items, n - 1, rules), ParseOne(items[n - 1], n - 1, rules);
      if one.Ok? && one.value.name !in SeenNames(items, n - 1, rules) {
        assert FirstValid(items, n - 1, one.value, rules);
        assert ParseItems(items, n, rules).valid == before.valid + [one.value];
      } else {
        assert ParseItems(items, n, rules).valid == before.valid;
        assert !FirstValid(items, n - 1, t, rules) by {
          if one.Ok? && one.value == t {
            var j :| 0 <= j < n - 1 && ParseOne(items[j], j, rules).Ok? &&
                ParseOne(items[j], j, rules).value.name == t.name;
          }
        }
      }
    }
  }

  /** No element is lost, and valid names are pairwise distinct. */
  lemma {:induction false} NothingLost(items: seq<Json>, n: nat, rules: Rules)
    requires n <= |items|
    ensures var p := ParseItems(items, n, rules);
            && |p.valid| + |p.invalid| == n
            && (forall i :: 0 <= i < |p.valid| ==> p.valid[i].name in SeenNames(items, n, rules))
            && (forall i, j :: 0 <= i < j < |p.valid| ==> p.valid[i].name != p.valid[j].name)
  {
    if n > 0 { NothingLost(items, n - 1, rules); }
  }

  /** The name under which an element is reported: its own, or its position. */
  function LabelOf(items: seq<Json>, i: nat): string
    requires i < |items|
  {
    if NameOf(items[i]).Some? then NameOf(items[i]).value else Position(i)
  }

  predicate Mentions(p: Parsed, name: string) {
    (exists j :: 0 <= j < |p.valid| && p.valid[j].name == name) ||
    (exists j :: 0 <= j < |p.invalid| && p.invalid[j].name == name)
  }

  /** Every element is reported under its label. */
  lemma {:induction false} EveryLabelReported(items: seq<Json>, n: nat, rules: Rules, i: nat)
    requires i < n <= |items|
    ensures Mentions(ParseItems(items, n, rules), LabelOf(items, i))
  {
    var p, before, name := ParseItems(items, n, rules), ParseItems(items, n - 1, rules), LabelOf(items, i);
    if i < n - 1 {
      EveryLabelReported(items, n - 1, rules, i);
      if j :| 0 <= j < |before.valid| && before.valid[j].name == name { assert p.valid[j].name == name; }
      if j :| 0 <= j < |before.invalid| && before.invalid[j].name == name { assert p.invalid[j].name == name; }
    } else {
      ParseOneSpec(items[i], i, rules);
      if |p.valid| > |before.valid| { assert p.valid[|p.valid| - 1].name == name; }
      else { assert p.invalid[|p.invalid| - 1].name == name; }
    }
  }

  // ---- the dispatch-time parser -----------------------------------------------------------

  /** The first element with this string as its name. */
  function FindName(items: seq<Json>, name: string): (r: Option<nat>)
    ensures r.Some? ==> r.value < |items| && NameOf(items[r.value]) == Some(name)
    ensures forall j :: 0 <= j < (if r.Some? then r.value else |items|) ==> NameOf(items[j]) != Some(name)
  {
    if items == [] then None
    else if NameOf(items[0]) == Some(name) then Some(0)
    else
      var rest := FindName(items[1..], name);
      assert forall j :: 1 <= j < |items| ==> items[j] == items[1..][j - 1];
      if rest.Some? then Some(rest.value + 1) else None
  }

  function ValidateNamed(callbacks: Json, name: string, rules: Rules): Result<Target, NamedError> {
    if !callbacks.Arr? then Err(Rejected(NotArray))
    else if |callbacks.items| > rules.settings.maxCallbacksPerEvent then Err(Rejected(TooManyCallbacks))
    else
      var found := FindName(callbacks.items, name);
      if found.None? then Err(NotFound)
      else
        var one := ParseOne(callbacks.items[found.value], found.value, rules);
        if one.Ok? then Ok(one.value) else Err(Rejected(one.error.reason))
  }

  /** What dispatch accepts, scheduling accepted as the very same target. */
  lemma DispatchAgrees(callbacks: Json, name: string, rules: Rules)
    requires ValidateNamed(callbacks, name, rules).Ok?
    ensures var t := ValidateNamed(callbacks, name, rules).value;
            t.name == name && t in ParseAll(callbacks, rules).valid
  {
    var items, t := callbacks.items, ValidateNamed(callbacks, name, rules).value;
    var i := FindName(items, name).value;
    forall j | 0 <= j <= i
      ensures ParseOne(items[j], j, rules).Ok? ==> NameOf(items[j]) == Some(ParseOne(items[j], j, rules).value.name)
    {
      ParseOneSpec(items[j], j, rules);
    }
    assert FirstValid(items, i, t, rules);
    ValidExactly(items, |items|, t, rules);
  }

  /** Element `i` is the first with its name, and parses to `t`. */
  ghost predicate FirstNamed(items: seq<Json>, i: nat, t: Target, rules: Rules) {
    && i < |items| && ParseOne(items[i], i, rules) == Ok(t)
    && forall j :: 0 <= j < i ==> NameOf(items[j]) != Some(t.name)
  }

  /** Conversely dispatch returns a target exactly if its element is the first with its name: an
      earlier invalid element of that name makes dispatch reject what scheduling accepted. */
  lemma ScheduledExactly(callbacks: Json, t: Target, rules: Rules)
    requires callbacks.Arr? && |callbacks.items| <= rules.settings.maxCallbacksPerEvent
    ensures ValidateNamed(callbacks, t.name, rules) == Ok(t) <==> exists i :: FirstNamed(callbacks.items, i, t, rules)
  {
    var items, f := callbacks.items, FindName(callbacks.items, t.name);
    if ValidateNamed(callbacks, t.name, rules) == Ok(t) {
      assert FirstNamed(items, f.value, t, rules);
    }
    if i: nat :| FirstNamed(items, i, t, rules) {
      ParseOneSpec(items[i], i, rules);
      assert f == Some(i);
    }
  }

  lemma NameOnly(v: Json, key: string)
    requires |key| != |"name"|
    ensures Get(Obj([("name", v)]), key).None?
  {
    var fields: seq<(string, Json)> := [("name", v)];
    assert fields[0].0 != key;
    assert fields[1..] == [] && Field([], key).None?;
    assert Field(fields, key) == Field(fields[1..], key);
  }

  /** Such a pair of elements: any valid callback behind one with the same name and nothing else. */
  lemma RejectedAtDispatch(element: Json, rules: Rules)
    requires ParseOne(element, 1, rules).Ok? && rules.settings.maxCallbacksPerEvent >= 2
    ensures var t := ParseOne(element, 1, rules).value;
            var callbacks := Arr([Obj([("name", Str(t.name))]), element]);
            t in ParseAll(callbacks, rules).valid &&
                ValidateNamed(callbacks, t.name, rules) == Err(Rejected(MissingUrl))
  {
    var t := ParseOne(element, 1, rules).value;
    var bare := Obj([("name", Str(t.name))]);
    var items := [bare, element];
    ParseOneSpec(element, 1, rules);
    assert Get(bare, "name") == Some(Str(t.name));
    NameOnly(Str(t.name), "url");
    assert ParseOne(bare, 0, rules) == Err(Invalid(t.name, MissingUrl));
    assert FirstValid(items, 1, t, rules);
    ValidExactly(items, 2, t, rules);
    assert FindName(items, t.name) == Some(0);
  }

  // ---- the sweep's lookup ----------------------------------------------------------------------

  /** PostgreSQL's cast from text to int4; nothing where the cast raises an error. */
  type Cast = string -> Option<int>

  ghost predicate CastOk(cast: Cast) {
    forall n: nat :: n <= 0x7FFF_FFFF ==> cast(Decimal.Digits(n)) == Some(n)
  }

  /** `cb->>key`: the text of a member, or SQL NULL. */
  function TextOf(element: Json, key: string): Option<string> {
    if Get(element, key).Some? then SqlText(Get(element, key).value) else None
  }

  /** `cb->>'name' = name`. */
  predicate SqlNamed(element: Json, name: string) {
    TextOf(element, "name") == Some(name)
  }

  /** The element the LATERAL join takes: the first whose name has this text. */
  function FindSql(items: seq<Json>, name: string): (r: Option<nat>)
    ensures r.Some? ==> r.value < |items| && SqlNamed(items[r.value], name)
    ensures forall j :: 0 <= j < (if r.Some? then r.value else |items|) ==> !SqlNamed(items[j], name)
  {
    if items == [] then None
    else if SqlNamed(items[0], name) then Some(0)
    else
      var rest := FindSql(items[1..], name);
      assert forall j :: 1 <= j < |items| ==> items[j] == items[1..][j - 1];
      if rest.Some? then Some(rest.value + 1) else None
  }

  /** `(cb->>key)::int`: SQL NULL (`Ok(None)`), a value, or a failing cast. */
  function SqlInt(element: Json, key: string, cast: Cast): Result<Option<int>, ()> {
    if TextOf(element, key).None? then Ok(None)
    else
      var n := cast(TextOf(element, key).value);
      if n.None? then Err(()) else Ok(n)
  }

  /** The LATERAL join's columns for one element. Both casts are evaluated, so either can fail. */
  function ReadElement(element: Json, maxCycles: nat, cast: Cast): Reading {
    var timeout := SqlInt(element, TIMEOUT_KEY, cast);
    var cycles := SqlInt(element, CYCLES_KEY, cast);
    if timeout.Err? || cycles.Err? then Fails
    else if timeout.value.None? then Nothing
    else Reads(Hung(timeout.value.value, if cycles.value.Some? then cycles.value.value else maxCycles))
  }

  /** What the sweep reads for a name. */
  function SweepLookup(callbacks: Json, name: string, maxCycles: nat, cast: Cast): Reading {
    if !callbacks.Arr? || FindSql(callbacks.items, name).None? then Nothing
    else ReadElement(callbacks.items[FindSql(callbacks.items, name).value], maxCycles, cast)
  }

  const TIMEOUT_KEY := "external_completion_timeout_seconds"
  const CYCLES_KEY := "max_completion_cycles"

  // ---- the same, said of the stored elements -----------------------------------------------------

  /** Element `i` is the first whose name has this text. */
  ghost predicate FirstText(items: seq<Json>, i: nat, name: string) {
    && i < |items| && TextOf(items[i], "name") == Some(name)
    && forall j :: 0 <= j < i ==> TextOf(items[j], "name") != Some(name)
  }

  predicate Casts(element: Json, key: string, cast: Cast) {
    TextOf(element, key).Some? && cast(TextOf(element, key).value).Some?
  }

  predicate CastsOrAbsent(element: Json, key: string, cast: Cast) {
    TextOf(element, key).Some? ==> cast(TextOf(element, key).value).Some?
  }

  /** The first element of that name text has a timeout that casts, and a cycle limit that casts or is absent. */
  ghost predicate Readable(callbacks: Json, name: string, cast: Cast) {
    callbacks.Arr? && exists i: nat ::
      && FirstText(callbacks.items, i, name)
      && Casts(callbacks.items[i], TIMEOUT_KEY, cast) && CastsOrAbsent(callbacks.items[i], CYCLES_KEY, cast)
  }

  /** The first element of that name text has a timeout or a cycle limit that is there and does not cast. */
  ghost predicate Unreadable(callbacks: Json, name: string, cast: Cast) {
    callbacks.Arr? && exists i: nat ::
      && FirstText(callbacks.items, i, name)
      && !(CastsOrAbsent(callbacks.items[i], TIMEOUT_KEY, cast) && CastsOrAbsent(callbacks.items[i], CYCLES_KEY, cast))
  }

  lemma ReadingExactly(callbacks: Json, name: string, maxCycles: nat, cast: Cast)
    ensures SweepLookup(callbacks, name, maxCycles, cast).Reads? <==> Readable(callbacks, name, cast)
    ensures SweepLookup(callbacks, name, maxCycles, cast).Fails? <==> Unreadable(callbacks, name, cast)
  {
    if callbacks.Arr? {
      var items, f := callbacks.items, FindSql(callbacks.items, name);
      if f.Some? { assert FirstText(items, f.value, name); }
      forall i: nat | FirstText(items, i, name) ensures f == Some(i) { assert SqlNamed(items[i], name); }
    }
  }

  /** An element named by a JSON boolean, which `->>` turns into the text of a valid name. */
  predicate BooleanNamed(element: Json, name: string) {
    || (Get(element, "name") == Some(Bool(true)) && name == "true")
    || (Get(element, "name") == Some(Bool(false)) && name == "false")
  }

  /** For a valid name, `->>` finds what a string comparison finds, and booleans. */
  lemma SqlNames(element: Json, name: string)
    requires ValidName(name)
    ensures SqlNamed(element, name) <==> NameOf(element) == Some(name) || BooleanNamed(element, name)
  {
    var j := Get(element, "name");
    if j.Some? && (j.value.Int? || j.value.Float?) {
      var n := if j.value.Int? then j.value.n else j.value.whole;
      var text := Decimal.IntText(n);
      assert text[0] == '-' || Decimal.IsDigit(text[0]);
      assert SqlText(j.value).value[0] == text[0];
    }
  }

  /** The sweep looks at the very element dispatch uses, unless one named by a boolean comes first. */
  lemma SweepFindsExactly(items: seq<Json>, name: string)
    requires ValidName(name) && FindName(items, name).Some?
    ensures FindSql(items, name) == FindName(items, name) <==>
              forall j :: 0 <= j < FindName(items, name).value ==> !BooleanNamed(items[j], name)
  {
    var i, f := FindName(items, name).value, FindSql(items, name);
    forall j | 0 <= j < |items|
      ensures SqlNamed(items[j], name) <==> NameOf(items[j]) == Some(name) || BooleanNamed(items[j], name)
    {
      SqlNames(items[j], name);
    }
    assert f.Some? && f.value <= i;
  }

  /** Then it reads that target's own timeout, if it has one, and cycle limit. */
  lemma SweepAgrees(callbacks: Json, name: string, rules: Rules, cast: Cast)
    requires CastOk(cast) && ValidateNamed(callbacks, name, rules).Ok?
    requires forall j :: 0 <= j < FindName(callbacks.items, name).value ==> !BooleanNamed(callbacks.items[j], name)
    ensures var t := ValidateNamed(callbacks, name, rules).value;
            SweepLookup(callbacks, name, rules.settings.maxCompletionCycles, cast) ==
              if t.externalTimeout.Some? then Reads(Hung(t.externalTimeout.value, t.maxCycles)) else Nothing
  {
    var items, i := callbacks.items, FindName(callbacks.items, name).value;
    ParseOneSpec(items[i], i, rules);
    SweepFindsExactly(items, name);
    ReadsOwnLimits(items[i], i, rules, cast);
  }

  lemma ReadsOwnLimits(element: Json, index: nat, rules: Rules, cast: Cast)
    requires CastOk(cast) && ParseOne(element, index, rules).Ok?
    ensures var t := ParseOne(element, index, rules).value;
            && SqlInt(element, TIMEOUT_KEY, cast) == Ok(t.externalTimeout)
            && SqlInt(element, CYCLES_KEY, cast) ==
                Ok(if Get(element, CYCLES_KEY).Some? then Some(t.maxCycles) else None)
            && (Get(element, CYCLES_KEY).None? ==> t.maxCycles == rules.settings.maxCompletionCycles)
  {
    var t := ParseOne(element, index, rules).value;
    if t.externalTimeout.Some? {
      assert Get(element, TIMEOUT_KEY) == Some(Int(t.externalTimeout.value));
      assert SqlText(Int(t.externalTimeout.value)) == Some(Decimal.Digits(t.externalTimeout.value));
    }
    if Get(element, CYCLES_KEY).Some? {
      assert Get(element, CYCLES_KEY) == Some(Int(t.maxCycles));
      assert SqlText(Int(t.maxCycles)) == Some(Decimal.Digits(t.maxCycles));
    }
  }

  /** The exception: any valid callback named "true" behind any element whose name is the boolean.
      Scheduling and dispatch take the callback, the sweep reads the other element. */
  lemma BehindBoolean(first: Json, element: Json, rules: Rules, cast: Cast)
    requires Get(first, "name") == Some(Bool(true)) && rules.settings.maxCallbacksPerEvent >= 2
    requires ParseOne(element, 1, rules).Ok? && ParseOne(element, 1, rules).value.name == "true"
    ensures var t := ParseOne(element, 1, rules).value;
            var callbacks := Arr([first, element]);
            && ParseAll(callbacks, rules).valid == [t] && ValidateNamed(callbacks, "true", rules) == Ok(t)
            && SweepLookup(callbacks, "true", rules.settings.maxCompletionCycles, cast) ==
                 ReadElement(first, rules.settings.maxCompletionCycles, cast)
  {
    var t := ParseOne(element, 1, rules).value;
    var items := [first, element];
    ParseOneSpec(element, 1, rules);
    assert NameOf(first).None? && ParseOne(first, 0, rules).Err?;
    assert FirstNamed(items, 1, t, rules);
    ScheduledExactly(Arr(items), t, rules);
    assert ParseItems(items, 1, rules).valid == [];
    assert SeenNames(items, 1, rules) == {};
    assert FindSql(items, "true") == Some(0);
  }

  /** What such an element makes the sweep read: nothing, an error, or limits of its own. */
  lemma BooleanReadings(maxCycles: nat, cast: Cast)
    requires CastOk(cast) && cast("soon").None?
    ensures ReadElement(Obj([("name", Bool(true))]), maxCycles, cast) == Nothing
    ensures ReadElement(Obj([("name", Bool(true)), (TIMEOUT_KEY, Str("soon"))]), maxCycles, cast) == Fails
    ensures ReadElement(Obj([("name", Bool(true)), (TIMEOUT_KEY, Int(5)), (CYCLES_KEY, Int(7))]), maxCycles, cast) ==
              Reads(Hung(5, 7))
  {
    TwoFields(Bool(true), TIMEOUT_KEY, Str("soon"), CYCLES_KEY);
    NameOnly(Bool(true), TIMEOUT_KEY);
    NameOnly(Bool(true), CYCLES_KEY);
    var full := [("name", Bool(true)), (TIMEOUT_KEY, Int(5)), (CYCLES_KEY, Int(7))];
    assert full[0].0 != TIMEOUT_KEY && full[0].0 != CYCLES_KEY && full[1].0 != CYCLES_KEY by { KeysDiffer(); }
    assert full[1..][0] == full[1] && full[1..][1..][0] == full[2];
    assert Field(full, TIMEOUT_KEY) == Field(full[1..], TIMEOUT_KEY) == Some(Int(5));
    assert Field(full, CYCLES_KEY) == Field(full[1..], CYCLES_KEY) == Field(full[1..][1..], CYCLES_KEY) == Some(Int(7));
    assert SqlText(Int(5)) == Some(Decimal.Digits(5)) && SqlText(Int(7)) == Some(Decimal.Digits(7));
  }

  lemma KeysDiffer()
    ensures |"name"| == 4 && |TIMEOUT_KEY| == 35 && |CYCLES_KEY| == 21
  {
  }

  lemma TwoFields(v: Json, key: string, w: Json, other: string)
    requires |key| != |"name"| && |other| != |"name"| && |key| != |other|
    ensures Get(Obj([("name", v), (key, w)]), key) == Some(w) && Get(Obj([("name", v), (key, w)]), other).None?
  {
    var fields: seq<(string, Json)> := [("name", v), (key, w)];
    assert fields[0].0 != key && fields[0].0 != other && fields[1].0 != other;
    assert fields[1..] == [(key, w)] && fields[1..][1..] == [];
    assert Field(fields, key) == Field(fields[1..], key) == Some(w);
    assert Field(fields, other) == Field(fields[1..], other) == Field(fields[1..][1..], other);
  }
}
