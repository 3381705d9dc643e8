// Settings kept in the database: validation, resolution, and the boot preload
// that makes restart settings effective.
module Settings {
  import opened Wrappers
  import opened Text

  datatype Category = Runtime | Restart | Secret | Bootstrap

  datatype ValueType = BoolType | NumberType | StringType

  datatype Value = BoolValue(b: bool) | NumberValue(n: int) | StringValue(s: string)

  datatype Definition = Definition(
    key: string,
    envVar: string,
    category: Category,
    valueType: ValueType,
    defaultValue: Option<Value>,
    allowedValues: Option<seq<string>>,
    min: Option<int>,
    max: Option<int>,
    bootActivation: bool)
  {
    /** Keys whose stored value is written into the environment at boot. */
    predicate Preloaded() { category.Restart? || (category.Secret? && bootActivation) }
  }

  // --- Validation -----------------------------------------------------------------------

  function LowerChar(c: char): char { if 'A' <= c <= 'Z' then c - 'A' + 'a' else c }

  function Lower(s: string): (r: string)
    ensures |r| == |s|
  {
    if s == "" then "" else [LowerChar(s[0])] + Lower(s[1..])
  }

  /** /^-?\d+$/ */
  predicate IntegerLiteral(s: string) {
    s != "" && (if s[0] == '-' then |s| > 1 && AllDigits(s[1..]) else AllDigits(s))
  }

  function ParseInteger(s: string): int
    requires IntegerLiteral(s)
  {
    if s[0] == '-' then
      var magnitude: int := ParseDigits(s[1..]);
      -magnitude
    else ParseDigits(s)
  }

  datatype Validated = Validated(value: Value, canonical: string)

  function Validate(def: Definition, raw: string): Result<Validated, string> {
    var input := Trim(raw);
    if input == "" then Err("Value must not be empty")
    else
      match def.valueType
      case BoolType =>
        var normalized := Lower(input);
        if normalized == "true" then Ok(Validated(BoolValue(true), "true"))
        else if normalized == "false" then Ok(Validated(BoolValue(false), "false"))
        else Err("expected \"true\" or \"false\"")
      case NumberType =>
        if !IntegerLiteral(input) then Err("expected an integer")
        else
          var number := ParseInteger(input);
          if def.min.Some? && number < def.min.value then Err("at least " + IntToString(def.min.value))
          else if def.max.Some? && number > def.max.value then Err("at most " + IntToString(def.max.value))
          else Ok(Validated(NumberValue(number), IntToString(number)))
      case StringType =>
        if def.allowedValues.Some? && input !in def.allowedValues.value then Err("allowed values")
        else Ok(Validated(StringValue(input), input))
  }

  /** String(value) */
  function Show(v: Value): string {
    match v
    case BoolValue(b) => if b then "true" else "false"
    case NumberValue(n) => IntToString(n)
    case StringValue(s) => s
  }

  lemma IntegerRoundTrip(n: int)
    ensures IntegerLiteral(IntToString(n)) && ParseInteger(IntToString(n)) == n
  {
    ParseDigitsOfDigits(if n < 0 then -n else n);
    if n < 0 {
      assert IntToString(n)[1..] == Digits(-n);
    } else {
      assert IsDigit(Digits(n)[0]);
    }
  }

  /** The values a definition admits. */
  predicate Admits(def: Definition, v: Value) {
    match v
    case BoolValue(_) => def.valueType.BoolType?
    case NumberValue(n) =>
      def.valueType.NumberType? && (def.min.Some? ==> def.min.value <= n) && (def.max.Some? ==> n <= def.max.value)
    case StringValue(s) =>
      def.valueType.StringType? && s != "" && IsTrimmed(s) && (def.allowedValues.Some? ==> s in def.allowedValues.value)
  }

  /** Whatever is accepted is an admitted value. */
  lemma AcceptedIsAdmitted(def: Definition, raw: string)
    requires Validate(def, raw).Ok?
    ensures Admits(def, Validate(def, raw).value.value)
  {
    hide Lower, IntegerLiteral, ParseInteger;
  }

  /** A printed value is read as itself exactly when the definition admits it. */
  lemma AcceptsPrintedIff(def: Definition, v: Value)
    ensures Validate(def, Show(v)) == Ok(Validated(v, Show(v))) <==> Admits(def, v)
  {
    hide Lower, IntegerLiteral, ParseInteger, IntToString, IsTrimmed, Trim;
    match v {
      case BoolValue(_) => BoolLiterals();
      case NumberValue(n) => IntegerRoundTrip(n);
      case StringValue(_) =>
    }
    if Validate(def, Show(v)).Ok? { AcceptedIsAdmitted(def, Show(v)); }
  }

  // --- Which texts are accepted ------------------------------------------------------------

  /** `word` in small letters, in any mixture of cases. */
  predicate Spells(s: string, word: string) {
    |s| == |word| && forall i :: 0 <= i < |s| ==> s[i] == word[i] || ('A' <= s[i] <= 'Z' && s[i] - 'A' + 'a' == word[i])
  }

  lemma {:induction false} LowerSpells(s: string, word: string)
    requires forall i :: 0 <= i < |word| ==> 'a' <= word[i] <= 'z'
    ensures Lower(s) == word <==> Spells(s, word)
  {
    if s != "" && word != "" {
      LowerSpells(s[1..], word[1..]);
      assert word == [word[0]] + word[1..];
      assert Lower(s)[0] == LowerChar(s[0]) && Lower(s)[1..] == Lower(s[1..]);
      if Spells(s, word) { assert Spells(s[1..], word[1..]); }
      if Spells(s[1..], word[1..]) && Spells(s[..1], word[..1]) {
        forall i | 0 <= i < |s| ensures s[i] == word[i] || ('A' <= s[i] <= 'Z' && s[i] - 'A' + 'a' == word[i]) {
          if i > 0 { assert s[1..][i - 1] == s[i] && word[1..][i - 1] == word[i]; } else { assert s[..1][0] == s[0]; }
        }
      }
    }
  }

  /** A boolean setting accepts true and false in any case, and no other text. */
  lemma BooleanTexts(def: Definition, raw: string)
    requires def.valueType.BoolType?
    ensures Validate(def, raw).Ok? <==> Spells(Trim(raw), "true") || Spells(Trim(raw), "false")
    ensures Spells(Trim(raw), "true") ==> Validate(def, raw).value.value == BoolValue(true)
    ensures Spells(Trim(raw), "false") ==> Validate(def, raw).value.value == BoolValue(false)
  {
    hide Trim, Lower, Spells;
    LowerSpells(Trim(raw), "true");
    LowerSpells(Trim(raw), "false");
    NotBlankWord(Trim(raw));
  }

  lemma NotBlankWord(s: string)
    ensures Spells(s, "true") || Spells(s, "false") ==> s != ""
    ensures !(Spells(s, "true") && Spells(s, "false"))
  {
  }

  /** A number is an optional minus and at least one digit; leading zeros do not
      matter, and only the range can refuse it. */
  lemma NumberTexts(def: Definition, raw: string)
    requires def.valueType.NumberType?
    ensures Validate(def, raw).Ok? <==>
      exists n: int :: ReadsAs(Trim(raw), n) && (def.min.Some? ==> def.min.value <= n) && (def.max.Some? ==> n <= def.max.value)
    ensures Validate(def, raw).Ok? ==> Validate(def, raw).value.value.NumberValue? && ReadsAs(Trim(raw), Validate(def, raw).value.value.n)
  {
    hide Trim, ReadsAs, IntegerLiteral, ParseInteger, IntToString;
    var s := Trim(raw);
    ReadsAsInteger(s);
    if IntegerLiteral(s) { assert ReadsAs(s, ParseInteger(s)); }
    if n: int :| ReadsAs(s, n) && (def.min.Some? ==> def.min.value <= n) && (def.max.Some? ==> n <= def.max.value) {
      assert IntegerLiteral(s) && n == ParseInteger(s);
    }
  }

  ghost predicate ReadsAs(s: string, n: int) {
    exists digits: string :: digits != "" && AllDigits(digits) && ((s == digits && n == ParseDigits(digits)) || (s == ['-'] + digits && n == -(ParseDigits(digits) as int)))
  }

  lemma ReadsAsInteger(s: string)
    ensures s == "" ==> !IntegerLiteral(s)
    ensures forall n: int :: ReadsAs(s, n) <==> IntegerLiteral(s) && n == ParseInteger(s)
  {
    if IntegerLiteral(s) {
      var digits := if s[0] == '-' then s[1..] else s;
      assert s == digits || s == ['-'] + digits;
      assert ReadsAs(s, ParseInteger(s));
    }
    forall n: int | ReadsAs(s, n) ensures IntegerLiteral(s) && n == ParseInteger(s) {
      var digits: string :| digits != "" && AllDigits(digits) && ((s == digits && n == ParseDigits(digits)) || (s == ['-'] + digits && n == -(ParseDigits(digits) as int)));
      if s == ['-'] + digits { assert s[1..] == digits; } else { assert IsDigit(s[0]); }
    }
  }

  lemma {:induction false} LowerIsIdentity(s: string)
    requires forall i :: 0 <= i < |s| ==> !('A' <= s[i] <= 'Z')
    ensures Lower(s) == s
  {
    if s != "" { LowerIsIdentity(s[1..]); }
  }

  lemma BoolLiterals()
    ensures IsTrimmed("true") && IsTrimmed("false") && Lower("true") == "true" && Lower("false") == "false"
  {
    hide Lower;
    LowerIsIdentity("true");
    LowerIsIdentity("false");
  }

  /** The canonical form is the printed value, and validating it again gives the
      same value and the same form. */
  lemma CanonicalIsFixpoint(def: Definition, raw: string)
    requires Validate(def, raw).Ok?
    ensures var v := Validate(def, raw).value;
      v.canonical == Show(v.value) && IsTrimmed(v.canonical) && v.canonical != "" && Validate(def, v.canonical) == Ok(v)
  {
    hide Trim, Lower, IntegerLiteral, ParseInteger, IntToString, IsTrimmed;
    match def.valueType
    case BoolType => BoolLiterals();
    case NumberType => IntegerRoundTrip(ParseInteger(Trim(raw)));
    case StringType =>
  }

  /** Values of one definition print alike only when they are equal. */
  lemma ShowIsInjective(def: Definition, raw1: string, raw2: string)
    requires Validate(def, raw1).Ok? && Validate(def, raw2).Ok?
    requires Show(Validate(def, raw1).value.value) == Show(Validate(def, raw2).value.value)
    ensures Validate(def, raw1).value.value == Validate(def, raw2).value.value
  {
    hide Validate;
    CanonicalIsFixpoint(def, raw1);
    CanonicalIsFixpoint(def, raw2);
  }

  // --- Resolution --------------------------------------------------------------------------

  datatype Source = FromUi | FromEnv | FromDefault

  datatype Resolution = Resolution(
    value: Option<Value>,
    source: Source,
    uiValuePresent: bool,
    uiValueInvalid: bool,
    pendingRestartValue: Option<Value>)

  /** The stored value after decryption; None when the row holds no value. */
  type StoredRow = Option<string>

  type Env = map<string, string>

  function ResolveEnvOrDefault(def: Definition, env: Env): (Option<Value>, Source) {
    var present := def.envVar in env && Trim(env[def.envVar]) != "";
    var coerced := if present then Validate(def, env[def.envVar]) else Err("");
    if coerced.Ok? then (Some(coerced.value.value), FromEnv) else (def.defaultValue, FromDefault)
  }

  function ResolveStored(def: Definition, stored: Option<StoredRow>, env: Env): Resolution {
    var active := ResolveEnvOrDefault(def, env);
    if stored.None? || stored.value.None? || Trim(stored.value.value) == "" then
      Resolution(active.0, active.1, false, false, None)
    else
      var coerced := Validate(def, stored.value.value);
      if coerced.Err? then Resolution(active.0, active.1, true, true, None)
      else if def.category.Restart? then
        var alreadyActive := active.0.Some? && Show(active.0.value) == Show(coerced.value.value);
        Resolution(active.0, active.1, true, false, if alreadyActive then None else Some(coerced.value.value))
      else Resolution(Some(coerced.value.value), FromUi, true, false, None)
  }

  predicate Usable(def: Definition, raw: Option<string>) { raw.Some? && Validate(def, raw.value).Ok? }

  function EnvOf(def: Definition, env: Env): Option<string> { if def.envVar in env then Some(env[def.envVar]) else None }

  /** The order of precedence: a usable stored value (restart settings excepted),
      then a usable environment value, then the default; a pending value is one
      that is stored, usable and not effective yet. */
  lemma Precedence(def: Definition, stored: Option<StoredRow>, env: Env)
    ensures var r := ResolveStored(def, stored, env);
      var row := if stored.Some? then stored.value else None;
      && (r.source.FromUi? <==> Usable(def, row) && !def.category.Restart?)
      && (r.source.FromUi? ==> r.value == Some(Validate(def, row.value).value.value))
      && (r.source.FromEnv? <==> !r.source.FromUi? && Usable(def, EnvOf(def, env)))
      && (r.source.FromEnv? ==> r.value == Some(Validate(def, env[def.envVar]).value.value))
      && (r.source.FromDefault? ==> r.value == def.defaultValue)
      && (r.pendingRestartValue.Some? <==>
            def.category.Restart? && Usable(def, row) && !(r.value.Some? && Show(r.value.value) == Show(Validate(def, row.value).value.value)))
      && (r.uiValuePresent <==> row.Some? && Trim(row.value) != "")
      && (r.uiValueInvalid <==> row.Some? && Trim(row.value) != "" && !Usable(def, row))
  {
    hide Lower, IntegerLiteral, ParseInteger, IntToString, IsTrimmed;
    if stored.Some? && stored.value.Some? && Validate(def, stored.value.value).Ok? { NonBlank(def, stored.value.value); }
    if def.envVar in env && Validate(def, env[def.envVar]).Ok? { NonBlank(def, env[def.envVar]); }
  }

  // --- The boot preload -----------------------------------------------------------------------

  type Catalog = map<string, Definition>

  /** Each definition is filed under its key, which is also its variable's name. */
  ghost predicate WellFormed(catalog: Catalog) {
    forall k :: k in catalog ==> catalog[k].key == k && catalog[k].envVar == k
  }

  /** What one row contributes: the canonical form of a catalogued, valid value. */
  function Contribution(catalog: Catalog, key: string, row: StoredRow): Option<string> {
    if key in catalog && row.Some? then
      var validated := Validate(catalog[key], row.value);
      if validated.Ok? then Some(validated.value.canonical) else None
    else None
  }

  function Preloaded(catalog: Catalog, rows: seq<(string, StoredRow)>, env: Env): Env {
    if rows == [] then env
    else
      var n := |rows| - 1;
      var before := Preloaded(catalog, rows[..n], env);
      var c := Contribution(catalog, rows[n].0, rows[n].1);
      if c.Some? then before[rows[n].0 := c.value] else before
  }

  class Process {
    var env: Env

    constructor (initial: Env)
      ensures env == initial
    {
      env := initial;
    }

    /** The row loop of the preload; returns how many settings were applied. */
    method Preload(catalog: Catalog, rows: seq<(string, StoredRow)>) returns (applied: nat, skipped: nat)
      modifies this
      ensures env == Preloaded(catalog, rows, old(env))
      ensures applied + skipped <= |rows|
      ensures applied == 0 ==> env == old(env)
    {
      hide Validate;
      applied, skipped := 0, 0;
      for n := 0 to |rows|
        invariant env == Preloaded(catalog, rows[..n], old(env)) && applied + skipped <= n
        invariant applied == 0 ==> env == old(env)
      {
        assert rows[..n + 1][..n] == rows[..n];
        var key, row := rows[n].0, rows[n].1;
        if key !in catalog {
          skipped := skipped + 1;
          continue;
        }
        if row.None? { continue; }
        var validated := Validate(catalog[key], row.value);
        if validated.Err? {
          skipped := skipped + 1;
          continue;
        }
        env := env[key := validated.value.canonical];
        applied := applied + 1;
      }
      assert rows[..|rows|] == rows;
    }
  }

  /** The rows the query returns: one per preloaded key that is stored. */
  ghost predicate QueryResult(catalog: Catalog, store: map<string, StoredRow>, rows: seq<(string, StoredRow)>) {
    && (forall i, j :: 0 <= i < j < |rows| ==> rows[i].0 != rows[j].0)
    && (forall i :: 0 <= i < |rows| ==> rows[i].0 in catalog && catalog[rows[i].0].Preloaded() && rows[i].0 in store && store[rows[i].0] == rows[i].1)
    && (forall k :: k in catalog && catalog[k].Preloaded() && k in store ==> exists i :: 0 <= i < |rows| && rows[i].0 == k)
  }

  lemma {:induction false} PreloadedAt(catalog: Catalog, rows: seq<(string, StoredRow)>, env: Env, i: nat)
    requires i < |rows| && forall a, b :: 0 <= a < b < |rows| ==> rows[a].0 != rows[b].0
    ensures var c := Contribution(catalog, rows[i].0, rows[i].1); var after := Preloaded(catalog, rows, env);
      if c.Some? then rows[i].0 in after && after[rows[i].0] == c.value
      else (rows[i].0 in after <==> rows[i].0 in env) && (rows[i].0 in env ==> after[rows[i].0] == env[rows[i].0])
  {
    var n := |rows| - 1;
    assert forall a :: 0 <= a < n ==> rows[..n][a] == rows[a];
    if i < n {
      PreloadedAt(catalog, rows[..n], env, i);
    } else {
      PreloadedElsewhere(catalog, rows[..n], env, rows[n].0);
    }
  }

  lemma {:induction false} PreloadedElsewhere(catalog: Catalog, rows: seq<(string, StoredRow)>, env: Env, key: string)
    requires forall a :: 0 <= a < |rows| ==> rows[a].0 != key
    ensures var after := Preloaded(catalog, rows, env);
      (key in after <==> key in env) && (key in env ==> after[key] == env[key])
  {
    if rows != [] {
      var n := |rows| - 1;
      assert forall a :: 0 <= a < n ==> rows[..n][a] == rows[a];
      PreloadedElsewhere(catalog, rows[..n], env, key);
    }
  }

  /** After a restart a restart setting has the value that was announced as
      pending (or was active already), and nothing is pending any more. */
  lemma RestartRoundTrip(catalog: Catalog, store: map<string, StoredRow>, rows: seq<(string, StoredRow)>, env: Env, key: string)
    requires WellFormed(catalog) && QueryResult(catalog, store, rows)
    requires key in catalog && catalog[key].category.Restart? && key in store && store[key].Some?
    requires Validate(catalog[key], store[key].value).Ok?
    ensures var def := catalog[key];
      var before := ResolveStored(def, Some(store[key]), env);
      var after := ResolveStored(def, Some(store[key]), Preloaded(catalog, rows, env));
      && after == Resolution(Some(Validate(def, store[key].value).value.value), FromEnv, true, false, None)
      && (if before.pendingRestartValue.Some? then after.value == before.pendingRestartValue
          else before.value.Some? && Show(before.value.value) == Show(after.value.value))
  {
    hide Validate;
    var def := catalog[key];
    var i :| 0 <= i < |rows| && rows[i].0 == key;
    PreloadedAt(catalog, rows, env, i);
    CanonicalIsFixpoint(def, store[key].value);
    NonBlank(def, store[key].value);
  }

  lemma NonBlank(def: Definition, raw: string)
    requires Validate(def, raw).Ok?
    ensures Trim(raw) != ""
  {
  }

  /** Every key that is not preloaded, or has no row to preload, resolves as before
      the restart. */
  lemma OtherKeysUnaffected(catalog: Catalog, store: map<string, StoredRow>, rows: seq<(string, StoredRow)>, env: Env, key: string, stored: Option<StoredRow>)
    requires WellFormed(catalog) && QueryResult(catalog, store, rows)
    requires key in catalog
    requires catalog[key].category.Runtime? || catalog[key].category.Bootstrap? || (catalog[key].category.Secret? && !catalog[key].bootActivation)
      || key !in store || store[key].None?
    ensures ResolveStored(catalog[key], stored, Preloaded(catalog, rows, env)) == ResolveStored(catalog[key], stored, env)
  {
    hide Validate;
    if i :| 0 <= i < |rows| && rows[i].0 == key {
      PreloadedAt(catalog, rows, env, i);
    } else {
      PreloadedElsewhere(catalog, rows, env, key);
    }
  }

  /** An invalid stored value changes nothing: neither the environment nor what
      is effective, before and after the restart. */
  lemma InvalidValueIgnored(catalog: Catalog, store: map<string, StoredRow>, rows: seq<(string, StoredRow)>, env: Env, key: string)
    requires WellFormed(catalog) && QueryResult(catalog, store, rows)
    requires key in catalog && catalog[key].Preloaded() && key in store && store[key].Some?
    requires Validate(catalog[key], store[key].value).Err?
    ensures var def := catalog[key]; var env' := Preloaded(catalog, rows, env);
      && ResolveStored(def, Some(store[key]), env') == ResolveStored(def, Some(store[key]), env)
      && ResolveStored(def, Some(store[key]), env).value == ResolveEnvOrDefault(def, env).0
  {
    hide Validate;
    var i :| 0 <= i < |rows| && rows[i].0 == key;
    PreloadedAt(catalog, rows, env, i);
  }
}
