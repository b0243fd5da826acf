/** Server-side validation of submitted values against the form. */
module Validator {
  import opened Prelude
  import opened Numerals
  import opened Decimals
  import opened Events
  import opened FieldSpecs

  /** The regular-expression engine and the calendar, as deterministic functions, and the decimal context's precision. */
  datatype Library = Library(
    precision: nat,
    matches: (string, string) -> bool,
    parseDate: string -> Option<int>,
    formatDate: int -> string)

  /** A formatted date is a plain text that reads back as the same day; the precision is the default one at most. */
  ghost predicate LibraryOk(lib: Library) {
    && 1 <= lib.precision <= PRECISION
    && forall day :: Trimmed(lib.formatDate(day)) && lib.formatDate(day) != "" && lib.parseDate(lib.formatDate(day)) == Some(day)
  }

  /** Reads a day number. */
  function ReadDay(s: string): Option<int> {
    var negative := |s| > 0 && s[0] == '-';
    var digits := if negative then s[1..] else s;
    if !AllDigits(digits) then None
    else
      var n: int := NumberOf(digits);
      Some(if negative then -n else n)
  }

  /** A library that writes dates as day numbers. */
  const DAY_NUMBERS := Library(PRECISION, (pattern: string, text: string) => pattern == text, ReadDay, IntText)

  lemma ReadsDayBack(day: int)
    ensures ReadDay(IntText(day)) == Some(day)
  {
    hide NumberOf, Digits;
    if day < 0 {
      ValueOfDigits(-day);
      assert IntText(day)[1..] == Digits(-day);
    } else {
      ValueOfDigits(day);
      assert IsDigit(IntText(day)[0]);
    }
  }

  lemma DayNumbersAreOk()
    ensures LibraryOk(DAY_NUMBERS)
  {
    hide ReadDay, IntText;
    forall day: int
      ensures DAY_NUMBERS.parseDate(DAY_NUMBERS.formatDate(day)) == Some(day)
    {
      ReadsDayBack(day);
    }
  }

  /** A text that `str()` gives for something other than a string: never blank. */
  type Shown = s: string | Strip(s) != "" witness AShown()

  function AShown(): (s: string)
    ensures Strip(s) != ""
  {
    "x"
  }

  /** A submitted value before validation. A float carries its `repr` and the decimal number that denotes, if finite. */
  datatype Raw =
    | Null
    | Str(text: string)
    | Int(number: int)
    | Bool(flag: bool)
    | Float(repr: Shown, decimal: Option<Dec>)
    | Date(day: int)
    | DateTime(shown: Shown, day: int)

  /** `str(raw)`. */
  function RawText(lib: Library, raw: Raw): string {
    match raw
    case Null => "None"
    case Str(text) => text
    case Int(n) => IntText(n)
    case Bool(flag) => if flag then "True" else "False"
    case Float(repr, _) => repr
    case Date(day) => lib.formatDate(day)
    case DateTime(shown, _) => shown
  }

  /** A stored value, submitted again. */
  function RawOf(v: Value): Raw {
    match v
    case Text(s) => Str(s)
    case Number(n) => Int(n)
  }

  datatype Message =
    | Required
    | TooLong(limit: nat)
    | MustMatch(pattern: string)
    | NotInteger
    | NotNumber
    | AtLeast(min: Dec)
    | AtMost(max: Dec)
    | NotDate
    | NotOffered
    | UnknownField
    | CannotChange

  /** A coerced value (None when an optional field is blank), the violated rules, or an exception from `quantize`. */
  datatype Checked = Accepted(value: Option<Value>) | Rejected(messages: seq<Message>) | Raised

  predicate IsBlank(raw: Raw) {
    raw.Null? || (raw.Str? && Strip(raw.text) == "")
  }

  function ValidateField(lib: Library, f: FieldSpec, raw: Raw, options: seq<string>): (r: Checked)
    ensures r.Rejected? ==> r.messages != []
  {
    if IsBlank(raw) then if f.required then Rejected([Required]) else Accepted(None)
    else
      match f.kind
      case STRING => CoerceText(lib, f, raw)
      case TEXT => CoerceText(lib, f, raw)
      case INTEGER => CoerceInteger(lib, f, raw)
      case DECIMAL => CoerceDecimal(lib, f, raw)
      case DATE => CoerceDate(lib, raw)
      case ENUM => CoerceEnum(lib, f, raw, options)
  }

  function CoerceText(lib: Library, f: FieldSpec, raw: Raw): Checked {
    var text, limit := Strip(RawText(lib, raw)), f.EffectiveMaxLength();
    var messages :=
      (if |text| > limit then [TooLong(limit)] else []) +
      (if f.pattern.Some? && !lib.matches(f.pattern.value, Take(text, limit)) then [MustMatch(f.pattern.value)] else []);
    if messages != [] then Rejected(messages) else Accepted(Some(Text(text)))
  }

  /** `[+-]?\d{1,39}` as a number. */
  function ParseInteger(s: string): Option<int> {
    var body := Unsigned(s);
    if |s| > MAX_NUMERIC_CHARS || !AllDigits(body) || !(1 <= |body| <= 39) then None
    else Some(if Negative(s) then -(NumberOf(body) as int) else NumberOf(body))
  }

  function RangeError(f: FieldSpec, number: Dec): Option<Message> {
    if f.min.Some? && Less(number, f.min.value) then Some(AtLeast(f.min.value))
    else if f.max.Some? && Less(f.max.value, number) then Some(AtMost(f.max.value))
    else None
  }

  predicate WithinRange(f: FieldSpec, number: Dec) {
    (f.min.Some? ==> NotAbove(f.min.value, number)) && (f.max.Some? ==> NotAbove(number, f.max.value))
  }

  /** No message exactly within the bounds; the lower bound is reported first. */
  lemma RangeErrorIff(f: FieldSpec, number: Dec)
    ensures RangeError(f, number) ==
            if WithinRange(f, number) then None
            else if f.min.Some? && !NotAbove(f.min.value, number) then Some(AtLeast(f.min.value))
            else Some(AtMost(f.max.value))
  {
    hide Less, NotAbove;
    if f.min.Some? {
      LessIff(number, f.min.value);
    }
    if f.max.Some? {
      LessIff(f.max.value, number);
    }
  }

  function IntegerInRange(f: FieldSpec, n: int): Checked {
    match RangeError(f, Whole(n))
    case Some(message) => Rejected([message])
    case None => Accepted(Some(Number(n)))
  }

  function CoerceInteger(lib: Library, f: FieldSpec, raw: Raw): Checked {
    if raw.Bool? then Rejected([NotInteger])
    else if raw.Int? then IntegerInRange(f, raw.number)
    else
      match ParseInteger(Strip(RawText(lib, raw)))
      case None => Rejected([NotInteger])
      case Some(n) => IntegerInRange(f, n)
  }

  /** The number a decimal field reads from a raw value. */
  function DecimalRead(lib: Library, raw: Raw): Option<Dec> {
    if raw.Bool? then None
    else if raw.Float? then raw.decimal
    else ParseDecimal(Strip(RawText(lib, raw)))
  }

  function CoerceDecimal(lib: Library, f: FieldSpec, raw: Raw): Checked {
    match DecimalRead(lib, raw)
    case None => Rejected([NotNumber])
    case Some(number) =>
      match Quantize(number, f.EffectiveScale(), lib.precision)
      case None => Raised
      case Some(q) =>
        match RangeError(f, q)
        case Some(message) => Rejected([message])
        case None => Accepted(Some(Text(Print(q.neg, q.coeff, f.EffectiveScale()))))
  }

  function CoerceDate(lib: Library, raw: Raw): Checked {
    match raw
    case DateTime(_, day) => Accepted(Some(Text(lib.formatDate(day))))
    case Date(day) => Accepted(Some(Text(lib.formatDate(day))))
    case _ =>
      match lib.parseDate(Strip(RawText(lib, raw)))
      case None => Rejected([NotDate])
      case Some(day) => Accepted(Some(Text(lib.formatDate(day))))
  }

  function CoerceEnum(lib: Library, f: FieldSpec, raw: Raw, allowed: seq<string>): Checked {
    var text := Strip(RawText(lib, raw));
    var choices := if f.StaticOptions() != [] then f.StaticOptions() else allowed;
    if text !in choices then Rejected([NotOffered]) else Accepted(Some(Text(text)))
  }

  // ---------------------------------------------------- one field, once again

  lemma ShownText(lib: Library, raw: Raw)
    requires LibraryOk(lib) && !IsBlank(raw)
    ensures Strip(RawText(lib, raw)) != ""
  {
  }

  /** What a decimal field stores: its number of decimals, its distance from the input, its range, and itself once again. */
  lemma DecimalMeaning(lib: Library, f: FieldSpec, raw: Raw)
    requires LibraryOk(lib) && f.EffectiveScale() <= MAX_SCALE && CoerceDecimal(lib, f, raw).Accepted?
    ensures var scale, input := f.EffectiveScale(), DecimalRead(lib, raw).value;
            var stored := CoerceDecimal(lib, f, raw).value.value.text;
            var number := ParseDecimal(stored);
            && |stored| > scale && AllDigits(stored[|stored| - scale..])
            && (scale > 0 ==> |stored| > scale + 1 && stored[|stored| - scale - 1] == '.')
            && number == Quantize(input, scale, lib.precision) && number.Some?
            && WithinRange(f, number.value) && !IsBlank(Str(stored))
            && CoerceDecimal(lib, f, Str(stored)) == CoerceDecimal(lib, f, raw)
  {
    hide Strip, ParseDecimal, IntText, Print, RangeError, WithinRange, Rounded;
    var scale := f.EffectiveScale();
    var q := Quantize(DecimalRead(lib, raw).value, scale, lib.precision).value;
    RangeErrorIff(f, q);
    PrintedDecimals(q.neg, q.coeff, scale);
    ParsePrinted(q.neg, q.coeff, scale, lib.precision);
    QuantizeFixpoint(q.neg, q.coeff, scale, lib.precision);
  }

  lemma OnlyDecimalsRaise(lib: Library, f: FieldSpec, raw: Raw, options: seq<string>)
    ensures ValidateField(lib, f, raw, options).Raised? <==>
            f.kind.DECIMAL? && !IsBlank(raw) && CoerceDecimal(lib, f, raw).Raised?
  {
    hide CoerceDecimal, Strip, ParseDecimal, IntText, RawText;
  }

  /** A decimal field raises exactly when the number it reads has too many digits once rounded to the scale. */
  lemma RaisesIff(lib: Library, f: FieldSpec, raw: Raw, options: seq<string>)
    requires LibraryOk(lib)
    ensures ValidateField(lib, f, raw, options).Raised? <==>
            && f.kind.DECIMAL? && !IsBlank(raw) && DecimalRead(lib, raw).Some?
            && Overflows(DecimalRead(lib, raw).value, f.EffectiveScale(), lib.precision)
  {
    hide ValidateField, DecimalRead, Overflows, Quantize, Print, Less;
    OnlyDecimalsRaise(lib, f, raw, options);
    if DecimalRead(lib, raw).Some? {
      QuantizeFailsIff(DecimalRead(lib, raw).value, f.EffectiveScale(), lib.precision);
    }
  }

  /** For instance, at 28 digits, the integer 10^26 in an unbounded field with two decimals. */
  lemma RaisesExample(lib: Library, name: string)
    requires lib.precision == PRECISION
    ensures ValidateField(
              lib, FieldSpec(name, DECIMAL, "", 0, false, None, None, None, None, None, NoSource), Int(Pow10(26)), []).Raised?
  {
    RaisesAt(lib, FieldSpec(name, DECIMAL, "", 0, false, None, None, None, None, None, NoSource), 26);
  }

  lemma {:induction false} RaisesAt(lib: Library, f: FieldSpec, k: nat)
    requires f.kind.DECIMAL? && 1 <= k < 30 && k + f.EffectiveScale() >= lib.precision
    ensures ValidateField(lib, f, Int(Pow10(k)), []).Raised?
  {
    hide Strip, ParseDecimal, Print, Less;
    DigitsShort(Pow10(k), k + 1);
    ParseDigits(Pow10(k));
    Pow10Sum(k, f.EffectiveScale());
    Pow10Monotonic(lib.precision, k + f.EffectiveScale());
  }

  lemma TextIdempotent(lib: Library, f: FieldSpec, raw: Raw)
    requires CoerceText(lib, f, raw).Accepted?
    ensures CoerceText(lib, f, RawOf(CoerceText(lib, f, raw).value.value)) == CoerceText(lib, f, raw)
    ensures CoerceText(lib, f, raw).value == Some(Text(Strip(RawText(lib, raw))))
  {
  }

  lemma DateIdempotent(lib: Library, raw: Raw)
    requires LibraryOk(lib) && CoerceDate(lib, raw).Accepted?
    ensures CoerceDate(lib, RawOf(CoerceDate(lib, raw).value.value)) == CoerceDate(lib, raw)
    ensures !IsBlank(RawOf(CoerceDate(lib, raw).value.value))
  {
  }

  lemma IntegerIdempotent(lib: Library, f: FieldSpec, raw: Raw)
    requires CoerceInteger(lib, f, raw).Accepted?
    ensures CoerceInteger(lib, f, RawOf(CoerceInteger(lib, f, raw).value.value)) == CoerceInteger(lib, f, raw)
    ensures !IsBlank(RawOf(CoerceInteger(lib, f, raw).value.value))
  {
    hide ParseInteger, RangeError, Strip, RawText;
  }

  lemma EnumIdempotent(lib: Library, f: FieldSpec, raw: Raw, options: seq<string>, more: seq<string>)
    requires CoerceEnum(lib, f, raw, options).Accepted? && forall o :: o in options ==> o in more
    ensures CoerceEnum(lib, f, RawOf(CoerceEnum(lib, f, raw, options).value.value), more) == CoerceEnum(lib, f, raw, options)
    ensures CoerceEnum(lib, f, raw, options).value == Some(Text(Strip(RawText(lib, raw))))
  {
    hide Strip, NonBlank, IntText;
  }

  /** A value a field has accepted is accepted again, unchanged, under the same options or more. */
  lemma FieldIdempotent(lib: Library, f: FieldSpec, raw: Raw, options: seq<string>, more: seq<string>)
    requires LibraryOk(lib) && f.EffectiveScale() <= MAX_SCALE
    requires forall o :: o in options ==> o in more
    requires ValidateField(lib, f, raw, options).Accepted? && ValidateField(lib, f, raw, options).value.Some?
    ensures ValidateField(lib, f, RawOf(ValidateField(lib, f, raw, options).value.value), more) ==
            ValidateField(lib, f, raw, options)
  {
    ShownText(lib, raw);
    hide Strip, RawText, CoerceText, CoerceInteger, CoerceDecimal, CoerceDate, CoerceEnum, Quantize, RangeError;
    match f.kind {
      case STRING => TextIdempotent(lib, f, raw);
      case TEXT => TextIdempotent(lib, f, raw);
      case INTEGER => IntegerIdempotent(lib, f, raw);
      case DECIMAL => DecimalMeaning(lib, f, raw);
      case DATE => DateIdempotent(lib, raw);
      case ENUM => EnumIdempotent(lib, f, raw, options, more);
    }
  }

  // ----------------------------------------------------------- the whole form

  type Raws = map<string, Raw>
  type Options = map<string, seq<string>>
  type Errors = map<string, seq<Message>>

  /** `values.get(name)`. */
  function RawAt(raws: Raws, name: string): Raw {
    if name in raws then raws[name] else Null
  }

  /** `options.get(name, ())`. */
  function OptionsAt(options: Options, name: string): seq<string> {
    if name in options then options[name] else []
  }

  /** Cleaned values and errors per field, or an exception. */
  datatype Validation = Validation(values: Values, errors: Errors) | Crashed {
    predicate Ok() { Validation? && errors == map[] }
  }

  function UnknownErrors(raws: Raws, spec: FormSpec): Errors {
    map name | name in raws && !spec.Names(name) :: [UnknownField]
  }

  function CheckFields(lib: Library, fields: seq<FieldSpec>, raws: Raws, options: Options, unknown: Errors): Validation {
    if |fields| == 0 then Validation(map[], unknown)
    else
      var f := fields[|fields| - 1];
      match CheckFields(lib, fields[..|fields| - 1], raws, options, unknown)
      case Crashed => Crashed
      case Validation(values, errors) =>
        match ValidateField(lib, f, RawAt(raws, f.name), OptionsAt(options, f.name))
        case Raised => Crashed
        case Rejected(messages) => Validation(values, errors[f.name := messages])
        case Accepted(None) => Validation(values, errors)
        case Accepted(Some(v)) => Validation(values[f.name := v], errors)
  }

  /** What `validate_values` returns. */
  function CheckForm(lib: Library, spec: FormSpec, raws: Raws, options: Options): Validation {
    CheckFields(lib, spec.fields, raws, options, UnknownErrors(raws, spec))
  }

  method ValidateValues(lib: Library, spec: FormSpec, raws: Raws, options: Options) returns (r: Validation)
    ensures r == CheckForm(lib, spec, raws, options)
  {
    hide ValidateField;
    var errors: Errors := map[];
    var todo := raws.Keys;
    while todo != {}
      invariant todo <= raws.Keys
      invariant errors == map name | name in raws && name !in todo && !spec.Names(name) :: [UnknownField]
      decreases todo
    {
      var name :| name in todo;
      todo := todo - {name};
      if !spec.Names(name) {
        errors := errors[name := [UnknownField]];
      }
    }
    assert errors == UnknownErrors(raws, spec);
    var cleaned: Values := map[];
    for i := 0 to |spec.fields|
      invariant CheckFields(lib, spec.fields[..i], raws, options, UnknownErrors(raws, spec)) == Validation(cleaned, errors)
    {
      var f := spec.fields[i];
      assert spec.fields[..i + 1][..i] == spec.fields[..i];
      var checked := ValidateField(lib, f, RawAt(raws, f.name), OptionsAt(options, f.name));
      if checked.Raised? {
        CrashPersists(lib, spec.fields, i + 1, raws, options, UnknownErrors(raws, spec));
        return Crashed;
      }
      if checked.Rejected? {
        errors := errors[f.name := checked.messages];
      } else if checked.value.Some? {
        cleaned := cleaned[f.name := checked.value.value];
      }
    }
    assert spec.fields[..|spec.fields|] == spec.fields;
    return Validation(cleaned, errors);
  }

  lemma {:induction false} CrashPersists(
      lib: Library, fields: seq<FieldSpec>, n: nat, raws: Raws, options: Options, unknown: Errors)
    requires n <= |fields| && CheckFields(lib, fields[..n], raws, options, unknown).Crashed?
    ensures CheckFields(lib, fields, raws, options, unknown).Crashed?
    decreases |fields|
  {
    hide ValidateField;
    if n == |fields| {
      assert fields[..n] == fields;
    } else {
      assert fields[..|fields| - 1][..n] == fields[..n];
      CrashPersists(lib, fields[..|fields| - 1], n, raws, options, unknown);
    }
  }

  /** What one field contributes to the result. */
  predicate Contributes(lib: Library, f: FieldSpec, raws: Raws, options: Options, values: Values, errors: Errors) {
    match ValidateField(lib, f, RawAt(raws, f.name), OptionsAt(options, f.name))
    case Raised => false
    case Rejected(messages) => f.name in errors && errors[f.name] == messages && f.name !in values
    case Accepted(v) => f.name !in errors && Lookup(values, f.name) == v
  }

  predicate AllContribute(lib: Library, fields: seq<FieldSpec>, raws: Raws, options: Options, values: Values, errors: Errors) {
    forall i :: 0 <= i < |fields| ==> Contributes(lib, fields[i], raws, options, values, errors)
  }

  /** Only known fields contribute values, and only known or unknown names errors. */
  predicate OnlyNamed(fields: seq<FieldSpec>, values: Values, errors: Errors, unknown: Errors) {
    && (forall name <- values :: Named(fields, name))
    && (forall name <- errors :: name in unknown || Named(fields, name))
    && (forall name <- unknown :: name in errors && (Named(fields, name) || errors[name] == unknown[name]))
  }

  lemma {:induction false} FieldsContribute(
      lib: Library, fields: seq<FieldSpec>, raws: Raws, options: Options, unknown: Errors)
    requires UniqueNames(fields) && CheckFields(lib, fields, raws, options, unknown).Validation?
    requires forall i :: 0 <= i < |fields| ==> fields[i].name !in unknown
    ensures var r := CheckFields(lib, fields, raws, options, unknown);
            AllContribute(lib, fields, raws, options, r.values, r.errors) && OnlyNamed(fields, r.values, r.errors, unknown)
  {
    hide ValidateField;
    if |fields| > 0 {
      var init, f := fields[..|fields| - 1], fields[|fields| - 1];
      FieldsContribute(lib, init, raws, options, unknown);
      OneMoreContributes(
        lib, fields, raws, options, unknown,
        CheckFields(lib, init, raws, options, unknown), CheckFields(lib, fields, raws, options, unknown));
    }
  }

  /** The values and errors with what one field adds to them. */
  predicate Adds(lib: Library, f: FieldSpec, raws: Raws, options: Options, before: Validation, after: Validation)
    requires before.Validation? && after.Validation?
  {
    match ValidateField(lib, f, RawAt(raws, f.name), OptionsAt(options, f.name))
    case Raised => false
    case Rejected(messages) => after == Validation(before.values, before.errors[f.name := messages])
    case Accepted(None) => after == before
    case Accepted(Some(v)) => after == Validation(before.values[f.name := v], before.errors)
  }

  lemma OthersStay(
      lib: Library, g: FieldSpec, f: FieldSpec, raws: Raws, options: Options, before: Validation, after: Validation)
    requires before.Validation? && after.Validation? && Adds(lib, f, raws, options, before, after) && g.name != f.name
    requires Contributes(lib, g, raws, options, before.values, before.errors)
    ensures Contributes(lib, g, raws, options, after.values, after.errors)
  {
    hide ValidateField;
  }

  lemma AddedContributes(lib: Library, f: FieldSpec, raws: Raws, options: Options, before: Validation, after: Validation)
    requires before.Validation? && after.Validation? && Adds(lib, f, raws, options, before, after)
    requires f.name !in before.values && f.name !in before.errors
    ensures Contributes(lib, f, raws, options, after.values, after.errors)
    ensures after.values.Keys <= before.values.Keys + {f.name}
    ensures before.errors.Keys <= after.errors.Keys <= before.errors.Keys + {f.name}
    ensures forall name <- before.errors :: after.errors[name] == before.errors[name]
  {
    hide ValidateField;
  }

  lemma OneMoreContributes(
      lib: Library, fields: seq<FieldSpec>, raws: Raws, options: Options, unknown: Errors, before: Validation, after: Validation)
    requires |fields| > 0 && UniqueNames(fields) && fields[|fields| - 1].name !in unknown
    requires before.Validation? && after.Validation? && Adds(lib, fields[|fields| - 1], raws, options, before, after)
    requires var init := fields[..|fields| - 1];
             && AllContribute(lib, init, raws, options, before.values, before.errors)
             && OnlyNamed(init, before.values, before.errors, unknown)
    ensures AllContribute(lib, fields, raws, options, after.values, after.errors)
    ensures OnlyNamed(fields, after.values, after.errors, unknown)
  {
    hide Adds, Contributes;
    var init, f := fields[..|fields| - 1], fields[|fields| - 1];
    forall name
      ensures Named(fields, name) <==> Named(init, name) || name == f.name
    {
      NamedOneMore(fields, name);
    }
    assert !Named(init, f.name);
    AddedContributes(lib, f, raws, options, before, after);
    forall i | 0 <= i < |init|
      ensures Contributes(lib, fields[i], raws, options, after.values, after.errors)
    {
      assert init[i].name != f.name;
      OthersStay(lib, init[i], f, raws, options, before, after);
    }
  }

  /** A required field is never left without a value. */
  lemma BlankField(lib: Library, f: FieldSpec)
    ensures forall raw, allowed :: ValidateField(lib, f, raw, allowed) == Accepted(None) ==> !f.required && IsBlank(raw)
    ensures forall allowed :: !f.required ==> ValidateField(lib, f, Null, allowed) == Accepted(None)
  {
    hide Strip, ParseDecimal, IntText, Print, Less;
  }

  /** The current value of a field is one the field would accept and keep. */
  predicate Stands(lib: Library, f: FieldSpec, v: Option<Value>, options: seq<string>) {
    match v
    case None => !f.required
    case Some(value) => ValidateField(lib, f, RawOf(value), options) == Accepted(v)
  }

  predicate PlainText(v: Value) {
    v.Text? && v.text != "" && Trimmed(v.text)
  }

  predicate FitsText(lib: Library, f: FieldSpec, text: string) {
    |text| <= (if f.maxLength.Some? then f.maxLength.value else 10_000) && (f.pattern.Some? ==> lib.matches(f.pattern.value, text))
  }

  predicate PrintsWithin(lib: Library, f: FieldSpec, v: Value, neg: bool, coeff: nat) {
    && v == Text(Print(neg, coeff, if f.scale.Some? then f.scale.value else 2)) && coeff < Pow10(lib.precision)
    && WithinRange(f, Dec(neg, coeff, -(if f.scale.Some? then f.scale.value else 2)))
  }

  /** What the form says of a value of this field, without regard to how values are read. */
  ghost predicate Obeys(lib: Library, f: FieldSpec, v: Value, options: seq<string>) {
    match f.kind
    case STRING => PlainText(v) && FitsText(lib, f, v.text)
    case TEXT => PlainText(v) && FitsText(lib, f, v.text)
    case INTEGER => v.Number? && WithinRange(f, Whole(v.number))
    case DECIMAL => exists neg, coeff :: PrintsWithin(lib, f, v, neg, coeff)
    case DATE => exists day :: v == Text(lib.formatDate(day))
    case ENUM => PlainText(v) && v.text in if f.StaticOptions() != [] then f.StaticOptions() else options
  }

  lemma TextStands(lib: Library, f: FieldSpec, v: Value)
    requires !IsBlank(RawOf(v))
    ensures CoerceText(lib, f, RawOf(v)) == Accepted(Some(v)) <==> PlainText(v) && FitsText(lib, f, v.text)
  {
    hide IntText;
    var text, limit := Strip(RawText(lib, RawOf(v))), f.EffectiveMaxLength();
    assert |text| <= limit ==> Take(text, limit) == text;
  }

  lemma EnumStands(lib: Library, f: FieldSpec, v: Value, options: seq<string>)
    requires !IsBlank(RawOf(v))
    ensures CoerceEnum(lib, f, RawOf(v), options) == Accepted(Some(v)) <==>
            PlainText(v) && v.text in if f.StaticOptions() != [] then f.StaticOptions() else options
  {
    hide IntText, NonBlank;
  }

  lemma DecimalStands(lib: Library, f: FieldSpec, v: Value)
    requires LibraryOk(lib) && f.EffectiveScale() <= MAX_SCALE
    ensures CoerceDecimal(lib, f, RawOf(v)) == Accepted(Some(v)) <==> exists neg, coeff :: PrintsWithin(lib, f, v, neg, coeff)
  {
    hide ParseDecimal, IntText, Print, RangeError, WithinRange, Rounded;
    var scale := f.EffectiveScale();
    if CoerceDecimal(lib, f, RawOf(v)) == Accepted(Some(v)) {
      var q := Quantize(DecimalRead(lib, RawOf(v)).value, scale, lib.precision).value;
      RangeErrorIff(f, q);
      assert PrintsWithin(lib, f, v, q.neg, q.coeff);
    }
    if neg, coeff :| PrintsWithin(lib, f, v, neg, coeff) {
      RangeErrorIff(f, Dec(neg, coeff, -(scale as int)));
      PrintedDecimals(neg, coeff, scale);
      ParsePrinted(neg, coeff, scale, lib.precision);
      QuantizeFixpoint(neg, coeff, scale, lib.precision);
    }
  }

  lemma DateStands(lib: Library, v: Value)
    requires LibraryOk(lib)
    ensures CoerceDate(lib, RawOf(v)) == Accepted(Some(v)) <==> exists day :: v == Text(lib.formatDate(day))
  {
    hide IntText;
  }

  /** A blank value obeys no field's rules. */
  lemma ObeyingIsNotBlank(lib: Library, f: FieldSpec, v: Value, options: seq<string>)
    requires LibraryOk(lib) && Obeys(lib, f, v, options)
    ensures !IsBlank(RawOf(v))
  {
    hide Print, WithinRange;
    if f.kind.DECIMAL? {
      var neg, coeff :| PrintsWithin(lib, f, v, neg, coeff);
      PrintedDecimals(neg, coeff, f.EffectiveScale());
    }
  }

  /** A stored value passes validation unchanged exactly when it obeys its field's rules. */
  lemma StandsIff(lib: Library, f: FieldSpec, v: Value, options: seq<string>)
    requires LibraryOk(lib) && f.EffectiveScale() <= MAX_SCALE
    ensures Stands(lib, f, Some(v), options) <==> Obeys(lib, f, v, options)
  {
    hide CoerceText, CoerceDecimal, CoerceDate, CoerceEnum, PlainText, FitsText, PrintsWithin, Strip, RangeError, WithinRange;
    if v.Number? {
      RangeErrorIff(f, Whole(v.number));
    }
    if Obeys(lib, f, v, options) {
      ObeyingIsNotBlank(lib, f, v, options);
    }
    if !IsBlank(RawOf(v)) {
      TextStands(lib, f, v);
      EnumStands(lib, f, v, options);
      DecimalStands(lib, f, v);
      DateStands(lib, v);
    }
  }

  predicate AllStand(lib: Library, spec: FormSpec, values: Values, options: Options) {
    && (forall name <- values :: spec.Names(name))
    && forall i :: 0 <= i < |spec.fields| ==>
         Stands(lib, spec.fields[i], Lookup(values, spec.fields[i].name), OptionsAt(options, spec.fields[i].name))
  }

  function RawValues(values: Values): Raws {
    map name | name in values :: RawOf(values[name])
  }

  /** Values pass validation unchanged exactly when every field's value stands. */
  lemma PassUnchangedIff(lib: Library, spec: FormSpec, values: Values, options: Options)
    requires spec.Loaded()
    ensures CheckForm(lib, spec, RawValues(values), options) == Validation(values, map[]) <==>
            AllStand(lib, spec, values, options)
  {
    hide ValidateField;
    var raws := RawValues(values);
    if AllStand(lib, spec, values, options) {
      assert UnknownErrors(raws, spec) == map[];
      StandingFieldsPass(lib, spec.fields, values, options);
      assert Kept(values, spec.fields) == values;
    }
    if CheckForm(lib, spec, raws, options) == Validation(values, map[]) {
      AcceptedFormNamesKnown(lib, spec, raws, options);
      FieldsContribute(lib, spec.fields, raws, options, map[]);
      forall i | 0 <= i < |spec.fields|
        ensures Stands(lib, spec.fields[i], Lookup(values, spec.fields[i].name), OptionsAt(options, spec.fields[i].name))
      {
        BlankField(lib, spec.fields[i]);
        assert Contributes(lib, spec.fields[i], raws, options, values, map[]);
      }
    }
  }

  /** The values of the fields in a list. */
  function Kept(values: Values, fields: seq<FieldSpec>): Values {
    map name | name in values && Named(fields, name) :: values[name]
  }

  lemma {:induction false} StandingFieldsPass(lib: Library, fields: seq<FieldSpec>, values: Values, options: Options)
    requires forall i :: 0 <= i < |fields| ==>
               Stands(lib, fields[i], Lookup(values, fields[i].name), OptionsAt(options, fields[i].name))
    ensures CheckFields(lib, fields, RawValues(values), options, map[]) == Validation(Kept(values, fields), map[])
  {
    hide ValidateField;
    if |fields| > 0 {
      var init, f := fields[..|fields| - 1], fields[|fields| - 1];
      StandingFieldsPass(lib, init, values, options);
      KeptOneMore(values, fields);
      BlankField(lib, f);
      assert Stands(lib, f, Lookup(values, f.name), OptionsAt(options, f.name));
    }
  }

  lemma KeptOneMore(values: Values, fields: seq<FieldSpec>)
    requires |fields| > 0
    ensures var init, f := fields[..|fields| - 1], fields[|fields| - 1];
            Kept(values, fields) == if f.name in values then Kept(values, init)[f.name := values[f.name]] else Kept(values, init)
  {
    forall name
      ensures Named(fields, name) <==> Named(fields[..|fields| - 1], name) || name == fields[|fields| - 1].name
    {
      NamedOneMore(fields, name);
    }
    var init, f := fields[..|fields| - 1], fields[|fields| - 1];
    assert Kept(values, fields) ==
           if f.name in values then Kept(values, init)[f.name := values[f.name]] else Kept(values, init);
  }

  lemma AcceptedFormNamesKnown(lib: Library, spec: FormSpec, raws: Raws, options: Options)
    requires spec.Loaded() && CheckForm(lib, spec, raws, options).Ok()
    ensures UnknownErrors(raws, spec) == map[] && forall name <- raws :: spec.Names(name)
  {
    var unknown := UnknownErrors(raws, spec);
    FieldsContribute(lib, spec.fields, raws, options, unknown);
    assert unknown.Keys == {};
    forall name | name in raws
      ensures spec.Names(name)
    {
      assert name !in unknown;
    }
  }

  /** The validator is idempotent: what it has accepted passes again, unchanged, under the same options or more. */
  lemma FormIdempotent(lib: Library, spec: FormSpec, raws: Raws, options: Options, more: Options)
    requires LibraryOk(lib) && spec.Loaded() && CheckForm(lib, spec, raws, options).Ok()
    requires forall i :: 0 <= i < |spec.fields| ==>
               forall o :: o in OptionsAt(options, spec.fields[i].name) ==> o in OptionsAt(more, spec.fields[i].name)
    ensures var values := CheckForm(lib, spec, raws, options).values;
            CheckForm(lib, spec, RawValues(values), more) == Validation(values, map[])
  {
    hide ValidateField;
    var values := CheckForm(lib, spec, raws, options).values;
    AcceptedFormNamesKnown(lib, spec, raws, options);
    FieldsContribute(lib, spec.fields, raws, options, map[]);
    forall i | 0 <= i < |spec.fields|
      ensures Stands(lib, spec.fields[i], Lookup(values, spec.fields[i].name), OptionsAt(more, spec.fields[i].name))
    {
      var f := spec.fields[i];
      BlankField(lib, f);
      assert Contributes(lib, f, raws, options, values, map[]);
      if f.name in values {
        FieldIdempotent(lib, f, RawAt(raws, f.name), OptionsAt(options, f.name), OptionsAt(more, f.name));
      }
    }
    PassUnchangedIff(lib, spec, values, more);
  }
}
