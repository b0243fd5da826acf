/** What the validator makes of a raw value, for every type of field: said of the value and the rules alone. */
module FieldRules {
  import opened Prelude
  import opened Numerals
  import opened Decimals
  import opened Events
  import opened FieldSpecs
  import opened Validator

  // ------------------------------------------------------------------- blanks

  lemma BlankIff(raw: Raw)
    ensures IsBlank(raw) <==> raw.Null? || (raw.Str? && AllSpaces(raw.text))
  {
    hide Strip;
    if raw.Str? {
      StripEmptyIff(raw.text);
    }
  }

  /** A blank value is accepted as none unless one is required; no other value is. */
  lemma BlankChecked(lib: Library, f: FieldSpec, raw: Raw, options: seq<string>)
    ensures var r := ValidateField(lib, f, raw, options);
            if IsBlank(raw) then r == if f.required then Rejected([Required]) else Accepted(None)
            else r != Accepted(None) && !(r.Rejected? && Required in r.messages)
  {
    hide CoerceText, CoerceInteger, CoerceDecimal, CoerceDate, CoerceEnum;
    if !IsBlank(raw) {
      OthersNotBlank(lib, f, raw, options);
    }
  }

  predicate IsAnswered(r: Checked) {
    r != Accepted(None) && !(r.Rejected? && Required in r.messages)
  }

  lemma OthersNotBlank(lib: Library, f: FieldSpec, raw: Raw, options: seq<string>)
    ensures IsAnswered(CoerceText(lib, f, raw)) && IsAnswered(CoerceInteger(lib, f, raw)) && IsAnswered(CoerceDecimal(lib, f, raw))
    ensures IsAnswered(CoerceDate(lib, raw)) && IsAnswered(CoerceEnum(lib, f, raw, options))
  {
    hide Strip, ParseDecimal, ParseInteger, IntText, Print, Less, Quantize, RawText, NonBlank, NotAbove;
  }

  // -------------------------------------------------------------------- texts

  /** What `str()` gives of a raw value that is no string. */
  lemma ShownAs(lib: Library, n: int, day: int)
    ensures RawText(lib, Bool(true)) == "True" && RawText(lib, Bool(false)) == "False"
    ensures RawText(lib, Date(day)) == lib.formatDate(day)
    ensures |Digits(if n < 0 then -n else n)| <= 39 ==> ParseInteger(RawText(lib, Int(n))) == Some(n)
  {
    hide IntText, ParseInteger, Digits;
    if |Digits(if n < 0 then -n else n)| <= 39 {
      IntegerReadsBack(n);
    }
  }

  /** The declared maximal length, and 10,000 without one. */
  function Limit(f: FieldSpec): nat {
    match f.maxLength
    case None => 10_000
    case Some(n) => n
  }

  /** The declared number of decimals, and two without one. */
  function Scale(f: FieldSpec): nat {
    match f.scale
    case None => 2
    case Some(n) => n
  }

  /** A text is stored without the blanks around it if it fits; otherwise every broken rule is reported. */
  lemma TextChecked(lib: Library, f: FieldSpec, raw: Raw, options: seq<string>)
    requires (f.kind.STRING? || f.kind.TEXT?) && !IsBlank(raw)
    ensures var r, text, limit := ValidateField(lib, f, raw, options), Strip(RawText(lib, raw)), Limit(f);
            var long, odd := |text| > limit, f.pattern.Some? && !lib.matches(f.pattern.value, Take(text, limit));
            && (!long && !odd <==> FitsText(lib, f, text))
            && r == if FitsText(lib, f, text) then Accepted(Some(Text(text)))
                    else if !odd then Rejected([TooLong(limit)])
                    else if !long then Rejected([MustMatch(f.pattern.value)])
                    else Rejected([TooLong(limit), MustMatch(f.pattern.value)])
  {
    hide Strip, RawText;
    var text, limit := Strip(RawText(lib, raw)), f.EffectiveMaxLength();
    assert |text| <= limit ==> Take(text, limit) == text;
  }

  /** A value offered is stored; inline options leave those of the caller out of account. */
  lemma EnumChecked(lib: Library, f: FieldSpec, raw: Raw, options: seq<string>)
    requires f.kind.ENUM? && !IsBlank(raw)
    ensures var r, text := ValidateField(lib, f, raw, options), Strip(RawText(lib, raw));
            var offered := if f.StaticOptions() == [] then text in options else text in f.StaticOptions();
            r == if offered then Accepted(Some(Text(text))) else Rejected([NotOffered])
  {
    hide Strip, RawText, NonBlank;
  }

  /** The day that a raw value denotes. */
  function DayOf(lib: Library, raw: Raw): Option<int> {
    match raw
    case Date(day) => Some(day)
    case DateTime(_, day) => Some(day)
    case _ => lib.parseDate(Strip(RawText(lib, raw)))
  }

  lemma DateChecked(lib: Library, f: FieldSpec, raw: Raw, options: seq<string>)
    requires f.kind.DATE? && !IsBlank(raw)
    ensures var r, day := ValidateField(lib, f, raw, options), DayOf(lib, raw);
            r == if day.Some? then Accepted(Some(Text(lib.formatDate(day.value)))) else Rejected([NotDate])
  {
    hide Strip, RawText;
  }

  // ----------------------------------------------------------------- integers

  /** `s` is a sign and at most 39 digits, and denotes `n`. */
  predicate IsIntegerText(s: string, sign: string, digits: string, n: int) {
    && sign in {"", "+", "-"} && s == sign + digits && |s| <= 40 && AllDigits(digits) && 1 <= |digits| <= 39
    && n == if sign == "-" then -(NumberOf(digits) as int) else NumberOf(digits)
  }

  lemma ParseIntegerIff(s: string, n: int)
    ensures ParseInteger(s) == Some(n) <==> exists sign, digits :: IsIntegerText(s, sign, digits, n)
  {
    hide NumberOf;
    if ParseInteger(s) == Some(n) {
      var sign := SignAndBody(s);
      assert IsIntegerText(s, sign, Unsigned(s), n);
    }
    if sign, digits :| IsIntegerText(s, sign, digits, n) {
      assert sign == "" ==> IsDigit(s[0]);
      assert sign != "" ==> s[0] == sign[0] && s[1..] == digits;
      assert sign == "" ==> s == digits;
      assert Unsigned(s) == digits && (Negative(s) <==> sign == "-");
    }
  }

  lemma IntTextIs(m: nat, sign: string)
    requires |Digits(m)| <= 39 && (sign == "" || sign == "-")
    ensures IsIntegerText(sign + Digits(m), sign, Digits(m), if sign == "-" then -(m as int) else m)
  {
    ValueOfDigits(m);
    hide NumberOf, Digits;
  }

  /** What `str()` prints of an integer is read as that integer. */
  lemma IntegerReadsBack(n: int)
    requires |Digits(if n < 0 then -n else n)| <= 39
    ensures ParseInteger(IntText(n)) == Some(n)
  {
    hide IsIntegerText, ParseInteger, Digits;
    IntTextIs(if n < 0 then -n else n, if n < 0 then "-" else "");
    assert "" + IntText(n) == IntText(n);
    ParseIntegerIff(IntText(n), n);
  }

  /** The raw value denotes the integer. */
  ghost predicate DenotesInteger(lib: Library, raw: Raw, n: int) {
    match raw
    case Bool(_) => false
    case Int(m) => n == m
    case _ => exists sign, digits :: IsIntegerText(Strip(RawText(lib, raw)), sign, digits, n)
  }

  /** An integer field accepts exactly the integers within its bounds, and names the first bound that is broken. */
  lemma IntegerChecked(lib: Library, f: FieldSpec, raw: Raw, options: seq<string>)
    requires f.kind.INTEGER? && !IsBlank(raw)
    ensures var r := ValidateField(lib, f, raw, options);
            && (r == Rejected([NotInteger]) <==> forall n :: !DenotesInteger(lib, raw, n))
            && forall n :: DenotesInteger(lib, raw, n) ==>
                 r == if f.min.Some? && !NotAbove(f.min.value, Whole(n)) then Rejected([AtLeast(f.min.value)])
                      else if f.max.Some? && !NotAbove(Whole(n), f.max.value) then Rejected([AtMost(f.max.value)])
                      else Accepted(Some(Number(n)))
  {
    hide Strip, RawText, ParseInteger, NotAbove, RangeError, IsIntegerText;
    forall n
      ensures DenotesInteger(lib, raw, n) <==>
              !raw.Bool? && if raw.Int? then n == raw.number else ParseInteger(Strip(RawText(lib, raw))) == Some(n)
      ensures RangeError(f, Whole(n)) ==
              if f.min.Some? && !NotAbove(f.min.value, Whole(n)) then Some(AtLeast(f.min.value))
              else if f.max.Some? && !NotAbove(Whole(n), f.max.value) then Some(AtMost(f.max.value))
              else None
    {
      ParseIntegerIff(Strip(RawText(lib, raw)), n);
      RangeErrorIff(f, Whole(n));
    }
    var read := if raw.Int? then Some(raw.number) else if raw.Bool? then None else ParseInteger(Strip(RawText(lib, raw)));
    if read.Some? {
      assert DenotesInteger(lib, raw, read.value);
    }
  }

  /** With whole bounds: from `lo` to `hi`. */
  lemma IntegerRange(lib: Library, f: FieldSpec, raw: Raw, n: int, lo: int, hi: int, options: seq<string>)
    requires f.kind.INTEGER? && !IsBlank(raw) && DenotesInteger(lib, raw, n)
    requires f.min == Some(Whole(lo)) && f.max == Some(Whole(hi))
    ensures ValidateField(lib, f, raw, options) ==
            if n < lo then Rejected([AtLeast(Whole(lo))])
            else if n > hi then Rejected([AtMost(Whole(hi))])
            else Accepted(Some(Number(n)))
  {
    hide ValidateField, NotAbove, DenotesInteger;
    IntegerChecked(lib, f, raw, options);
    WholeOrder(lo, n);
    WholeOrder(n, hi);
  }

  // ----------------------------------------------------------------- decimals

  /** The raw value denotes the number. */
  ghost predicate DenotesDecimal(lib: Library, raw: Raw, d: Dec) {
    match raw
    case Bool(_) => false
    case Float(_, decimal) => decimal == Some(d)
    case _ => exists sign, whole, decimals :: IsNumeral(Strip(RawText(lib, raw)), sign, whole, decimals, d)
  }

  /** `q` is `d` rounded to `scale` decimals: at most half a unit away, and even when exactly half. */
  predicate IsRounded(d: Dec, scale: nat, q: Dec) {
    && q.neg == d.neg && q.exp == -(scale as int)
    && if d.exp + scale >= 0 then q.coeff == d.coeff * Pow10(d.exp + scale)
       else
         var unit: int := Pow10(-(d.exp + scale));
         && -unit <= 2 * (q.coeff * unit - d.coeff) <= unit
         && (2 * (q.coeff * unit - d.coeff) == unit || 2 * (q.coeff * unit - d.coeff) == -unit ==> q.coeff % 2 == 0)
  }

  /** The text stored for `q`: read back as `q`, with exactly `scale` decimals, and without a superfluous zero in front. */
  predicate IsPrinted(stored: string, q: Dec, scale: nat) {
    var start, end := if q.neg then 1 else 0, |stored| - scale - if scale > 0 then 1 else 0;
    && ParseDecimal(stored) == Some(q) && start < end && AllDigits(stored[start..end])
    && (stored[start] == '0' ==> end == start + 1)
  }

  lemma DecimalReadIff(lib: Library, raw: Raw, d: Dec)
    ensures DenotesDecimal(lib, raw, d) <==> DecimalRead(lib, raw) == Some(d)
  {
    hide Strip, RawText, ParseDecimal, IsNumeral;
    ParseDecimalIff(Strip(RawText(lib, raw)), d);
  }

  lemma StoredIsPrinted(lib: Library, q: Dec, scale: nat)
    requires LibraryOk(lib) && scale <= MAX_SCALE && q.exp == -(scale as int) && q.coeff < Pow10(lib.precision)
    ensures IsPrinted(Print(q.neg, q.coeff, scale), q, scale)
  {
    hide ParseDecimal, Print, Pow10;
    ParsePrinted(q.neg, q.coeff, scale, lib.precision);
    PrintedWhole(q.neg, q.coeff, scale);
  }

  /** What a decimal field answers for the number `q` it has rounded to. */
  predicate AnswersFor(f: FieldSpec, q: Dec, r: Checked) {
    if f.min.Some? && !NotAbove(f.min.value, q) then r == Rejected([AtLeast(f.min.value)])
    else if f.max.Some? && !NotAbove(q, f.max.value) then r == Rejected([AtMost(f.max.value)])
    else r.Accepted? && r.value.Some? && r.value.value.Text? && IsPrinted(r.value.value.text, q, Scale(f))
  }

  /** A decimal field rounds what it reads, raises on overflow, and then accepts exactly the numbers within its bounds. */
  lemma DecimalChecked(lib: Library, f: FieldSpec, raw: Raw, options: seq<string>)
    requires LibraryOk(lib) && f.EffectiveScale() <= MAX_SCALE && f.kind.DECIMAL? && !IsBlank(raw)
    ensures var r := ValidateField(lib, f, raw, options);
            && (r == Rejected([NotNumber]) <==> forall d :: !DenotesDecimal(lib, raw, d))
            && forall d :: DenotesDecimal(lib, raw, d) ==>
                 if Overflows(d, Scale(f), lib.precision) then r == Raised
                 else exists q :: IsRounded(d, Scale(f), q) && AnswersFor(f, q, r)
  {
    hide ValidateField, DenotesDecimal, AnswersFor, IsRounded, Overflows;
    forall d
      ensures DenotesDecimal(lib, raw, d) <==> DecimalRead(lib, raw) == Some(d)
    {
      DecimalReadIff(lib, raw, d);
    }
    if DecimalRead(lib, raw).Some? {
      DecimalAnswers(lib, f, raw, DecimalRead(lib, raw).value, options);
      assert DenotesDecimal(lib, raw, DecimalRead(lib, raw).value);
    } else {
      NothingRead(lib, f, raw, options);
    }
  }

  lemma NothingRead(lib: Library, f: FieldSpec, raw: Raw, options: seq<string>)
    requires f.kind.DECIMAL? && !IsBlank(raw) && DecimalRead(lib, raw).None?
    ensures ValidateField(lib, f, raw, options) == Rejected([NotNumber])
  {
    hide DecimalRead, Strip;
  }

  lemma DecimalAnswers(lib: Library, f: FieldSpec, raw: Raw, d: Dec, options: seq<string>)
    requires LibraryOk(lib) && f.EffectiveScale() <= MAX_SCALE && f.kind.DECIMAL? && !IsBlank(raw)
    requires DecimalRead(lib, raw) == Some(d)
    ensures var r := ValidateField(lib, f, raw, options);
            && r != Rejected([NotNumber])
            && if Overflows(d, Scale(f), lib.precision) then r == Raised
               else exists q :: IsRounded(d, Scale(f), q) && AnswersFor(f, q, r)
  {
    hide DecimalRead, Strip, Overflows, Pow10, NotAbove, Print, RangeError, Rounded, IsPrinted;
    var scale := f.EffectiveScale();
    QuantizeFailsIff(d, scale, lib.precision);
    if !Overflows(d, scale, lib.precision) {
      QuantizeNearest(d, scale, lib.precision);
      var q := Quantize(d, scale, lib.precision).value;
      RangeErrorIff(f, q);
      StoredIsPrinted(lib, q, scale);
      assert IsRounded(d, scale, q) && AnswersFor(f, q, ValidateField(lib, f, raw, options));
    }
  }

  /** With bounds that have decimals: the scaled integers decide. */
  lemma DecimalRange(f: FieldSpec, q: Dec, lo: Dec, hi: Dec, r: Checked)
    requires AnswersFor(f, q, r) && f.min == Some(lo) && f.max == Some(hi) && lo.exp <= 0 && hi.exp <= 0 && q.exp <= 0
    ensures r.Accepted? <==>
            && Signed(lo) * Pow10(-q.exp) <= Signed(q) * Pow10(-lo.exp)
            && Signed(q) * Pow10(-hi.exp) <= Signed(hi) * Pow10(-q.exp)
  {
    hide NotAbove, Pow10, IsPrinted;
    FractionOrder(lo, q);
    FractionOrder(q, hi);
  }

  // ------------------------------------------------------------- the whole form

  /** Unknown names are reported as such, each field by its own answer, and nothing else appears. */
  lemma FormChecked(lib: Library, spec: FormSpec, raws: Raws, options: Options)
    requires spec.Loaded()
    ensures var r := CheckForm(lib, spec, raws, options);
            && (r.Crashed? <==> exists i ::
                  0 <= i < |spec.fields| &&
                  ValidateField(lib, spec.fields[i], RawAt(raws, spec.fields[i].name), OptionsAt(options, spec.fields[i].name)).Raised?)
            && (r.Validation? ==>
                  && AllContribute(lib, spec.fields, raws, options, r.values, r.errors)
                  && (forall name <- r.values :: spec.Names(name))
                  && (forall name :: name in r.errors && !spec.Names(name) <==> name in raws && !spec.Names(name))
                  && (forall name <- r.errors :: !spec.Names(name) ==> r.errors[name] == [UnknownField]))
  {
    hide ValidateField;
    var unknown := UnknownErrors(raws, spec);
    CrashIff(lib, spec.fields, raws, options, unknown);
    if CheckForm(lib, spec, raws, options).Validation? {
      FieldsContribute(lib, spec.fields, raws, options, unknown);
    }
  }

  lemma {:induction false} CrashIff(lib: Library, fields: seq<FieldSpec>, raws: Raws, options: Options, unknown: Errors)
    ensures CheckFields(lib, fields, raws, options, unknown).Crashed? <==> exists i ::
              0 <= i < |fields| && ValidateField(lib, fields[i], RawAt(raws, fields[i].name), OptionsAt(options, fields[i].name)).Raised?
  {
    hide ValidateField;
    if |fields| > 0 {
      var init := fields[..|fields| - 1];
      CrashIff(lib, init, raws, options, unknown);
      assert forall i :: 0 <= i < |init| ==> init[i] == fields[i];
    }
  }
}
