/** The field specification of the intake form. */
module FieldSpecs {
  import opened Prelude
  import opened Numerals
  import opened Decimals

  datatype FieldType = STRING | TEXT | INTEGER | DECIMAL | DATE | ENUM

  /** Where an enum field takes its options from; `pieces` are the comma-separated parts of an inline list. */
  datatype Source = NoSource | Static(pieces: seq<string>) | Ref(name: string)

  const MAX_TEXT_LENGTH := 10_000
  const MAX_SCALE := 10

  datatype FieldSpec = FieldSpec(
    name: string,
    kind: FieldType,
    section: string,
    order: int,
    required: bool,
    pattern: Option<string>,
    maxLength: Option<nat>,
    min: Option<Dec>,
    max: Option<Dec>,
    scale: Option<nat>,
    source: Source)
  {
    function EffectiveMaxLength(): nat {
      if maxLength.Some? then maxLength.value else MAX_TEXT_LENGTH
    }

    function EffectiveScale(): nat {
      if scale.Some? then scale.value else 2
    }

    function StaticOptions(): seq<string> {
      if source.Static? then NonBlank(source.pieces) else []
    }
  }

  function NonBlank(pieces: seq<string>): seq<string> {
    if |pieces| == 0 then []
    else
      var s := Strip(pieces[0]);
      (if s == "" then [] else [s]) + NonBlank(pieces[1..])
  }

  /** The options declared inline are the pieces between the commas that are not blank, without the blanks around them. */
  lemma {:induction false} NonBlankMembers(pieces: seq<string>, o: string)
    ensures o in NonBlank(pieces) <==> o != "" && exists piece <- pieces :: Strip(piece) == o
  {
    hide Strip;
    if |pieces| > 0 {
      NonBlankMembers(pieces[1..], o);
      var first, rest := pieces[0], pieces[1..];
      assert forall piece :: piece in pieces <==> piece == first || piece in rest;
      assert (exists piece <- pieces :: Strip(piece) == o) <==> Strip(first) == o || exists piece <- rest :: Strip(piece) == o;
    }
  }

  const REF_SOURCES: set<string> := {"my_accounts", "skus_for_account", "sales_orgs"}

  datatype FormSpec = FormSpec(sections: seq<string>, fields: seq<FieldSpec>) {
    /** The first field that selects the owning account. */
    function AccountField(): (r: Option<FieldSpec>)
      ensures r.Some? ==> r.value in fields && r.value.source == Ref("my_accounts")
    {
      FirstAccountField(fields)
    }

    predicate Names(name: string) {
      Named(fields, name)
    }

    function AllNames(): (names: set<string>)
      ensures forall name :: name in names <==> Names(name)
    {
      set i | 0 <= i < |fields| :: fields[i].name
    }

    /** What loading the specification has checked. */
    predicate Loaded() {
      && UniqueNames(fields)
      && forall i :: 0 <= i < |fields| ==>
           && fields[i].EffectiveScale() <= MAX_SCALE
           && (fields[i].kind.ENUM? <==> !fields[i].source.NoSource?)
           && (fields[i].source.Ref? ==> fields[i].source.name in REF_SOURCES)
    }

    /** `spec.field(name)`. */
    function Field(name: string): (f: FieldSpec)
      requires Names(name)
      ensures f in fields && f.name == name
    {
      FieldNamed(fields, name)
    }
  }

  predicate Named(fields: seq<FieldSpec>, name: string) {
    exists i :: 0 <= i < |fields| && fields[i].name == name
  }

  lemma NamedOneMore(fields: seq<FieldSpec>, name: string)
    requires |fields| > 0
    ensures Named(fields, name) <==> Named(fields[..|fields| - 1], name) || name == fields[|fields| - 1].name
  {
    var init := fields[..|fields| - 1];
    assert forall i :: 0 <= i < |init| ==> fields[i] == init[i];
  }

  function FieldNamed(fields: seq<FieldSpec>, name: string): (f: FieldSpec)
    requires Named(fields, name)
    ensures f in fields && f.name == name
  {
    if fields[0].name == name then fields[0] else FieldNamed(fields[1..], name)
  }

  function FirstAccountField(fields: seq<FieldSpec>): (r: Option<FieldSpec>)
    ensures r.Some? ==> r.value in fields && r.value.source == Ref("my_accounts")
    ensures r.None? ==> forall f <- fields :: f.source != Ref("my_accounts")
  {
    if |fields| == 0 then None
    else if fields[0].source == Ref("my_accounts") then Some(fields[0])
    else FirstAccountField(fields[1..])
  }

  /** Of several fields that select an account, the one displayed first decides. */
  lemma {:induction false} AccountFieldIsFirst(fields: seq<FieldSpec>, i: nat)
    requires i < |fields| && fields[i].source == Ref("my_accounts")
    requires forall j :: 0 <= j < i ==> fields[j].source != Ref("my_accounts")
    ensures FirstAccountField(fields) == Some(fields[i])
  {
    if i > 0 {
      AccountFieldIsFirst(fields[1..], i - 1);
    }
  }

  predicate UniqueNames(fields: seq<FieldSpec>) {
    forall i, j :: 0 <= i < j < |fields| ==> fields[i].name != fields[j].name
  }

  // ------------------------------------------------------------------ loading

  const MAX_PATTERN_LENGTH := 1_024

  /** The rules of a field fit its type (the pattern itself compiles). */
  predicate RulesFit(f: FieldSpec) {
    var textual, numeric := f.kind.STRING? || f.kind.TEXT?, f.kind.INTEGER? || f.kind.DECIMAL?;
    && (f.maxLength.Some? ==> textual && 1 <= f.maxLength.value <= MAX_TEXT_LENGTH)
    && (f.pattern.Some? ==> textual && f.maxLength.Some? && f.maxLength.value <= MAX_PATTERN_LENGTH)
    && (f.min.Some? || f.max.Some? ==> numeric)
    && (f.min.Some? && f.max.Some? ==> NotAbove(f.min.value, f.max.value))
    && (f.scale.Some? ==> f.kind.DECIMAL? && f.scale.value <= MAX_SCALE)
    && match f.source
       case NoSource => !f.kind.ENUM?
       case Static(_) => f.kind.ENUM? && f.StaticOptions() != []
       case Ref(name) => f.kind.ENUM? && name in REF_SOURCES
  }

  datatype RuleError = PatternMisplaced | PatternUnbounded | LengthMisplaced | RangeMisplaced | RangeEmpty | ScaleMisplaced
    | SourceMissing | NoStaticOptions | UnknownSource | SourceMisplaced | OutOfBounds

  /** The first of the loader's checks on one field that fails; the bounds on single numbers come before all others. */
  function RuleErrorOf(f: FieldSpec): Option<RuleError> {
    if f.maxLength.Some? && (f.maxLength.value < 1 || f.maxLength.value > MAX_TEXT_LENGTH) then Some(OutOfBounds)
    else if f.scale.Some? && f.scale.value > MAX_SCALE then Some(OutOfBounds)
    else if f.pattern.Some? && f.kind !in {STRING, TEXT} then Some(PatternMisplaced)
    else if f.pattern.Some? && (f.maxLength.None? || f.maxLength.value > MAX_PATTERN_LENGTH) then Some(PatternUnbounded)
    else if f.maxLength.Some? && f.kind !in {STRING, TEXT} then Some(LengthMisplaced)
    else if (f.min.Some? || f.max.Some?) && f.kind !in {INTEGER, DECIMAL} then Some(RangeMisplaced)
    else if f.min.Some? && f.max.Some? && Less(f.max.value, f.min.value) then Some(RangeEmpty)
    else if f.scale.Some? && f.kind != DECIMAL then Some(ScaleMisplaced)
    else if f.kind != ENUM then if f.source.NoSource? then None else Some(SourceMisplaced)
    else
      match f.source
      case NoSource => Some(SourceMissing)
      case Static(_) => if f.StaticOptions() == [] then Some(NoStaticOptions) else None
      case Ref(name) => if name !in REF_SOURCES then Some(UnknownSource) else None
  }

  /** A field passes the loader's checks exactly when every rule it declares is one for its type, and leaves room. */
  lemma RulesFitIff(f: FieldSpec)
    ensures RuleErrorOf(f).None? <==> RulesFit(f)
  {
    hide Less, NotAbove, NonBlank;
    if f.min.Some? && f.max.Some? {
      LessIff(f.max.value, f.min.value);
    }
  }

  datatype FormError = DuplicateSection | DuplicateField(name: string) | UnknownSection(field: string)

  function Position(sections: seq<string>, name: string): (i: nat)
    requires name in sections
    ensures i < |sections| && sections[i] == name
  {
    if sections[0] == name then 0 else 1 + Position(sections[1..], name)
  }

  /** `a` is displayed before `b`: by section, then order, then name. */
  predicate Before(sections: seq<string>, a: FieldSpec, b: FieldSpec)
    requires a.section in sections && b.section in sections
  {
    var x, y := Position(sections, a.section), Position(sections, b.section);
    x < y || (x == y && (a.order < b.order || (a.order == b.order && StrLess(a.name, b.name))))
  }

  /** Sections come in their declared order, fields of one section by order number, and then by name. */
  lemma BeforeIff(sections: seq<string>, a: FieldSpec, b: FieldSpec, x: nat, y: nat)
    requires Distinct(sections) && x < |sections| && sections[x] == a.section && y < |sections| && sections[y] == b.section
    ensures Before(sections, a, b) <==>
            x < y || (x == y && a.order < b.order) || (x == y && a.order == b.order && StrLess(a.name, b.name))
  {
    hide StrLess;
    assert Position(sections, a.section) == x && Position(sections, b.section) == y;
  }

  predicate Placed(sections: seq<string>, fields: seq<FieldSpec>) {
    forall f <- fields :: f.section in sections
  }

  /** In display order, with no two fields of one name. */
  predicate InOrder(sections: seq<string>, fields: seq<FieldSpec>)
    requires Placed(sections, fields)
  {
    forall i, j :: 0 <= i < j < |fields| ==> Before(sections, fields[i], fields[j])
  }

  function InsertField(sections: seq<string>, f: FieldSpec, sorted: seq<FieldSpec>): (r: seq<FieldSpec>)
    requires f.section in sections && Placed(sections, sorted)
    ensures multiset(r) == multiset(sorted) + multiset{f}
  {
    if |sorted| == 0 then [f]
    else
      assert sorted == [sorted[0]] + sorted[1..];
      if Before(sections, f, sorted[0]) then [f] + sorted else [sorted[0]] + InsertField(sections, f, sorted[1..])
  }

  lemma BeforeTotal(sections: seq<string>, a: FieldSpec, b: FieldSpec)
    requires a.section in sections && b.section in sections && a.name != b.name
    ensures Before(sections, a, b) <==> !Before(sections, b, a)
  {
    StrLessTotal(a.name, b.name);
    if StrLess(a.name, b.name) && StrLess(b.name, a.name) {
      StrLessTransitive(a.name, b.name, a.name);
      StrLessIrreflexive(a.name);
    }
  }

  lemma BeforeTransitive(sections: seq<string>, a: FieldSpec, b: FieldSpec, c: FieldSpec)
    requires a.section in sections && b.section in sections && c.section in sections
    requires Before(sections, a, b) && Before(sections, b, c)
    ensures Before(sections, a, c)
  {
    if StrLess(a.name, b.name) && StrLess(b.name, c.name) {
      StrLessTransitive(a.name, b.name, c.name);
    }
  }

  lemma InsertFieldMembers(sections: seq<string>, f: FieldSpec, sorted: seq<FieldSpec>)
    requires f.section in sections && Placed(sections, sorted)
    ensures forall g :: g in InsertField(sections, f, sorted) <==> g in sorted || g == f
  {
    var r := InsertField(sections, f, sorted);
    forall g
      ensures g in r <==> g in sorted || g == f
    {
      assert g in r <==> g in multiset(r);
      assert g in sorted <==> g in multiset(sorted);
    }
  }

  lemma {:induction false} InsertFieldKeepsNames(sections: seq<string>, f: FieldSpec, sorted: seq<FieldSpec>)
    requires f.section in sections && Placed(sections, sorted) && UniqueNames(sorted) && forall g <- sorted :: g.name != f.name
    ensures UniqueNames(InsertField(sections, f, sorted))
  {
    hide Before;
    if |sorted| > 0 && !Before(sections, f, sorted[0]) {
      InsertFieldKeepsNames(sections, f, sorted[1..]);
      InsertFieldMembers(sections, f, sorted[1..]);
      var r := InsertField(sections, f, sorted[1..]);
      forall j | 0 <= j < |r|
        ensures r[j].name != sorted[0].name
      {
        assert r[j] in r;
      }
    }
  }

  lemma {:induction false} InsertFieldKeepsOrder(sections: seq<string>, f: FieldSpec, sorted: seq<FieldSpec>)
    requires f.section in sections && Placed(sections, sorted) && InOrder(sections, sorted) && forall g <- sorted :: g.name != f.name
    ensures Placed(sections, InsertField(sections, f, sorted)) && InOrder(sections, InsertField(sections, f, sorted))
  {
    hide Before;
    InsertFieldMembers(sections, f, sorted);
    if |sorted| > 0 {
      var first := sorted[0];
      if Before(sections, f, first) {
        forall j | 0 < j < |sorted|
          ensures Before(sections, f, sorted[j])
        {
          BeforeTransitive(sections, f, first, sorted[j]);
        }
      } else {
        BeforeTotal(sections, f, first);
        InsertFieldKeepsOrder(sections, f, sorted[1..]);
        InsertFieldMembers(sections, f, sorted[1..]);
        var r := InsertField(sections, f, sorted[1..]);
        forall j | 0 <= j < |r|
          ensures Before(sections, first, r[j])
        {
          assert r[j] in r;
        }
      }
    }
  }

  lemma NewName(fields: seq<FieldSpec>, i: nat, ordered: seq<FieldSpec>)
    requires i < |fields| && multiset(ordered) == multiset(fields[..i]) && forall k :: 0 <= k < i ==> fields[k].name != fields[i].name
    ensures forall g <- ordered :: g.name != fields[i].name
  {
    forall g <- ordered
      ensures g.name != fields[i].name
    {
      assert g in multiset(ordered);
      assert g in fields[..i];
    }
  }

  /** `{s.name: i for i, s in enumerate(sections)}`. */
  method Positions(sections: seq<string>) returns (positions: map<string, nat>)
    ensures positions.Keys == SetOf(sections)
    ensures forall name <- positions :: positions[name] < |sections| && sections[positions[name]] == name
  {
    positions := map[];
    for i := 0 to |sections|
      invariant positions.Keys == SetOf(sections[..i])
      invariant forall name <- positions :: positions[name] < i && sections[positions[name]] == name
    {
      assert sections[..i + 1] == sections[..i] + [sections[i]];
      positions := positions[sections[i] := i];
    }
    assert sections[..|sections|] == sections;
  }

  /** `_check_and_sort`: what makes a form acceptable, and its fields in display order. */
  method CheckAndSort(sections: seq<string>, fields: seq<FieldSpec>) returns (r: Result<FormSpec, FormError>)
    ensures r.Ok? <==> Distinct(sections) && UniqueNames(fields) && Placed(sections, fields)
    ensures r.Ok? ==>
              && r.value.sections == sections && multiset(r.value.fields) == multiset(fields)
              && Placed(sections, r.value.fields) && InOrder(sections, r.value.fields) && UniqueNames(r.value.fields)
    ensures r == Err(DuplicateSection) <==> !Distinct(sections)
    ensures r.Err? && r.error.DuplicateField? ==>
              exists i, j :: 0 <= i < j < |fields| && fields[i].name == fields[j].name == r.error.name
    ensures r.Err? && r.error.UnknownSection? ==>
              exists i :: 0 <= i < |fields| && fields[i].name == r.error.field && fields[i].section !in sections
  {
    hide Before, InsertField, Position;
    var positions := Positions(sections);
    SetSizeIff(sections);
    assert |positions| == |positions.Keys|;
    if |positions| != |sections| {
      return Err(DuplicateSection);
    }
    var seen: set<string> := {};
    var ordered: seq<FieldSpec> := [];
    for i := 0 to |fields|
      invariant seen == set k | 0 <= k < i :: fields[k].name
      invariant UniqueNames(fields[..i]) && Placed(sections, fields[..i])
      invariant Placed(sections, ordered) && InOrder(sections, ordered) && UniqueNames(ordered)
      invariant multiset(ordered) == multiset(fields[..i])
    {
      var f := fields[i];
      assert fields[..i + 1] == fields[..i] + [f];
      if f.name in seen {
        return Err(DuplicateField(f.name));
      }
      if f.section !in positions {
        return Err(UnknownSection(f.name));
      }
      seen := seen + {f.name};
      NewName(fields, i, ordered);
      InsertFieldKeepsOrder(sections, f, ordered);
      InsertFieldKeepsNames(sections, f, ordered);
      ordered := InsertField(sections, f, ordered);
    }
    assert fields[..|fields|] == fields;
    return Ok(FormSpec(sections, ordered));
  }

  /** A form whose fields' rules fit and that `CheckAndSort` accepts is one the services can rely on. */
  lemma SortedIsLoaded(sections: seq<string>, fields: seq<FieldSpec>)
    requires UniqueNames(fields) && forall f <- fields :: RulesFit(f)
    ensures FormSpec(sections, fields).Loaded()
  {
    hide NonBlank, NotAbove;
    assert forall i :: 0 <= i < |fields| ==> fields[i] in fields;
  }
}
