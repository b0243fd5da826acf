/** Reference rows and the dropdown options drawn from them, both scoped to the caller. */
module ReferenceData {
  import opened Prelude
  import opened Numerals
  import opened Events
  import opened FieldSpecs
  import Validator

  datatype Account = Account(accountId: string, name: string, salesOrg: string)

  datatype Sku = Sku(accountId: string, skuCode: string, description: string)

  datatype SalesOrg = SalesOrg(code: string, name: string)

  /** Comprehension filter, keeping the order. */
  function Select<T>(xs: seq<T>, keep: T -> bool): seq<T> {
    if |xs| == 0 then [] else (if keep(xs[0]) then [xs[0]] else []) + Select(xs[1..], keep)
  }

  lemma {:induction false} SelectMembers<T(!new)>(xs: seq<T>, keep: T -> bool)
    ensures forall x :: x in Select(xs, keep) <==> x in xs && keep(x)
  {
    if |xs| > 0 {
      SelectMembers(xs[1..], keep);
      assert xs == [xs[0]] + xs[1..];
    }
  }

  datatype Reference = Reference(accounts: seq<Account>, skus: seq<Sku>, salesOrgs: seq<SalesOrg>) {
    function MyAccounts(p: Principal): seq<Account> {
      if p.IsScoped() then Select(accounts, (a: Account) => a.accountId in p.accountIds) else accounts
    }

    lemma MyAccountsMembers(p: Principal)
      ensures forall a :: a in MyAccounts(p) <==> a in accounts && p.Sees(a.accountId)
    {
      SelectMembers(accounts, (a: Account) => a.accountId in p.accountIds);
    }

    /** None stands for NotFoundError: the account is outside the caller's scope. */
    function SkusForAccount(p: Principal, account: string): Option<seq<Sku>> {
      if !p.Sees(account) then None else Some(Select(skus, (s: Sku) => s.accountId == account))
    }

    lemma SkusMembers(p: Principal, account: string)
      requires p.Sees(account)
      ensures forall s :: s in SkusForAccount(p, account).value <==> s in skus && s.accountId == account
    {
      SelectMembers(skus, (s: Sku) => s.accountId == account);
    }
  }

  /** One dropdown option. */
  datatype Choice = Choice(value: string, labelText: string)

  function AccountChoices(xs: seq<Account>): seq<Choice> {
    seq(|xs|, i requires 0 <= i < |xs| => Choice(xs[i].accountId, xs[i].accountId + " - " + xs[i].name))
  }

  function SkuChoices(xs: seq<Sku>): seq<Choice> {
    seq(|xs|, i requires 0 <= i < |xs| => Choice(xs[i].skuCode, xs[i].skuCode + " - " + xs[i].description))
  }

  function SalesOrgChoices(xs: seq<SalesOrg>): seq<Choice> {
    seq(|xs|, i requires 0 <= i < |xs| => Choice(xs[i].code, xs[i].code + " - " + xs[i].name))
  }

  function StaticChoices(xs: seq<string>): seq<Choice> {
    seq(|xs|, i requires 0 <= i < |xs| => Choice(xs[i], xs[i]))
  }

  function ValuesOf(choices: seq<Choice>): seq<string> {
    seq(|choices|, i requires 0 <= i < |choices| => choices[i].value)
  }

  /** The options of one reference source; `account` is the account selected in the form, if any. */
  function Resolve(r: Reference, p: Principal, source: string, account: Option<string>): seq<Choice>
    requires source in REF_SOURCES
  {
    if source == "my_accounts" then AccountChoices(r.MyAccounts(p))
    else if source == "sales_orgs" then SalesOrgChoices(r.salesOrgs)
    else if account.None? then []
    else
      match r.SkusForAccount(p, account.value)
      case None => []
      case Some(skus) => SkuChoices(skus)
  }

  /** The options of one field, or None when it has no dropdown. */
  function ChoicesFor(r: Reference, p: Principal, f: FieldSpec, account: Option<string>): Option<seq<Choice>>
    requires f.source.Ref? ==> f.source.name in REF_SOURCES
  {
    if f.StaticOptions() != [] then Some(StaticChoices(f.StaticOptions()))
    else if f.source.Ref? then Some(Resolve(r, p, f.source.name, account))
    else None
  }

  type Choices = map<string, seq<Choice>>

  /** Labelled options for every enum field. */
  method EnumChoices(r: Reference, spec: FormSpec, p: Principal, account: Option<string>) returns (out: Choices)
    requires spec.Loaded()
    ensures forall i :: 0 <= i < |spec.fields| ==> Lookup(out, spec.fields[i].name) == ChoicesFor(r, p, spec.fields[i], account)
    ensures forall name <- out :: spec.Names(name)
  {
    out := map[];
    for i := 0 to |spec.fields|
      invariant forall j :: 0 <= j < i ==> Lookup(out, spec.fields[j].name) == ChoicesFor(r, p, spec.fields[j], account)
      invariant forall name <- out :: exists j :: 0 <= j < i && spec.fields[j].name == name
    {
      var f := spec.fields[i];
      assert f.name !in out;
      if f.StaticOptions() != [] {
        out := out[f.name := StaticChoices(f.StaticOptions())];
      } else if f.source.Ref? {
        out := out[f.name := Resolve(r, p, f.source.name, account)];
      }
    }
  }

  /** The values of the labelled options, as the validator expects them. */
  function EnumOptions(r: Reference, spec: FormSpec, p: Principal, account: Option<string>): (o: Validator.Options)
    requires spec.Loaded()
  {
    map name | name in spec.AllNames() && ChoicesFor(r, p, spec.Field(name), account).Some? ::
      ValuesOf(ChoicesFor(r, p, spec.Field(name), account).value)
  }

  lemma OptionsOfField(r: Reference, spec: FormSpec, p: Principal, account: Option<string>, i: nat)
    requires spec.Loaded() && i < |spec.fields|
    ensures var c := ChoicesFor(r, p, spec.fields[i], account);
            Validator.OptionsAt(EnumOptions(r, spec, p, account), spec.fields[i].name) == if c.Some? then ValuesOf(c.value) else []
  {
    assert spec.fields[i].name in spec.AllNames();
    assert spec.Field(spec.fields[i].name) == spec.fields[i];
  }

  /** The rows that a field's dropdown shows, as value and label. */
  ghost predicate Offers(r: Reference, p: Principal, f: FieldSpec, account: Option<string>, value: string, labelText: string) {
    match f.source
    case NoSource => false
    case Static(pieces) => value != "" && labelText == value && exists piece <- pieces :: Strip(piece) == value
    case Ref(name) =>
      if name == "my_accounts" then
        exists a <- r.accounts :: p.Sees(a.accountId) && value == a.accountId && labelText == value + " - " + a.name
      else if name == "sales_orgs" then
        exists o <- r.salesOrgs :: value == o.code && labelText == value + " - " + o.name
      else
        exists s <- r.skus ::
          p.Sees(s.accountId) && account == Some(s.accountId) && value == s.skuCode && labelText == value + " - " + s.description
  }

  lemma ChoicesAreOffers(r: Reference, p: Principal, f: FieldSpec, account: Option<string>, value: string, labelText: string)
    requires f.source.Ref? ==> f.source.name in REF_SOURCES
    ensures var c := ChoicesFor(r, p, f, account);
            Choice(value, labelText) in (if c.Some? then c.value else []) <==> Offers(r, p, f, account, value, labelText)
  {
    hide NonBlank, Strip;
    var choices := ChoicesFor(r, p, f, account);
    match f.source {
      case NoSource =>
      case Static(pieces) =>
        NonBlankMembers(pieces, value);
        StaticMembers(f.StaticOptions(), value, labelText);
      case Ref(name) =>
        r.MyAccountsMembers(p);
        AccountMembers(r.MyAccounts(p), value, labelText);
        SalesOrgMembers(r.salesOrgs, value, labelText);
        if account.Some? && p.Sees(account.value) {
          r.SkusMembers(p, account.value);
          SkuMembers(r.SkusForAccount(p, account.value).value, value, labelText);
        }
    }
  }

  lemma StaticMembers(xs: seq<string>, value: string, labelText: string)
    ensures Choice(value, labelText) in StaticChoices(xs) <==> value in xs && labelText == value
  {
    if value in xs && labelText == value {
      var i :| 0 <= i < |xs| && xs[i] == value;
      assert StaticChoices(xs)[i] == Choice(value, labelText);
    }
  }

  lemma AccountMembers(xs: seq<Account>, value: string, labelText: string)
    ensures Choice(value, labelText) in AccountChoices(xs) <==>
            exists a <- xs :: value == a.accountId && labelText == value + " - " + a.name
  {
    if a :| a in xs && value == a.accountId && labelText == value + " - " + a.name {
      var i :| 0 <= i < |xs| && xs[i] == a;
      assert AccountChoices(xs)[i] == Choice(value, labelText);
    }
  }

  lemma SalesOrgMembers(xs: seq<SalesOrg>, value: string, labelText: string)
    ensures Choice(value, labelText) in SalesOrgChoices(xs) <==>
            exists o <- xs :: value == o.code && labelText == value + " - " + o.name
  {
    if o :| o in xs && value == o.code && labelText == value + " - " + o.name {
      var i :| 0 <= i < |xs| && xs[i] == o;
      assert SalesOrgChoices(xs)[i] == Choice(value, labelText);
    }
  }

  lemma SkuMembers(xs: seq<Sku>, value: string, labelText: string)
    ensures Choice(value, labelText) in SkuChoices(xs) <==>
            exists s <- xs :: value == s.skuCode && labelText == value + " - " + s.description
  {
    if s :| s in xs && value == s.skuCode && labelText == value + " - " + s.description {
      var i :| 0 <= i < |xs| && xs[i] == s;
      assert SkuChoices(xs)[i] == Choice(value, labelText);
    }
  }

  /** A value passes as one of a field's options exactly when one of the rows behind its dropdown has it. */
  lemma OptionsAreOffers(r: Reference, spec: FormSpec, p: Principal, account: Option<string>, i: nat, value: string)
    requires spec.Loaded() && i < |spec.fields|
    ensures value in Validator.OptionsAt(EnumOptions(r, spec, p, account), spec.fields[i].name) <==>
            exists labelText :: Offers(r, p, spec.fields[i], account, value, labelText)
  {
    hide EnumOptions, ChoicesFor, Offers;
    OptionsOfField(r, spec, p, account, i);
    var c := ChoicesFor(r, p, spec.fields[i], account);
    var choices := if c.Some? then c.value else [];
    forall labelText
      ensures Choice(value, labelText) in choices <==> Offers(r, p, spec.fields[i], account, value, labelText)
    {
      ChoicesAreOffers(r, p, spec.fields[i], account, value, labelText);
    }
    if value in ValuesOf(choices) {
      var k :| 0 <= k < |choices| && ValuesOf(choices)[k] == value;
      assert Choice(value, choices[k].labelText) == choices[k];
    }
    if labelText :| Choice(value, labelText) in choices {
      var k :| 0 <= k < |choices| && choices[k] == Choice(value, labelText);
      assert ValuesOf(choices)[k] == value;
    }
  }

  /** Filtering keeps the order of the rows. */
  lemma {:induction false} SelectKeepsOrder<T(!new)>(xs: seq<T>, ys: seq<T>, keep: T -> bool)
    ensures Select(xs + ys, keep) == Select(xs, keep) + Select(ys, keep)
  {
    if |xs| == 0 {
      assert xs + ys == ys;
    } else {
      SelectKeepsOrder(xs[1..], ys, keep);
      assert (xs + ys)[1..] == xs[1..] + ys;
    }
  }

  /** The account the options are asked for is the request's own, or offers nothing. */
  predicate AsksFor(p: Principal, asked: Option<string>, owned: string) {
    asked.Some? && asked.value in p.accountIds ==> asked.value == owned
  }

  /** Whatever a customer is offered for an account, the internal team is offered too. */
  lemma OptionsWiden(
      r: Reference, spec: FormSpec, p: Principal, asked: Option<string>, q: Principal, owned: string, i: nat, o: string)
    requires spec.Loaded() && i < |spec.fields| && p.IsScoped() && !q.IsScoped() && AsksFor(p, asked, owned)
    requires o in Validator.OptionsAt(EnumOptions(r, spec, p, asked), spec.fields[i].name)
    ensures o in Validator.OptionsAt(EnumOptions(r, spec, q, Some(owned)), spec.fields[i].name)
  {
    var f := spec.fields[i];
    hide EnumOptions, ChoicesFor;
    OptionsOfField(r, spec, p, asked, i);
    OptionsOfField(r, spec, q, Some(owned), i);
    var few, many := ChoicesFor(r, p, f, asked), ChoicesFor(r, q, f, Some(owned));
    var j :| 0 <= j < |few.value| && few.value[j].value == o;
    ChoicesWiden(r, p, asked, q, owned, f, few.value[j]);
    var k :| 0 <= k < |many.value| && many.value[k] == few.value[j];
    assert ValuesOf(many.value)[k] == o;
  }

  lemma ChoicesWiden(
      r: Reference, p: Principal, asked: Option<string>, q: Principal, owned: string, f: FieldSpec, c: Choice)
    requires f.source.Ref? ==> f.source.name in REF_SOURCES
    requires p.IsScoped() && !q.IsScoped() && AsksFor(p, asked, owned)
    requires ChoicesFor(r, p, f, asked).Some? && c in ChoicesFor(r, p, f, asked).value
    ensures ChoicesFor(r, q, f, Some(owned)).Some? && c in ChoicesFor(r, q, f, Some(owned)).value
  {
    if f.StaticOptions() == [] && f.source.name == "my_accounts" {
      var mine := r.MyAccounts(p);
      r.MyAccountsMembers(p);
      var i :| 0 <= i < |mine| && AccountChoices(mine)[i] == c;
      assert mine[i] in r.accounts;
      var k :| 0 <= k < |r.accounts| && r.accounts[k] == mine[i];
      assert AccountChoices(r.MyAccounts(q))[k] == c;
    }
  }

  /** A customer is offered only its own accounts, and SKUs only of an account of its own. */
  lemma OfferedIsOwn(
      r: Reference, spec: FormSpec, p: Principal, account: Option<string>, i: nat, o: string)
    requires spec.Loaded() && i < |spec.fields| && p.IsScoped() && spec.fields[i].StaticOptions() == []
    requires o in Validator.OptionsAt(EnumOptions(r, spec, p, account), spec.fields[i].name)
    ensures spec.fields[i].source == Ref("my_accounts") ==> o in p.accountIds
    ensures spec.fields[i].source == Ref("skus_for_account") ==>
              exists s <- r.skus :: s.skuCode == o && s.accountId in p.accountIds && account == Some(s.accountId)
  {
    hide EnumOptions, NonBlank;
    var f := spec.fields[i];
    OptionsOfField(r, spec, p, account, i);
    var choices := ChoicesFor(r, p, f, account).value;
    var k :| 0 <= k < |choices| && choices[k].value == o;
    if f.source == Ref("my_accounts") {
      r.MyAccountsMembers(p);
      assert r.MyAccounts(p)[k] in r.MyAccounts(p);
    } else if f.source == Ref("skus_for_account") {
      var skus := r.SkusForAccount(p, account.value).value;
      r.SkusMembers(p, account.value);
      assert skus[k] in skus && skus[k] in r.skus;
    }
  }
}
