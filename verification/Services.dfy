/** What the services share: configuration, errors, and when a request's values can be released. */
module Services {
  import opened Prelude
  import opened Events
  import opened Repository
  import opened Listing
  import opened FieldSpecs
  import opened Validator
  import opened ReferenceData
  import opened Attachments

  /** What stays fixed: libraries, form, reference rows, attachment policy, dispatch limit, and the kind of store. */
  datatype Config = Config(
    lib: Library, spec: FormSpec, reference: Reference, policy: Policy, digest: Bytes -> string, maxAttempts: int, store: Backend)

  ghost predicate ConfigOk(cfg: Config) {
    LibraryOk(cfg.lib) && cfg.spec.Loaded() && cfg.maxAttempts >= 1
  }

  datatype ServiceError =
    | NotPermitted
    | Store(error: Error)
    | Stale
    | WrongState(status: Status)
    | Invalid(errors: Errors)
    | InvalidRequest(errors: Errors, attachmentErrors: AttachmentErrors)
    | Unexpected

  function OptionsFor(cfg: Config, p: Principal, account: string): Options
    requires cfg.spec.Loaded()
  {
    EnumOptions(cfg.reference, cfg.spec, p, Some(account))
  }

  /** The current values pass validation, unchanged, under the internal team's options. */
  predicate Releasable(cfg: Config, account: string, values: Values)
    requires cfg.spec.Loaded()
  {
    AllStand(cfg.lib, cfg.spec, values, OptionsFor(cfg, SYSTEM, account))
  }

  /** All unscoped callers get the same options. */
  lemma UnscopedOptions(cfg: Config, p: Principal, account: string)
    requires cfg.spec.Loaded() && !p.IsScoped()
    ensures OptionsFor(cfg, p, account) == OptionsFor(cfg, SYSTEM, account)
  {
    hide NonBlank;
    forall i | 0 <= i < |cfg.spec.fields|
      ensures ChoicesFor(cfg.reference, p, cfg.spec.fields[i], Some(account)) ==
              ChoicesFor(cfg.reference, SYSTEM, cfg.spec.fields[i], Some(account))
    {
    }
    assert forall name :: name in cfg.spec.AllNames() ==> cfg.spec.Field(name) in cfg.spec.fields;
  }

  /** Releasable is exactly what `validate` checks on the values, whoever of the internal team calls it. */
  lemma ReleasableIff(cfg: Config, p: Principal, account: string, values: Values)
    requires cfg.spec.Loaded() && p.IsInternal()
    ensures Releasable(cfg, account, values) <==>
            CheckForm(cfg.lib, cfg.spec, RawValues(values), OptionsFor(cfg, p, account)) == Validation(values, map[])
  {
    UnscopedOptions(cfg, p, account);
    PassUnchangedIff(cfg.lib, cfg.spec, values, OptionsFor(cfg, p, account));
  }

  /** The values name only fields of the form, lack no required one, and each obeys its field's rules. */
  ghost predicate MeetsForm(cfg: Config, values: Values, options: Options)
    requires cfg.spec.Loaded()
  {
    && (forall name <- values :: cfg.spec.Names(name))
    && forall i :: 0 <= i < |cfg.spec.fields| ==>
         var f := cfg.spec.fields[i];
         if f.name in values then Obeys(cfg.lib, f, values[f.name], OptionsAt(options, f.name)) else !f.required
  }

  /** Releasable values are those that meet the form with what the internal team may choose from. */
  lemma ReleasableMeans(cfg: Config, account: string, values: Values)
    requires ConfigOk(cfg)
    ensures Releasable(cfg, account, values) <==> MeetsForm(cfg, values, OptionsFor(cfg, SYSTEM, account))
  {
    hide ValidateField, Obeys, OptionsFor;
    var options := OptionsFor(cfg, SYSTEM, account);
    forall i | 0 <= i < |cfg.spec.fields|
      ensures var f := cfg.spec.fields[i];
              Stands(cfg.lib, f, Lookup(values, f.name), OptionsAt(options, f.name)) <==>
              if f.name in values then Obeys(cfg.lib, f, values[f.name], OptionsAt(options, f.name)) else !f.required
    {
      var f := cfg.spec.fields[i];
      if f.name in values {
        StandsIff(cfg.lib, f, values[f.name], OptionsAt(options, f.name));
      }
    }
  }
}
