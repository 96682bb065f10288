/**
 * The data rules of the model picker (ModelSelect.tsx): which provider and model start out
 * selected, which provider groups are listed, which models a search keeps, when a model is
 * disabled, and what a click on a model does. Rendering is not modelled.
 */
module ModelPicker {
  import opened Wrappers
  import opened Text
  import opened Lists

  /** `ProviderStatus`: only the comparison with ACTIVE matters to the picker. */
  datatype ProviderStatus = Active | NotActive(tag: string)

  datatype ProviderSchema = ProviderSchema(provider: string, name: string)

  datatype ModelSchema = ModelSchema(model: string, deprecated: bool)

  datatype ProviderWithModels = ProviderWithModels(provider: ProviderSchema, status: ProviderStatus, models: seq<ModelSchema>)

  /** The two pieces of selection state the effect sets. */
  datatype Selection = Selection(provider: Option<ProviderWithModels>, model: Option<ModelSchema>)

  /** `pm.provider.provider === defaultProvider`; an absent default matches nothing. */
  predicate IsDefaultProvider(pm: ProviderWithModels, defaultProvider: Option<string>) {
    defaultProvider == Some(pm.provider.provider)
  }

  predicate IsDefaultModel(m: ModelSchema, defaultModel: Option<string>) {
    defaultModel == Some(m.model)
  }

  /** The selection effect (ModelSelect.tsx:61-73): `_.find` over the providers, then
      `_.find` over the found provider's models (`_.find(undefined, ...)` finds nothing). */
  function DefaultSelection(pms: seq<ProviderWithModels>, defaultProvider: Option<string>, defaultModel: Option<string>): (r: Selection)
    ensures r.provider.Some? <==> exists i :: 0 <= i < |pms| && IsDefaultProvider(pms[i], defaultProvider)
    ensures r.provider.None? ==> r.model.None?
    ensures r.model.Some? ==> r.model.value in r.provider.value.models && IsDefaultModel(r.model.value, defaultModel)
  {
    var pm := Find(pms, (p: ProviderWithModels) => IsDefaultProvider(p, defaultProvider));
    var m := if pm.Some? then Find(pm.value.models, (x: ModelSchema) => IsDefaultModel(x, defaultModel)) else None;
    Selection(pm, m)
  }

  /** The first provider carrying the default name is selected, and within it the first model
      carrying the default model name; a later duplicate is never chosen. */
  lemma DefaultSelectionFirst(pms: seq<ProviderWithModels>, defaultProvider: Option<string>, defaultModel: Option<string>, i: nat)
    requires i < |pms| && IsDefaultProvider(pms[i], defaultProvider)
    requires forall j :: 0 <= j < i ==> !IsDefaultProvider(pms[j], defaultProvider)
    ensures DefaultSelection(pms, defaultProvider, defaultModel).provider == Some(pms[i])
    ensures DefaultSelection(pms, defaultProvider, defaultModel).model
            == match FindFirst(pms[i].models, (x: ModelSchema) => IsDefaultModel(x, defaultModel))
               case Some(k) => Some(pms[i].models[k])
               case None => None
  {
  }

  /** Provider groups that are listed (ModelSelect.tsx:116-121): those with at least one
      model, in input order. */
  function VisibleGroups(pms: seq<ProviderWithModels>): (r: seq<ProviderWithModels>)
    ensures IsSubsequence(r, pms)
    ensures forall i :: 0 <= i < |r| ==> r[i].models != []
    ensures forall i :: 0 <= i < |pms| && pms[i].models != [] ==> pms[i] in r
    ensures |r| == Count(pms, (pm: ProviderWithModels) => pm.models != [])
  {
    Filter(pms, (pm: ProviderWithModels) => pm.models != [])
  }

  /** The keyword predicate as written (ModelSelect.tsx:135-147): the same `_.includes`
      test appears twice, and the duplicate changes nothing. `searchKey` is None while
      nothing has been typed. */
  predicate KeywordMatchAsWritten(model: ModelSchema, searchKey: Option<string>)
    ensures KeywordMatchAsWritten(model, searchKey) == KeywordMatch(model, searchKey)
  {
    (searchKey.None? || searchKey.value == [])
    || Contains(ToLower(model.model), ToLower(searchKey.value))
    || Contains(ToLower(model.model), ToLower(searchKey.value))
  }

  /** A model is kept when no keyword is set or its lower-cased name contains the lower-cased
      keyword. */
  predicate KeywordMatch(model: ModelSchema, searchKey: Option<string>)
    ensures searchKey.None? || searchKey.value == [] ==> KeywordMatch(model, searchKey)
  {
    match searchKey
    case None => true
    case Some(k) => k == [] || Contains(ToLower(model.model), ToLower(k))
  }

  /** The models listed under one provider. */
  function VisibleModels(pm: ProviderWithModels, searchKey: Option<string>): (r: seq<ModelSchema>)
    ensures IsSubsequence(r, pm.models)
    ensures forall i :: 0 <= i < |r| ==> KeywordMatch(r[i], searchKey)
    ensures forall i :: 0 <= i < |pm.models| && KeywordMatch(pm.models[i], searchKey) ==> pm.models[i] in r
    ensures |r| == Count(pm.models, (m: ModelSchema) => KeywordMatch(m, searchKey))
  {
    FilterCongruent(pm.models, (m: ModelSchema) => KeywordMatchAsWritten(m, searchKey),
      (m: ModelSchema) => KeywordMatch(m, searchKey));
    Filter(pm.models, (m: ModelSchema) => KeywordMatchAsWritten(m, searchKey))
  }

  /** With no keyword, or an empty one, every model is listed. */
  lemma EmptyKeywordKeepsAll(pm: ProviderWithModels, searchKey: Option<string>)
    requires searchKey.None? || searchKey.value == []
    ensures VisibleModels(pm, searchKey) == pm.models
  {
    FilterAll(pm.models, (m: ModelSchema) => KeywordMatchAsWritten(m, searchKey));
  }

  /** The search ignores letter case in the keyword: typing it in any case lists the same
      models. */
  lemma KeywordCaseInsensitive(pm: ProviderWithModels, key: string)
    ensures VisibleModels(pm, Some(key)) == VisibleModels(pm, Some(ToLower(key)))
  {
    ToLowerIdempotent(key);
    FilterCongruent(pm.models, (m: ModelSchema) => KeywordMatchAsWritten(m, Some(key)), (m: ModelSchema) => KeywordMatchAsWritten(m, Some(ToLower(key))));
  }

  /** Nor in the model names. */
  lemma ModelNameCaseInsensitive(name: string, deprecated: bool, searchKey: Option<string>)
    ensures KeywordMatch(ModelSchema(name, deprecated), searchKey) == KeywordMatch(ModelSchema(ToLower(name), deprecated), searchKey)
  {
    ToLowerIdempotent(name);
  }

  /** Groups are chosen before the keyword is applied: a group stays listed, possibly with an
      empty list, when the keyword matches none of its models. */
  lemma GroupListedWithoutMatches(pms: seq<ProviderWithModels>, i: nat, key: string)
    requires i < |pms| && pms[i].models != []
    requires forall j :: 0 <= j < |pms[i].models| ==> !KeywordMatch(pms[i].models[j], Some(key))
    ensures pms[i] in VisibleGroups(pms)
    ensures VisibleModels(pms[i], Some(key)) == []
  {
  }

  /** The `disable` condition (ModelSelect.tsx:164-168), also used for the row's cursor. */
  predicate Disabled(pm: ProviderWithModels, m: ModelSchema)
    ensures !Disabled(pm, m) <==> pm.status == Active && !m.deprecated
  {
    m.deprecated || pm.status != Active
  }

  /** What a click on a model calls. */
  datatype ClickEffect = Select(provider: string, model: string) | ClosePopover

  /** The click handler (ModelSelect.tsx:169-183). `hasOnSelect` says whether the optional
      `onSelect` callback was given, `hasPopover` whether the popover ref is set. */
  function ClickEffects(pm: ProviderWithModels, m: ModelSchema, hasOnSelect: bool, hasPopover: bool): (r: seq<ClickEffect>)
    ensures Disabled(pm, m) ==> r == []
    ensures !Disabled(pm, m) ==> |r| == (if hasOnSelect then 1 else 0) + (if hasPopover then 1 else 0)
    ensures (exists i :: 0 <= i < |r| && r[i].Select?) <==> hasOnSelect && !Disabled(pm, m)
    ensures forall i :: 0 <= i < |r| && r[i].Select? ==> i == 0 && r[i] == Select(pm.provider.provider, m.model)
    ensures (ClosePopover in r) <==> hasPopover && !Disabled(pm, m)
  {
    if m.deprecated || pm.status != Active then []
    else
      var r := (if hasOnSelect then [Select(pm.provider.provider, m.model)] else [])
        + (if hasPopover then [ClosePopover] else []);
      assert hasOnSelect ==> r[0].Select?;
      r
  }

  /** An enabled model, clicked, is reported once with its provider's key and its own name,
      before the popover is closed; a disabled one reports nothing. */
  lemma ClickSelectsOnce(pm: ProviderWithModels, m: ModelSchema, hasPopover: bool)
    ensures var r := ClickEffects(pm, m, true, hasPopover);
      && (!Disabled(pm, m) ==> r[0] == Select(pm.provider.provider, m.model))
      && (forall i :: 0 <= i < |r| && r[i].Select? ==> i == 0 && r[i] == Select(pm.provider.provider, m.model))
      && ((exists i :: 0 <= i < |r| && r[i].Select?) <==> !Disabled(pm, m))
  {
    var r := ClickEffects(pm, m, true, hasPopover);
    if !Disabled(pm, m) {
      assert r[0].Select?;
    }
  }

  /** The "add" button (ModelSelect.tsx:187-189). It appears only on disabled rows, and
      exactly on those disabled only because the provider is not active. */
  predicate ShowAddButton(pm: ProviderWithModels, m: ModelSchema)
    ensures ShowAddButton(pm, m) ==> Disabled(pm, m)
    ensures ShowAddButton(pm, m) <==> Disabled(pm, m) && !m.deprecated
  {
    !m.deprecated && pm.status != Active
  }
}
