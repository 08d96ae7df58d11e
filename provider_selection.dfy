/**
 * The start-up rule that picks the exchange provider from the `Exchange`
 * configuration section: the first active entry decides, its trimmed name is
 * matched case-insensitively against the three known providers.
 */
module ProviderSelection {
  import opened Wrappers
  import opened Errors
  import opened Text
  import opened Models
  import opened ExchangeClient

  const AllInactiveMessage := "Exchange: All providers inactive."
  const EmptyProviderMessage := "Exchange: Active provider has empty 'Provider' field."
  const NoActiveMessage := "Exchange: No active provider."

  function UnknownProviderMessage(name: string): string {
    "Exchange: Unknown provider '" + name + "'."
  }

  /** The entry at `i` is the first active one. */
  ghost predicate IsFirstActive(providers: seq<ExchangeProviderConfig>, i: int) {
    0 <= i < |providers| && providers[i].active && forall j :: 0 <= j < i ==> !providers[j].active
  }

  /** `providers.FirstOrDefault(x => x.Active)`. */
  function FirstActive(providers: seq<ExchangeProviderConfig>): (r: Option<ExchangeProviderConfig>)
    ensures r.Some? <==> exists i :: 0 <= i < |providers| && providers[i].active
    ensures r.Some? ==> exists i :: IsFirstActive(providers, i) && providers[i] == r.value
  {
    if providers == [] then None
    else if providers[0].active then Some(providers[0])
    else
      var r := FirstActive(providers[1..]);
      assert forall i :: 1 <= i < |providers| ==> providers[i] == providers[1..][i - 1];
      assert r.Some? ==> forall i :: IsFirstActive(providers[1..], i) ==> IsFirstActive(providers, i + 1);
      r
  }

  /** The `switch` over the lower-cased name. */
  function ProviderNamed(lowered: string): Option<ProviderKind>
  {
    match lowered
    case "currencylayer" => Some(CurrencyLayerProvider)
    case "exchangerate" => Some(ExchangeRateApiProvider)
    case "fxratesapi" => Some(FxRatesApiProvider)
    case _ => None
  }

  /** The name the switch sees: the provider trimmed, with null read as empty. */
  function ProviderName(entry: ExchangeProviderConfig): string {
    Trim(OrEmpty(entry.provider))
  }

  /** How each provider is named in the configuration. */
  function CanonicalName(kind: ProviderKind): string {
    match kind
    case CurrencyLayerProvider => "CurrencyLayer"
    case ExchangeRateApiProvider => "ExchangeRate"
    case FxRatesApiProvider => "FXRatesAPI"
  }

  /** The `case` label of each provider. */
  function Label(kind: ProviderKind): string {
    match kind
    case CurrencyLayerProvider => "currencylayer"
    case ExchangeRateApiProvider => "exchangerate"
    case FxRatesApiProvider => "fxratesapi"
  }

  /** Each label is its provider's configured name lower-cased. */
  lemma LabelIsLoweredName(kind: ProviderKind)
    ensures ToLower(CanonicalName(kind)) == Label(kind)
  {
    LowerCased(CanonicalName(kind), Label(kind));
  }

  /** The switch picks `kind` exactly when the name equals that provider's name ignoring case. */
  lemma ProviderNamedIff(name: string, kind: ProviderKind)
    ensures ProviderNamed(ToLower(name)) == Some(kind) <==> EqualsIgnoreCase(name, CanonicalName(kind))
  {
    LabelIsLoweredName(kind);
  }

  /**
   * The factory for a trimmed provider name: an empty name is rejected, a name
   * equal to one of the three configured names ignoring case gives that
   * provider's factory with `key`, and any other name is unknown.
   */
  function FactoryNamed(providerName: string, key: string): (r: Result<ExchangeFactory, Error>)
    ensures r.Ok? <==> exists kind :: EqualsIgnoreCase(providerName, CanonicalName(kind))
    ensures r.Ok? ==> EqualsIgnoreCase(providerName, CanonicalName(r.value.kind)) && r.value.key == key
    ensures providerName == "" ==> r == Err(Argument(EmptyProviderMessage))
    ensures providerName != "" && r.Err? ==> r == Err(NotSupported(UnknownProviderMessage(providerName)))
  {
    ProviderNamedIff(providerName, CurrencyLayerProvider);
    ProviderNamedIff(providerName, ExchangeRateApiProvider);
    ProviderNamedIff(providerName, FxRatesApiProvider);
    if providerName == "" then
      assert ToLower(providerName) == "";
      Err(Argument(EmptyProviderMessage))
    else
      match ProviderNamed(ToLower(providerName))
      case Some(kind) => Ok(ExchangeFactory(kind, key))
      case None => Err(NotSupported(UnknownProviderMessage(providerName)))
  }

  /** The `IExchangeFactory` registration; a missing section is an empty list. */
  function SelectFactory(section: Option<seq<ExchangeProviderConfig>>): Result<ExchangeFactory, Error>
  {
    var active := FirstActive(section.GetOr([]));
    if active.None? then Err(NotSupported(AllInactiveMessage))
    else FactoryNamed(ProviderName(active.value), OrEmpty(active.value.key))
  }

  /** The `ActiveExchangeOptions` registration: provider and key copied as configured. */
  function SelectActiveOptions(section: Option<seq<ExchangeProviderConfig>>): Result<ActiveExchangeOptions, Error>
  {
    var active := FirstActive(section.GetOr([]));
    if active.None? then Err(NotSupported(NoActiveMessage))
    else Ok(ActiveExchangeOptions(active.value.provider, active.value.key))
  }

  /**
   * Selection succeeds exactly when some entry is active and the first active
   * entry's trimmed name is one of the three known names, ignoring case; the
   * factory gets that entry's key, with null read as empty.
   */
  lemma SelectFactorySpec(section: Option<seq<ExchangeProviderConfig>>, i: int)
    requires IsFirstActive(section.GetOr([]), i)
    ensures SelectFactory(section) == FactoryNamed(ProviderName(section.GetOr([])[i]), OrEmpty(section.GetOr([])[i].key))
    ensures var name := ProviderName(section.GetOr([])[i]);
      && (SelectFactory(section).Ok? <==> exists kind :: EqualsIgnoreCase(name, CanonicalName(kind)))
      && (SelectFactory(section).Ok? ==>
            EqualsIgnoreCase(name, CanonicalName(SelectFactory(section).value.kind))
            && SelectFactory(section).value.key == OrEmpty(section.GetOr([])[i].key))
      && (name == "" ==> SelectFactory(section) == Err(Argument(EmptyProviderMessage)))
      && (name != "" && SelectFactory(section).Err? ==>
            SelectFactory(section) == Err(NotSupported(UnknownProviderMessage(name))))
  {
    var providers := section.GetOr([]);
    var r := FirstActive(providers);
    var k :| IsFirstActive(providers, k) && providers[k] == r.value;
    assert k == i;
  }

  /** With no active entry (or no section at all) start-up fails with the all-inactive error. */
  lemma NoActiveEntryFails(section: Option<seq<ExchangeProviderConfig>>)
    requires forall i :: 0 <= i < |section.GetOr([])| ==> !section.GetOr([])[i].active
    ensures SelectFactory(section) == Err(NotSupported(AllInactiveMessage))
    ensures SelectActiveOptions(section) == Err(NotSupported(NoActiveMessage))
  {
  }

  /** A name made only of white space is rejected as empty. */
  lemma BlankNameRejected(section: Option<seq<ExchangeProviderConfig>>, i: int)
    requires IsFirstActive(section.GetOr([]), i)
    requires AllWhiteSpace(OrEmpty(section.GetOr([])[i].provider))
    ensures SelectFactory(section) == Err(Argument(EmptyProviderMessage))
  {
    TrimEmptyIff(OrEmpty(section.GetOr([])[i].provider));
    SelectFactorySpec(section, i);
  }

  /** Names that differ only in ASCII letter case select the same provider. */
  lemma NameMatchIgnoresCase(a: string, b: string)
    requires EqualsIgnoreCase(a, b)
    ensures ProviderNamed(ToLower(a)) == ProviderNamed(ToLower(b))
  {
  }

  /** White space around the provider name does not matter: the padded name selects as the bare one. */
  lemma PaddingIgnored(before: string, name: string, after: string, key: Option<string>)
    requires AllWhiteSpace(before) && AllWhiteSpace(after)
    requires name != [] && !IsWhiteSpace(name[0]) && !IsWhiteSpace(name[|name| - 1])
    ensures SelectFactory(Some([ExchangeProviderConfig(Some(before + name + after), key, true)]))
            == FactoryNamed(name, OrEmpty(key))
  {
    var entry := ExchangeProviderConfig(Some(before + name + after), key, true);
    TrimSurrounded(before, name, after);
    assert ProviderName(entry) == name;
    SelectFactorySpec(Some([entry]), 0);
  }

  /** Each configured name, in any letter case, selects its own provider and no other. */
  lemma {:induction false} ConfiguredNamesAccepted(kind: ProviderKind, name: string, key: string)
    requires EqualsIgnoreCase(name, CanonicalName(kind))
    ensures FactoryNamed(name, key) == Ok(ExchangeFactory(kind, key))
  {
    ProviderNamedIff(name, kind);
  }

  lemma LowerCased(name: string, lowered: string)
    requires |name| == |lowered| && forall i :: 0 <= i < |name| ==> LowerChar(name[i]) == lowered[i]
    ensures ToLower(name) == lowered
  {
  }

  /** Inactive entries are skipped: an inactive entry in front changes neither registration. */
  lemma InactiveEntriesSkipped(inactive: ExchangeProviderConfig, rest: seq<ExchangeProviderConfig>)
    requires !inactive.active
    ensures SelectFactory(Some([inactive] + rest)) == SelectFactory(Some(rest))
    ensures SelectActiveOptions(Some([inactive] + rest)) == SelectActiveOptions(Some(rest))
  {
    assert ([inactive] + rest)[1..] == rest;
  }

  /** Both registrations read the same first active entry; the options keep its fields untrimmed. */
  lemma ActiveOptionsCopyFirstActive(section: Option<seq<ExchangeProviderConfig>>, i: int)
    requires IsFirstActive(section.GetOr([]), i)
    ensures SelectActiveOptions(section)
      == Ok(ActiveExchangeOptions(section.GetOr([])[i].provider, section.GetOr([])[i].key))
  {
    var providers := section.GetOr([]);
    var r := FirstActive(providers);
    var k :| IsFirstActive(providers, k) && providers[k] == r.value;
    assert k == i;
  }
}
