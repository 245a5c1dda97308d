/**
 * The parsed input of the generator (src/app_config.rs): subscriptions,
 * user groups, rule declarations and the region-group settings, with the
 * built-in table of region templates. Loading the TOML file is not modelled.
 */
module Settings {
  import opened Wrappers
  import opened Models

  datatype RuleSingleCfg = RuleSingleCfg(tag: RuleTag, value: string, target: string)

  datatype RuleSetCfg = RuleSetCfg(
    name: string,
    url: string,
    behavior: RuleSetBehavior,
    target: string,
    interval: Option<nat>)

  /** A rule declaration: one rule, or a remote rule set and the rule that uses it. */
  datatype RuleCfg = Single(single: RuleSingleCfg) | Set(ruleSet: RuleSetCfg)

  datatype RegionTemplate = RegionTemplate(
    name: string,
    displayName: Option<string>,
    filter: string,
    icon: Option<string>)

  datatype RegionGroupConfig = RegionGroupConfig(
    enabled: bool,
    regions: seq<RegionTemplate>,
    createAutoGroups: bool,
    globalFilter: Option<string>)

  datatype DefaultConfig = DefaultConfig(
    port: Option<Port>,
    socksPort: Option<Port>,
    mixedPort: Option<Port>,
    mode: Option<RunMode>,
    logLevel: Option<LogLevel>,
    allowLan: Option<bool>)

  datatype ProviderConfig = ProviderConfig(
    healthCheckUrl: Option<string>,
    healthCheckInterval: Option<nat>,
    updateInterval: Option<nat>,
    lazy: Option<bool>)

  /** Subscriptions are a map (a HashMap in the source): names are unique keys. */
  datatype AppConfig = AppConfig(
    proxies: map<string, string>,
    groups: seq<ProxyGroup>,
    rules: seq<RuleCfg>,
    regionGroups: Option<RegionGroupConfig>,
    defaultConfig: Option<DefaultConfig>,
    providerConfig: Option<ProviderConfig>)

  /** `From<RuleSingleCfg> for Rule`: the three fields are copied as they are. */
  function RuleFromSingle(cfg: RuleSingleCfg): (r: Rule)
    ensures r.tag == cfg.tag && r.value == cfg.value && r.target == cfg.target
  {
    Rule(cfg.tag, cfg.value, cfg.target)
  }

  /** `s` ends with `suffix`. */
  predicate EndsWith(s: string, suffix: string) {
    |suffix| <= |s| && s[|s| - |suffix|..] == suffix
  }

  /** The suffix that names a region's automatic (url-test) group. */
  const AutoSuffix: string := "-Auto"

  /** The names of a sequence of templates, in order. */
  function Names(regions: seq<RegionTemplate>): (ns: seq<string>)
    ensures |ns| == |regions|
    ensures forall i :: 0 <= i < |regions| ==> ns[i] == regions[i].name
  {
    seq(|regions|, i requires 0 <= i < |regions| => regions[i].name)
  }

  /** No two templates share a name, and no name already ends in "-Auto". */
  predicate NamesUsable(regions: seq<RegionTemplate>) {
    && (forall i, j :: 0 <= i < j < |regions| ==> regions[i].name != regions[j].name)
    && (forall i :: 0 <= i < |regions| ==> !EndsWith(regions[i].name, AutoSuffix))
  }

  /** `get_default_region_templates`: the built-in table, HK US JP SG TW KR in that order. */
  function DefaultRegionTemplates(): (t: seq<RegionTemplate>)
    ensures |t| == 6
    ensures Names(t) == ["HK", "US", "JP", "SG", "TW", "KR"]
    ensures forall i :: 0 <= i < |t| ==> t[i].displayName.Some? && t[i].icon.Some?
    ensures t[0] == RegionTemplate("HK", Some("香港"), "(?i)(hk|hong kong|香港|港)", Some("🇭🇰"))
    ensures t[1] == RegionTemplate("US", Some("美国"), "(?i)(us|usa|united states|美国|美)", Some("🇺🇸"))
    ensures NamesUsable(t)
  {
    [
      RegionTemplate("HK", Some("香港"), "(?i)(hk|hong kong|香港|港)", Some("🇭🇰")),
      RegionTemplate("US", Some("美国"), "(?i)(us|usa|united states|美国|美)", Some("🇺🇸")),
      RegionTemplate("JP", Some("日本"), "(?i)(jp|japan|日本|日)", Some("🇯🇵")),
      RegionTemplate("SG", Some("新加坡"), "(?i)(sg|singapore|新加坡|新)", Some("🇸🇬")),
      RegionTemplate("TW", Some("台湾"), "(?i)(tw|taiwan|台湾|台)", Some("🇹🇼")),
      RegionTemplate("KR", Some("韩国"), "(?i)(kr|korea|韩国|韩)", Some("🇰🇷"))
    ]
  }

  /** `RegionGroupConfig::default`: enabled, with auto groups, over the built-in table. */
  function DefaultRegionGroupConfig(): (c: RegionGroupConfig)
    ensures c.enabled && c.createAutoGroups && c.globalFilter.None?
    ensures c.regions == DefaultRegionTemplates()
    ensures |c.regions| == 6
  {
    RegionGroupConfig(true, DefaultRegionTemplates(), true, None)
  }
}
