/**
 * Data shapes of the output document (the files under src/models/). Only the shapes are
 * modelled; the serde attributes that drive their YAML form are not.
 * The u16 ports are kept as a bound on `nat` (`Port`); the u64 fields
 * (intervals, timeouts, size limits) are unbounded `nat`, since nothing in
 * the core computes with them, it only copies constants.
 */
module Models {
  import opened Wrappers

  type Port = p: nat | p < 0x1_0000

  /** Stand-in for serde_yaml's `Value`: carried along, never inspected. */
  datatype YamlValue = YamlValue(text: string)

  // ---------------------------------------------------------------- run_mode.rs, log_level.rs

  datatype RunMode = GlobalMode | RuleMode | DirectMode

  datatype LogLevel = Trace | Debug | Info | Warning | Error | Silent

  /** `RunMode::default()`: the variant marked `#[default]`. */
  function DefaultRunMode(): (m: RunMode)
    ensures m.RuleMode?
  {
    RuleMode
  }

  /** `LogLevel::default()`: the variant marked `#[default]`. */
  function DefaultLogLevel(): (l: LogLevel)
    ensures l.Info?
  {
    Info
  }

  // ---------------------------------------------------------------- proxy.rs

  datatype IpVersion = Dual | Ipv4 | Ipv6 | Ipv4Prefer | Ipv6Prefer

  datatype ProxyCommon = ProxyCommon(
    name: string,
    server: Option<string>,
    port: Option<Port>,
    ipVersion: Option<IpVersion>,
    udp: Option<bool>,
    interfaceName: Option<string>,
    routingMark: Option<nat>)

  /** A proxy entry; `Other` holds any entry of a type the model does not know. */
  datatype Proxy =
    | Direct(common: ProxyCommon)
    | Tuic(common: ProxyCommon, uuid: Option<string>, password: Option<string>,
           extra: Option<map<string, YamlValue>>)
    | Other(fields: map<string, YamlValue>)

  // ---------------------------------------------------------------- proxy_group.rs

  datatype Strategy = RoundRobin | ConsistentHashing | StickySession

  datatype ProxyGroupCommon = ProxyGroupCommon(
    name: string,
    proxies: Option<seq<string>>,
    useProvider: Option<seq<string>>,   // serialised as `use`
    url: Option<string>,
    interval: Option<nat>,
    lazy: Option<bool>,
    timeout: Option<nat>,
    maxFailedTimes: Option<nat>,
    disableUdp: Option<bool>,
    icon: Option<string>,
    filter: Option<string>)

  datatype ProxyGroup =
    | Relay(common: ProxyGroupCommon)
    | UrlTest(common: ProxyGroupCommon, tolerance: Option<nat>)
    | Fallback(common: ProxyGroupCommon)
    | LoadBalance(common: ProxyGroupCommon, strategy: Option<Strategy>)
    | Select(common: ProxyGroupCommon)

  // ---------------------------------------------------------------- proxy_provider.rs

  datatype HealthCheck = HealthCheck(enable: bool, url: string, interval: nat, lazy: Option<bool>)

  datatype ProxyName = ProxyName(pattern: string, target: string)

  datatype Override = Override(
    additionalPrefix: Option<string>,
    additionalSuffix: Option<string>,
    proxyName: Option<seq<ProxyName>>,
    skipCertVerify: Option<bool>,
    udp: Option<bool>,
    extra: Option<map<string, YamlValue>>)

  datatype ProxyProviderCommon = ProxyProviderCommon(
    interval: Option<nat>,
    healthCheck: Option<HealthCheck>,
    overrides: Option<Override>,        // the field `r#override`
    filter: Option<string>,
    excludeFilter: Option<string>,
    excludeType: Option<string>)

  datatype HttpProxyProvider = HttpProxyProvider(
    url: string,
    path: Option<string>,
    proxy: Option<string>,
    sizeLimit: Option<nat>,
    header: Option<map<string, seq<string>>>,
    common: ProxyProviderCommon)

  datatype ProxyProvider =
    | HttpProvider(http: HttpProxyProvider)
    | FileProvider(path: string, fileCommon: ProxyProviderCommon)
    | InlineProvider(payload: Option<seq<Proxy>>, inlineCommon: ProxyProviderCommon)

  // ---------------------------------------------------------------- rule_provider.rs

  datatype ProviderFormat = Yaml | Text | Mrs

  datatype RuleSetBehavior = DomainBehavior | Ipcidr | Classical

  datatype RuleProviderCommon = RuleProviderCommon(
    format: Option<ProviderFormat>,
    interval: Option<nat>,
    behavior: RuleSetBehavior)

  datatype HttpRuleProvider = HttpRuleProvider(
    url: string,
    path: Option<string>,
    sizeLimit: Option<nat>,
    proxy: Option<string>,
    header: Option<map<string, seq<string>>>,
    common: RuleProviderCommon)

  datatype RuleProvider =
    | HttpRules(http: HttpRuleProvider)
    | FileRules(path: string, fileCommon: RuleProviderCommon)
    | InlineRules(payload: seq<string>, inlineCommon: RuleProviderCommon)

  // ---------------------------------------------------------------- the rule record

  /**
   * The rule record that src/lib.rs and src/app_config.rs build: a tag, a
   * value (empty for MATCH) and a target. The file that declares it and
   * `RuleTag` is not part of this model; its shape is read off its uses.
   */
  datatype RuleTag =
    | Domain | DomainSuffix | DomainRegex | DomainKeyword
    | IpCIDR | IpCIDR6 | IpAsn | RuleSet | GeoIp | Match

  datatype Rule = Rule(tag: RuleTag, value: string, target: string)
}
