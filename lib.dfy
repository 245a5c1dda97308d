/**
 * `generate_clash_config` (src/lib.rs): one HTTP proxy provider per
 * subscription, the rule declarations expanded into the ordered rule list
 * and the map of rule providers, the user's groups passed through, and
 * every other field left at its default.
 */
module ConfigGen {
  import opened Wrappers
  import opened Models
  import opened Settings
  import opened ClashConfig

  /** The probe endpoint and cadence every synthesised provider's health check uses. */
  const HealthCheckUrl: string := "http://www.gstatic.com/generate_204"
  const HealthCheckInterval: nat := 300
  /** Refresh period of a proxy provider and of a rule provider, in seconds. */
  const ProxyRefresh: nat := 3600
  const RuleRefresh: nat := 86400

  /** Where the downstream runtime caches a subscription's proxies. */
  function ProxyCachePath(name: string): string {
    "./proxies/" + name + ".yaml"
  }

  /** Where the downstream runtime caches a rule set. */
  function RuleCachePath(name: string): string {
    "./rules/" + name + ".yaml"
  }

  /** Two subscriptions never share a cache file: the path determines the name. */
  lemma ProxyCachePathInjective(a: string, b: string)
    requires ProxyCachePath(a) == ProxyCachePath(b)
    ensures a == b
  {
    var pa, pb := ProxyCachePath(a), ProxyCachePath(b);
    assert |a| == |b|;
    assert a == pa[10..10 + |a|];
    assert b == pb[10..10 + |b|];
  }

  /** Two rule sets never share a cache file: the path determines the name. */
  lemma RuleCachePathInjective(a: string, b: string)
    requires RuleCachePath(a) == RuleCachePath(b)
    ensures a == b
  {
    var pa, pb := RuleCachePath(a), RuleCachePath(b);
    assert |a| == |b|;
    assert a == pa[8..8 + |a|];
    assert b == pb[8..8 + |b|];
  }

  /**
   * The provider built for one subscription (src/lib.rs, first loop). The
   * provider defaults of the input (`provider_config`) play no part.
   */
  function ProxyProviderFor(name: string, url: string): (p: ProxyProvider)
    ensures p.HttpProvider?
    ensures p.http.url == url && p.http.path == Some(ProxyCachePath(name))
    ensures p.http.common.interval == Some(ProxyRefresh)
    ensures p.http.common.healthCheck == Some(HealthCheck(true, HealthCheckUrl, HealthCheckInterval, Some(true)))
    ensures p.http.proxy.None? && p.http.sizeLimit.None? && p.http.header.None?
    ensures p.http.common.overrides.None? && p.http.common.filter.None?
    ensures p.http.common.excludeFilter.None? && p.http.common.excludeType.None?
  {
    HttpProvider(HttpProxyProvider(
      url := url,
      path := Some("./proxies/" + name + ".yaml"),
      proxy := None,
      sizeLimit := None,
      header := None,
      common := ProxyProviderCommon(
        interval := Some(3600),
        healthCheck := Some(HealthCheck(
          enable := true,
          url := "http://www.gstatic.com/generate_204",
          interval := 300,
          lazy := Some(true))),
        overrides := None,
        filter := None,
        excludeFilter := None,
        excludeType := None)))
  }

  /**
   * The rule provider built for one rule-set declaration (src/lib.rs, second
   * loop). Its refresh period is always one day: a declared `interval` is ignored.
   */
  function RuleProviderFor(rs: RuleSetCfg): (p: RuleProvider)
    ensures p.HttpRules?
    ensures p.http.url == rs.url && p.http.path == Some(RuleCachePath(rs.name))
    ensures p.http.common == RuleProviderCommon(None, Some(RuleRefresh), rs.behavior)
    ensures p.http.sizeLimit.None? && p.http.proxy.None? && p.http.header.None?
  {
    HttpRules(HttpRuleProvider(
      url := rs.url,
      path := Some("./rules/" + rs.name + ".yaml"),
      sizeLimit := None,
      proxy := None,
      header := None,
      common := RuleProviderCommon(format := None, interval := Some(86400), behavior := rs.behavior)))
  }

  /** The rule one declaration contributes, at the declaration's own position. */
  function ExpandRule(d: RuleCfg): (r: Rule)
    ensures d.Single? ==> r == Rule(d.single.tag, d.single.value, d.single.target)
    ensures d.Set? ==> r.tag.RuleSet? && r.value == d.ruleSet.name && r.target == d.ruleSet.target
  {
    match d
    case Single(rule) => RuleFromSingle(rule)
    case Set(rs) => Rule(RuleSet, rs.name, rs.target)
  }

  /** The rule providers after inserting those of `decls` in order: a later name overwrites an earlier one. */
  function RuleProvidersOf(decls: seq<RuleCfg>): map<string, RuleProvider>
    decreases |decls|
  {
    if decls == [] then map[]
    else
      var m := RuleProvidersOf(decls[..|decls| - 1]);
      match decls[|decls| - 1]
      case Single(_) => m
      case Set(rs) => m[rs.name := RuleProviderFor(rs)]
  }

  /** The names of the rule-set declarations in `decls`. */
  function SetNames(decls: seq<RuleCfg>): set<string> {
    set i | 0 <= i < |decls| && decls[i].Set? :: decls[i].ruleSet.name
  }

  /** The rule-provider keys are exactly the names of the rule-set declarations. */
  lemma {:induction false} RuleProvidersKeys(decls: seq<RuleCfg>)
    ensures RuleProvidersOf(decls).Keys == SetNames(decls)
    decreases |decls|
  {
    if decls != [] {
      var n := |decls|;
      var init := decls[..n - 1];
      RuleProvidersKeys(init);
      var last := decls[n - 1];
      assert forall i :: 0 <= i < n - 1 ==> init[i] == decls[i];
      if last.Set? {
        assert SetNames(decls) == SetNames(init) + {last.ruleSet.name};
      } else {
        assert SetNames(decls) == SetNames(init);
      }
    }
  }

  /**
   * On a duplicate name the last declaration wins: the provider under a name
   * is the one built from the last rule-set declaration carrying that name.
   */
  lemma {:induction false} RuleProvidersLastWins(decls: seq<RuleCfg>, i: nat)
    requires i < |decls| && decls[i].Set?
    requires forall j :: i < j < |decls| ==> !(decls[j].Set? && decls[j].ruleSet.name == decls[i].ruleSet.name)
    ensures decls[i].ruleSet.name in RuleProvidersOf(decls)
    ensures RuleProvidersOf(decls)[decls[i].ruleSet.name] == RuleProviderFor(decls[i].ruleSet)
    decreases |decls|
  {
    var n := |decls|;
    var init := decls[..n - 1];
    if i < n - 1 {
      RuleProvidersLastWins(init, i);
    }
  }

  /** Every RULE-SET rule that a rule-set declaration produced names an existing rule provider. */
  lemma RuleSetRulesResolve(decls: seq<RuleCfg>)
    ensures forall i :: 0 <= i < |decls| && decls[i].Set? ==> ExpandRule(decls[i]).value in RuleProvidersOf(decls)
  {
    RuleProvidersKeys(decls);
  }

  /**
   * A single-rule declaration tagged RULE-SET is copied verbatim and need not
   * name any provider: only rule-set declarations are guaranteed to resolve.
   */
  lemma SingleRuleSetMayDangle()
    ensures var decls := [Single(RuleSingleCfg(RuleSet, "missing", "DIRECT"))];
      ExpandRule(decls[0]).tag.RuleSet? && ExpandRule(decls[0]).value !in RuleProvidersOf(decls)
  {
  }

  /** Two declarations with one name leave one provider, built from the second. */
  lemma DuplicateSetOverwrites(first: RuleSetCfg, second: RuleSetCfg)
    requires first.name == second.name
    ensures var decls := [Set(first), Set(second)];
      RuleProvidersOf(decls) == map[second.name := RuleProviderFor(second)]
  {
    var decls := [Set(first), Set(second)];
    assert decls[..1] == [Set(first)];
    assert decls[..1][..0] == [];
    assert RuleProvidersOf(decls[..1]) == map[first.name := RuleProviderFor(first)];
    assert map[first.name := RuleProviderFor(first)][second.name := RuleProviderFor(second)]
        == map[second.name := RuleProviderFor(second)];
  }

  /** `generate_clash_config`. */
  method GenerateClashConfig(app: AppConfig) returns (c: Config)
    ensures c.proxyProviders.Some? && c.proxyProviders.value.Keys == app.proxies.Keys
    ensures forall name :: name in app.proxies ==>
      c.proxyProviders.value[name] == ProxyProviderFor(name, app.proxies[name])
    ensures c.rules.Some? && |c.rules.value| == |app.rules|
    ensures forall i :: 0 <= i < |app.rules| ==> c.rules.value[i] == ExpandRule(app.rules[i])
    ensures c.ruleProviders == Some(RuleProvidersOf(app.rules))
    // The rules and the rule providers fit together: the keys are exactly the
    // rule-set names, and every rule a rule-set declaration produced names one.
    ensures c.ruleProviders.value.Keys == SetNames(app.rules)
    ensures forall i :: 0 <= i < |app.rules| && app.rules[i].Set? ==>
      c.rules.value[i].tag.RuleSet? && c.rules.value[i].value in c.ruleProviders.value
    ensures c.proxyGroups == Some(app.groups)
    ensures c.mode.RuleMode? && c.logLevel.Info?
    ensures c.port.None? && c.socksPort.None? && c.mixedPort.None?
    ensures c.redirPort.None? && c.tproxyPort.None? && c.allowLan.None? && c.proxies.None?
  {
    // One provider per subscription; the map has no order, so neither does the loop.
    var proxyProviders: map<string, ProxyProvider> := map[];
    var pending := app.proxies.Keys;
    while pending != {}
      invariant pending <= app.proxies.Keys
      invariant proxyProviders.Keys == app.proxies.Keys - pending
      invariant forall name :: name in proxyProviders ==>
        proxyProviders[name] == ProxyProviderFor(name, app.proxies[name])
      decreases pending
    {
      var name :| name in pending;
      proxyProviders := proxyProviders[name := ProxyProviderFor(name, app.proxies[name])];
      pending := pending - {name};
    }

    // The rule declarations, in order.
    var ruleProviders: map<string, RuleProvider> := map[];
    var rules: seq<Rule> := [];
    for i := 0 to |app.rules|
      invariant |rules| == i
      invariant forall k :: 0 <= k < i ==> rules[k] == ExpandRule(app.rules[k])
      invariant ruleProviders == RuleProvidersOf(app.rules[..i])
    {
      assert app.rules[..i + 1][..i] == app.rules[..i];
      match app.rules[i]
      case Single(rule) =>
        rules := rules + [RuleFromSingle(rule)];
      case Set(rs) =>
        ruleProviders := ruleProviders[rs.name := RuleProviderFor(rs)];
        rules := rules + [Rule(RuleSet, rs.name, rs.target)];
    }
    assert app.rules[..|app.rules|] == app.rules;

    c := ConfigDefault().(
      proxyProviders := Some(proxyProviders),
      proxyGroups := Some(app.groups),
      ruleProviders := Some(ruleProviders),
      rules := Some(rules));
    RuleProvidersKeys(app.rules);
    RuleSetRulesResolve(app.rules);
  }
}
