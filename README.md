# sub-util config expansion, modelled in Dafny

sub-util turns a parsed subscription description (`AppConfig`) into the
configuration document of a Clash-style proxy client (`Config`). This
project models that expansion and proves what it promises:

- the region proxy-group generator: each region template becomes a Select
  group and, optionally, an automatic url-test group. Templates fall back to
  a built-in table of six regions. Filters are composed and checked
  structurally. Generated and user groups are concatenated
  (`proxy_group_generator.dfy`, module `GroupGenerator`);
- `generate_clash_config`: one HTTP proxy provider per subscription, the
  rule declarations expanded into an ordered rule list plus a map of rule
  providers, and the rest of the document at its defaults (`lib.dfy`,
  module `ConfigGen`);
- the rule text codec, `TAG,value,target` or `MATCH,target`, with its
  comma-splitting reader (`rule.dfy`, module `RuleText`);
- the input records, the built-in region table and the region-group
  defaults (`app_config.dfy`, module `Settings`);
- the output record, its derived default and the proxy-list serializer
  that drops `Other` entries (`config.dfy`, module `ClashConfig`);
- the access decision over (enabled, configured token, presented token)
  (`auth.dfy`, module `Auth`).

The data shapes of the output document are in `models.dfy` (module
`Models`), and `Option`/`Result` are in `wrappers.dfy`.

Two rule shapes exist in the source. `src/lib.rs` and `src/app_config.rs`
build a record `{tag, value, target}` (`Models.Rule`). `src/models/rule.rs`
declares a tagged enum in which MATCH has no value (`RuleText.Rule`).
`RuleText.FromRecord` and `RuleText.ToRecord` convert between the two; a
MATCH record maps to the empty value.

`src/lib.rs` does less than the integration tests expect
(tests/integration_test.rs:133 counts region groups in the output, and
tests/compatibility_test.rs:340 expects a custom health-check interval).
The model follows `src/lib.rs`:

- `generate_clash_config` adds no region groups and applies no
  `default_config` or `provider_config` overrides.
- A rule set's declared `interval` is ignored (always 86400).
- The generator never applies `global_filter`.

The two loops of `generate_clash_config` and the loops of
`generate_region_groups` and `proxies_serialize` are methods with loop
invariants. Each is proved equal to a specification function, and the
properties are lemmas about those functions.

## Model

| member | source | states |
|---|---|---|
| `GroupGenerator.GenerateRegionGroups` | src/proxy_group_generator.rs:7-36 | a disabled config yields no groups whatever its regions; otherwise the result is the region-by-region expansion of the effective templates (caller's, or the built-in table when empty) |
| `GroupGenerator.GeneratedGroupsShape` | src/proxy_group_generator.rs:18-33 | for an enabled config: the length is twice the number of regions with auto groups, else the number of regions; position k holds region k/2's Select (even) or url-test (odd) group, or region k's Select group; every filter is the region's own filter verbatim (global filter never applied); every group uses all providers |
| `GroupGenerator.ExpandRegionsAt` | src/proxy_group_generator.rs:25-33 | the k-th expanded group is region k/2's Select group at even and url-test group at odd positions (with auto groups), or region k's Select group; the length is the number of regions times the groups per region |
| `GroupGenerator.ExpandRegionsLength` | src/proxy_group_generator.rs:25-33 | two groups per region with auto groups, one without |
| `GroupGenerator.MergedRegionTemplates` | src/proxy_group_generator.rs:39-47 | the caller's templates when there are any, otherwise the built-in table; never empty |
| `GroupGenerator.SelectGroupWithGlobalFilter` | src/proxy_group_generator.rs:58-85 | a Select group named after the region, listing only "<name>-Auto", using all providers in order, with the region's icon and the composed filter, and every test field (url, interval, lazy, timeout, max failures, udp) absent |
| `GroupGenerator.AutoGroupWithGlobalFilter` | src/proxy_group_generator.rs:96-119 | a url-test group "<name>-Auto", no proxy list, all providers, probe URL http://www.gstatic.com/generate_204 every 300 s, region icon, composed filter, no tolerance |
| `GroupGenerator.SelectGroup` | src/proxy_group_generator.rs:50-55 | the region's Select group, with its filter verbatim and proxies exactly [name + "-Auto"] even when no auto group is generated |
| `GroupGenerator.AutoGroup` | src/proxy_group_generator.rs:88-93 | the region's url-test group, with its filter verbatim |
| `GroupGenerator.SelectListsAutoGroup` | src/proxy_group_generator.rs:63-66 | a region's Select group lists exactly the name of the same region's url-test group |
| `GroupGenerator.MergeWithUserGroups` | src/proxy_group_generator.rs:122-135 | the result has as many groups as both inputs together, the generated ones first and unchanged, then the user's unchanged |
| `GroupGenerator.ApplyGlobalFilter` | src/proxy_group_generator.rs:138-143 | no global filter: the region filter unchanged; otherwise "(" + region filter + ").*" + global filter, stated piece by piece |
| `GroupGenerator.GlobalFilterValidates` | src/proxy_group_generator.rs:138-159 | a filter narrowed by any global filter passes the structural check |
| `GroupGenerator.GlobalFilterInjective` | src/proxy_group_generator.rs:138-143 | given the region filter's length, the composed filter determines both the region filter and the global filter |
| `GroupGenerator.GlobalFilterAmbiguous` | src/proxy_group_generator.rs:138-143 | without that length the composed filter is ambiguous: two different pairs of filters give the same composed filter |
| `GroupGenerator.ValidateFilter` | src/proxy_group_generator.rs:146-159 | error exactly when the filter is empty or lacks '(' or lacks ')', with the source's two messages |
| `GroupGenerator.DefaultFiltersValidate` | src/app_config.rs:158-197 | every built-in filter passes the structural check |
| `GroupGenerator.GeneratedNamesDistinct` | src/proxy_group_generator.rs:25-33 | with distinct region names none of which ends in "-Auto", all generated group names are distinct |
| `GroupGenerator.DefaultGroupsDistinct` | src/proxy_group_generator.rs:167-193 | the built-in table expands to 12 groups with distinct names, the first being the Select group "HK" listing exactly ["HK-Auto"] |
| `ConfigGen.GenerateClashConfig` | src/lib.rs:9-68 | provider keys are exactly the subscription names, each provider built by ProxyProviderFor; one rule per declaration at the same position; rule providers as RuleProvidersOf; user groups unchanged; mode Rule, log level Info, ports, LAN flag and proxies absent; the rule-provider keys are exactly the rule-set names, and every RULE-SET rule from a rule-set declaration names one of them |
| `ConfigGen.ProxyProviderFor` | src/lib.rs:13-30 | HTTP provider with the subscription URL, path "./proxies/<name>.yaml", interval 3600, health check {enabled, generate_204 URL, 300 s, lazy}, every other field absent |
| `ConfigGen.ProxyCachePathInjective` | src/lib.rs:17 | distinct subscriptions get distinct cache paths |
| `ConfigGen.RuleProviderFor` | src/lib.rs:39-51 | HTTP rule provider with the declared URL and behavior, path "./rules/<name>.yaml", format absent, interval 86400 whatever the declaration says |
| `ConfigGen.RuleCachePathInjective` | src/lib.rs:43 | distinct rule sets get distinct cache paths |
| `ConfigGen.ExpandRule` | src/lib.rs:36-57 | a single rule is copied verbatim; a rule set becomes {RuleSet, name, target} |
| `ConfigGen.RuleProvidersKeys` | src/lib.rs:35-51 | the rule-provider keys are exactly the names of the rule-set declarations |
| `ConfigGen.RuleProvidersLastWins` | src/lib.rs:39-51 | the provider under a name comes from the last rule-set declaration with that name |
| `ConfigGen.DuplicateSetOverwrites` | src/lib.rs:39-51 | two rule sets with one name leave a single provider, built from the second |
| `ConfigGen.RuleSetRulesResolve` | src/lib.rs:39-56 | every RULE-SET rule produced by a rule-set declaration names a rule provider |
| `ConfigGen.SingleRuleSetMayDangle` | src/lib.rs:37 | a single-rule declaration tagged RULE-SET is copied verbatim and may name no provider |
| `RuleText.ToString` | src/models/rule.rs:18-49 | the rule's fields (tag spelling, value, target; MATCH without value) joined by ',' |
| `RuleText.Keyword` | src/models/rule.rs:21-46 | each variant's spelling is one of the ten tags and holds no ',' |
| `RuleText.Serialize` | src/models/rule.rs:83-90 | writes the display string, whose first field is the tag spelling |
| `RuleText.Parse` | src/models/rule.rs:51-80 | error "invalid rule: <s>" exactly when the first field is not one of the ten spellings; otherwise the rule whose fields are the first two or three fields of the input |
| `RuleText.RoundTrip` | src/models/rule.rs:18-80 | reading back the display string of a comma-free rule gives the rule |
| `RuleText.RoundTripWithTrailing` | src/models/rule.rs:58-79 | fields beyond the ones a tag needs are ignored |
| `RuleText.ToStringInjective` | src/models/rule.rs:18-80 | distinct comma-free rules have distinct display strings |
| `RuleText.UnknownTagRejected` | src/models/rule.rs:78 | an unknown first field is rejected with "invalid rule: " and the input |
| `RuleText.Split` | src/models/rule.rs:57 | at least one piece, none holding the separator |
| `RuleText.JoinSplit` | src/models/rule.rs:57 | joining the pieces of a split with the separator gives the input back |
| `RuleText.SplitJoin` | src/models/rule.rs:57 | splitting separator-free pieces joined by the separator gives the pieces back |
| `RuleText.FromRecord` | src/models/rule.rs:5-16 | the tagged form keeps target, keeps value unless MATCH, and is MATCH exactly for the MATCH tag |
| `RuleText.ToRecord` | src/models/rule.rs:5-16 | the record form keeps target, gives MATCH the empty value, and converts back to the same tagged rule |
| `RuleText.RecordRoundTrip` | src/models/rule.rs:5-16 | a record survives the trip through the tagged form exactly when it is not a MATCH with a non-empty value |
| `Settings.RuleFromSingle` | src/app_config.rs:51-59 | tag, value and target copied unchanged |
| `Settings.DefaultRegionTemplates` | src/app_config.rs:158-197 | six templates named HK, US, JP, SG, TW, KR in order, each with a display name and an icon; the HK and US entries as in the source; names distinct and none ending in "-Auto" |
| `Settings.DefaultRegionGroupConfig` | src/app_config.rs:102-111 | enabled, auto groups on, the built-in table, no global filter |
| `ClashConfig.ConfigDefault` | src/models/config.rs:8-56 | mode Rule, log level Info, every optional field absent |
| `ClashConfig.ProxiesSerialize` | src/models/config.rs:112-128 | no list: nothing written; a list: exactly KeptProxies of it |
| `ClashConfig.KeptProxiesMembers` | src/models/config.rs:118-123 | a proxy is written exactly when it is in the list and not `Other`; never more than the list |
| `ClashConfig.KeptProxiesAppend` | src/models/config.rs:118-123 | filtering distributes over concatenation, so written proxies keep their relative order |
| `ClashConfig.KeptProxiesNoOther` | src/models/config.rs:118-123 | a list without `Other` entries is written unchanged |
| `Models.DefaultRunMode` | src/models/run_mode.rs:5-10 | the default run mode is Rule |
| `Models.DefaultLogLevel` | src/models/log_level.rs:5-14 | the default log level is Info |
| `Auth.IsAccessAllowed` | tests/auth_test.rs:79-98 | allowed with no auth settings or auth off; with auth on, refused when the configured or presented token is absent or empty, else allowed exactly when the presented token equals the configured one |
| `Auth.AdmittedOnlyWithToken` | tests/auth_test.rs:80-93 | under enabled auth, an admitted request presented exactly the configured, non-empty token |

## Left out

- Loading `AppConfig` from a TOML file and the `Error` type around it
  (src/app_config.rs), and the HTTP server in src/main.rs: file and socket
  I/O.
- The YAML form of the document (serde renames, skipped `None` fields,
  flattening, the `type` tag): library behaviour. Only the rule text codec
  is modelled.
- `Proxy::Other` and the `extra` maps hold opaque YAML values. They are
  modelled as a string wrapper that nothing inspects.
- HashMap iteration order. Providers and rule providers are maps, and the
  provider loop picks subscriptions in an arbitrary order.
- Regex meaning of filters: filters are plain strings, and the filter
  check is structural only.
- Integer widths: u16 ports and u64 intervals are `nat`. The core only
  copies small constants into them, so no wrap-around can occur.
- The validated entry point and its error type, which the integration
  tests use, are not part of this model. Their URL checks, target
  resolution, provider overrides and region groups in the output do not
  appear in src/lib.rs.
- `HttpProxyProvider` and `ProxyProviderCommon` derive no `Default`, yet
  src/lib.rs fills their remaining fields from it. Every such field is
  modelled as absent.
- `AppConfig` has no `auth` field, although tests/auth_test.rs reads one.
  The decision is modelled over a standalone optional auth record.
- RuleText.Parse: a known tag with too few fields indexes past the end of
  the pieces, which panics in the source. This is a precondition
  (`HasRequiredFields`) rather than an error result.
- RuleText.RoundTrip: holds only for rules whose value and target contain
  no ','. A ',' inside a field shifts the pieces, as in the source.
