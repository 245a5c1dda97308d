/**
 * The region proxy-group generator (src/proxy_group_generator.rs): each
 * region template becomes a Select group and, optionally, an automatic
 * url-test group, in the order of the templates.
 */
module GroupGenerator {
  import opened Wrappers
  import opened Models
  import opened Settings

  /** The probe endpoint every generated url-test group checks. */
  const ProbeUrl: string := "http://www.gstatic.com/generate_204"

  /** Seconds between two probes of a generated url-test group. */
  const ProbeInterval: nat := 300

  /** The name of a region's automatic group. */
  function AutoName(region: RegionTemplate): string {
    region.name + AutoSuffix
  }

  // ---------------------------------------------------------------- filters

  /** `apply_global_filter`: the region filter, narrowed by the global one when set. */
  function ApplyGlobalFilter(regionFilter: string, globalFilter: Option<string>): (f: string)
    ensures globalFilter.None? ==> f == regionFilter
    ensures globalFilter.Some? ==>
      && |f| == |regionFilter| + 4 + |globalFilter.value|
      && f[..|regionFilter| + 1] == "(" + regionFilter
      && f[|regionFilter| + 1..|regionFilter| + 4] == ").*"
      && f[|regionFilter| + 4..] == globalFilter.value
  {
    match globalFilter
    case Some(global) => "(" + regionFilter + ").*" + global
    case None => regionFilter
  }

  /** `validate_filter`: a structural check only, the pattern itself is not parsed. */
  function ValidateFilter(filter: string): (r: Result<(), string>)
    ensures r.Failure? <==>
      (|filter| == 0 || (forall i :: 0 <= i < |filter| ==> filter[i] != '(')
                     || (forall i :: 0 <= i < |filter| ==> filter[i] != ')'))
    ensures |filter| == 0 ==> r == Failure("Filter cannot be empty")
    ensures |filter| > 0 && r.Failure? ==> r == Failure("Filter should contain parentheses for grouping")
  {
    if filter == [] then Failure("Filter cannot be empty")
    else if '(' !in filter || ')' !in filter then
      Failure("Filter should contain parentheses for grouping")
    else Success(())
  }

  /** Narrowing by a global filter always yields a filter that passes the check. */
  lemma GlobalFilterValidates(regionFilter: string, global: string)
    ensures ValidateFilter(ApplyGlobalFilter(regionFilter, Some(global))).Success?
  {
    var f := ApplyGlobalFilter(regionFilter, Some(global));
    assert f[0] == '(';
    assert f[|regionFilter| + 1] == ')';
  }

  /** Given the region filter's length, the composed filter determines both the region filter and the global filter. */
  lemma GlobalFilterInjective(f1: string, f2: string, g1: string, g2: string)
    requires |f1| == |f2|
    requires ApplyGlobalFilter(f1, Some(g1)) == ApplyGlobalFilter(f2, Some(g2))
    ensures f1 == f2 && g1 == g2
  {
    var h := ApplyGlobalFilter(f1, Some(g1));
    assert f1 == h[1..|f1| + 1];
    assert f2 == h[1..|f2| + 1];
  }

  /**
   * Without the length the composed filter is ambiguous: a global filter that
   * starts with ").*" collides with a longer region filter.
   */
  lemma GlobalFilterAmbiguous()
    ensures ApplyGlobalFilter("a", Some(").*b")) == ApplyGlobalFilter("a).*", Some("b"))
    ensures "a" != "a).*"
  {
  }

  /** Every built-in filter passes the structural check. */
  lemma DefaultFiltersValidate()
    ensures var ts := DefaultRegionTemplates();
      forall i :: 0 <= i < |ts| ==> ValidateFilter(ts[i].filter).Success?
  {
    var ts := DefaultRegionTemplates();
    forall i | 0 <= i < |ts|
      ensures ValidateFilter(ts[i].filter).Success?
    {
      var f := ts[i].filter;
      assert |f| > 4 && f[0] == '(' && f[3] == ')';
    }
  }

  // ---------------------------------------------------------------- templates

  /** `get_merged_region_templates`: the caller's templates, or the built-in table when none are given. */
  function MergedRegionTemplates(config: RegionGroupConfig): (t: seq<RegionTemplate>)
    ensures |t| > 0
    ensures config.regions != [] ==> t == config.regions
    ensures config.regions == [] ==> t == DefaultRegionTemplates()
  {
    if config.regions == [] then DefaultRegionTemplates() else config.regions
  }

  // ---------------------------------------------------------------- one region

  /** `create_region_select_group_with_global_filter`. */
  function SelectGroupWithGlobalFilter(region: RegionTemplate, providers: seq<string>,
                                       globalFilter: Option<string>): (g: ProxyGroup)
    ensures g.Select?
    ensures g.common == ProxyGroupCommon(
      region.name, Some([AutoName(region)]), Some(providers),
      None, None, None, None, None, None,
      region.icon, Some(ApplyGlobalFilter(region.filter, globalFilter)))
  {
    var proxies := [region.name + AutoSuffix];
    var finalFilter := ApplyGlobalFilter(region.filter, globalFilter);
    Select(ProxyGroupCommon(
      name := region.name,
      proxies := Some(proxies),
      useProvider := Some(providers),
      url := None,
      interval := None,
      lazy := None,
      timeout := None,
      maxFailedTimes := None,
      disableUdp := None,
      icon := region.icon,
      filter := Some(finalFilter)))
  }

  /** `create_region_auto_group_with_global_filter`. */
  function AutoGroupWithGlobalFilter(region: RegionTemplate, providers: seq<string>,
                                     globalFilter: Option<string>): (g: ProxyGroup)
    ensures g.UrlTest? && g.tolerance.None?
    ensures g.common == ProxyGroupCommon(
      AutoName(region), None, Some(providers),
      Some(ProbeUrl), Some(ProbeInterval), None, None, None, None,
      region.icon, Some(ApplyGlobalFilter(region.filter, globalFilter)))
  {
    var finalFilter := ApplyGlobalFilter(region.filter, globalFilter);
    UrlTest(ProxyGroupCommon(
      name := region.name + AutoSuffix,
      proxies := None,
      useProvider := Some(providers),
      url := Some("http://www.gstatic.com/generate_204"),
      interval := Some(300),
      lazy := None,
      timeout := None,
      maxFailedTimes := None,
      disableUdp := None,
      icon := region.icon,
      filter := Some(finalFilter)), tolerance := None)
  }

  /** `create_region_select_group`: no global filter, so the region filter is kept verbatim. */
  function SelectGroup(region: RegionTemplate, providers: seq<string>): (g: ProxyGroup)
    ensures g.Select? && g.common.name == region.name
    ensures g.common.filter == Some(region.filter)
    ensures g.common.proxies == Some([region.name + "-Auto"])
    ensures g.common.useProvider == Some(providers) && g.common.icon == region.icon
  {
    SelectGroupWithGlobalFilter(region, providers, None)
  }

  /** `create_region_auto_group`: no global filter, so the region filter is kept verbatim. */
  function AutoGroup(region: RegionTemplate, providers: seq<string>): (g: ProxyGroup)
    ensures g.UrlTest? && g.common.name == region.name + "-Auto"
    ensures g.common.filter == Some(region.filter)
    ensures g.common.url == Some("http://www.gstatic.com/generate_204")
    ensures g.common.interval == Some(300)
    ensures g.common.useProvider == Some(providers) && g.common.icon == region.icon
  {
    AutoGroupWithGlobalFilter(region, providers, None)
  }

  /** A region's Select group lists exactly its automatic group, by name. */
  lemma SelectListsAutoGroup(region: RegionTemplate, providers: seq<string>, gf: Option<string>)
    ensures SelectGroupWithGlobalFilter(region, providers, gf).common.proxies
         == Some([AutoGroupWithGlobalFilter(region, providers, gf).common.name])
  {
  }

  // ---------------------------------------------------------------- all regions

  /** The groups one region contributes: Select first, then the url-test group when asked for. */
  function RegionGroups(region: RegionTemplate, providers: seq<string>, withAuto: bool): seq<ProxyGroup> {
    if withAuto then [SelectGroup(region, providers), AutoGroup(region, providers)]
    else [SelectGroup(region, providers)]
  }

  /** The groups of all regions, region by region, in template order. */
  function ExpandRegions(regions: seq<RegionTemplate>, providers: seq<string>, withAuto: bool): seq<ProxyGroup>
    decreases |regions|
  {
    if regions == [] then []
    else ExpandRegions(regions[..|regions| - 1], providers, withAuto)
         + RegionGroups(regions[|regions| - 1], providers, withAuto)
  }

  /** Groups produced per region: two with auto groups, one without. */
  function PerRegion(withAuto: bool): nat {
    if withAuto then 2 else 1
  }

  lemma {:induction false} ExpandRegionsLength(regions: seq<RegionTemplate>, providers: seq<string>,
                                              withAuto: bool)
    ensures |ExpandRegions(regions, providers, withAuto)| == |regions| * PerRegion(withAuto)
    decreases |regions|
  {
    if regions != [] {
      ExpandRegionsLength(regions[..|regions| - 1], providers, withAuto);
    }
  }

  /**
   * The k-th generated group: with auto groups, even positions hold the Select
   * group of region k/2 and odd positions its url-test group; without them,
   * position k holds the Select group of region k.
   */
  lemma {:induction false} ExpandRegionsAt(regions: seq<RegionTemplate>, providers: seq<string>,
                                          withAuto: bool, k: nat)
    requires k < |regions| * PerRegion(withAuto)
    ensures |ExpandRegions(regions, providers, withAuto)| == |regions| * PerRegion(withAuto)
    ensures var g := ExpandRegions(regions, providers, withAuto);
      var r := regions[k / PerRegion(withAuto)];
      g[k] == if withAuto && k % 2 == 1 then AutoGroup(r, providers) else SelectGroup(r, providers)
    decreases |regions|
  {
    var n := |regions|;
    var p := PerRegion(withAuto);
    var init := regions[..n - 1];
    var prefix := ExpandRegions(init, providers, withAuto);
    ExpandRegionsLength(regions, providers, withAuto);
    ExpandRegionsLength(init, providers, withAuto);
    if k < (n - 1) * p {
      ExpandRegionsAt(init, providers, withAuto, k);
      assert k / p < n - 1 by {
        if withAuto { assert k / 2 < n - 1; }
      }
      assert init[k / p] == regions[k / p];
    } else {
      assert k / p == n - 1 by {
        if withAuto { assert (n - 1) * 2 <= k < n * 2; }
      }
      if withAuto {
        assert k % 2 == k - (n - 1) * 2;
      }
    }
  }

  /** `generate_region_groups`: the region groups for the given providers. */
  method GenerateRegionGroups(providers: seq<string>, config: RegionGroupConfig)
    returns (groups: seq<ProxyGroup>)
    ensures !config.enabled ==> groups == []
    ensures config.enabled ==>
      groups == ExpandRegions(MergedRegionTemplates(config), providers, config.createAutoGroups)
  {
    groups := [];
    if !config.enabled {
      return;
    }
    var regions := MergedRegionTemplates(config);
    for i := 0 to |regions|
      invariant groups == ExpandRegions(regions[..i], providers, config.createAutoGroups)
    {
      assert regions[..i + 1][..i] == regions[..i];
      groups := groups + [SelectGroup(regions[i], providers)];
      if config.createAutoGroups {
        groups := groups + [AutoGroup(regions[i], providers)];
      }
    }
    assert regions[..|regions|] == regions;
  }

  /**
   * What the generator promises for an enabled configuration: |R| x 2 or |R|
   * groups, region order kept, each Select group right before its url-test
   * group, and every filter the region's own, verbatim: the configured global
   * filter is never applied.
   */
  lemma GeneratedGroupsShape(providers: seq<string>, config: RegionGroupConfig, k: nat)
    requires config.enabled
    requires k < |MergedRegionTemplates(config)| * PerRegion(config.createAutoGroups)
    ensures var regions := MergedRegionTemplates(config);
      var g := ExpandRegions(regions, providers, config.createAutoGroups);
      var r := regions[k / PerRegion(config.createAutoGroups)];
      && |g| == |regions| * PerRegion(config.createAutoGroups)
      && g[k].common.filter == Some(r.filter)
      && g[k].common.useProvider == Some(providers)
      && (g[k].Select? <==> !(config.createAutoGroups && k % 2 == 1))
      && g[k].common.name == (if g[k].Select? then r.name else r.name + "-Auto")
  {
    ExpandRegionsAt(MergedRegionTemplates(config), providers, config.createAutoGroups, k);
  }

  /** The names of a list of groups. */
  function GroupNames(groups: seq<ProxyGroup>): (ns: seq<string>)
    ensures |ns| == |groups|
    ensures forall i :: 0 <= i < |groups| ==> ns[i] == groups[i].common.name
  {
    seq(|groups|, i requires 0 <= i < |groups| => groups[i].common.name)
  }

  /**
   * When region names are distinct and none ends in "-Auto", all generated
   * group names are distinct, so the generated list never breaks the
   * unique-name rule of a proxy-group list.
   */
  lemma GeneratedNamesDistinct(regions: seq<RegionTemplate>, providers: seq<string>, withAuto: bool)
    requires NamesUsable(regions)
    ensures var ns := GroupNames(ExpandRegions(regions, providers, withAuto));
      forall i, j :: 0 <= i < j < |ns| ==> ns[i] != ns[j]
  {
    var g := ExpandRegions(regions, providers, withAuto);
    var p := PerRegion(withAuto);
    ExpandRegionsLength(regions, providers, withAuto);
    forall i, j | 0 <= i < j < |g|
      ensures g[i].common.name != g[j].common.name
    {
      ExpandRegionsAt(regions, providers, withAuto, i);
      ExpandRegionsAt(regions, providers, withAuto, j);
      var a, b := regions[i / p], regions[j / p];
      var ai := withAuto && i % 2 == 1;
      var bj := withAuto && j % 2 == 1;
      assert g[i].common.name == if ai then a.name + AutoSuffix else a.name;
      assert g[j].common.name == if bj then b.name + AutoSuffix else b.name;
      if i / p == j / p {
        assert withAuto && !ai && bj;
        AutoNameDiffers(a.name, b.name);
      } else {
        assert a.name != b.name by {
          if i / p < j / p { } else { }
        }
        if ai && bj {
          if a.name + AutoSuffix == b.name + AutoSuffix {
            SuffixCancels(a.name, b.name);
          }
        } else if ai {
          AutoNameDiffers(b.name, a.name);
        } else if bj {
          AutoNameDiffers(a.name, b.name);
        }
      }
    }
  }

  lemma SuffixCancels(x: string, y: string)
    requires x + AutoSuffix == y + AutoSuffix
    ensures x == y
  {
    assert x == (x + AutoSuffix)[..|x|];
    assert y == (y + AutoSuffix)[..|y|];
  }

  lemma AutoNameDiffers(x: string, y: string)
    requires !EndsWith(x, AutoSuffix)
    ensures x != y + AutoSuffix
  {
    var s := y + AutoSuffix;
    assert s[|s| - |AutoSuffix|..] == AutoSuffix;
  }

  /** The built-in table expands to twelve groups with twelve distinct names. */
  lemma DefaultGroupsDistinct(providers: seq<string>)
    ensures var g := ExpandRegions(DefaultRegionTemplates(), providers, true);
      && |g| == 12
      && (forall i, j :: 0 <= i < j < |g| ==> g[i].common.name != g[j].common.name)
      && g[0] == SelectGroup(DefaultRegionTemplates()[0], providers)
      && g[0].common.name == "HK" && g[0].common.proxies == Some(["HK-Auto"])
  {
    var t := DefaultRegionTemplates();
    GeneratedNamesDistinct(t, providers, true);
    ExpandRegionsLength(t, providers, true);
    ExpandRegionsAt(t, providers, true, 0);
    assert Names(t)[0] == t[0].name;
    assert t[0].name + "-Auto" == "HK-Auto";
    var g := ExpandRegions(t, providers, true);
    assert GroupNames(g)[0] == g[0].common.name;
  }

  /** `merge_with_user_groups`: generated groups first, then the user's, nothing dropped or reordered. */
  method MergeWithUserGroups(generated: seq<ProxyGroup>, user: seq<ProxyGroup>)
    returns (all: seq<ProxyGroup>)
    ensures |all| == |generated| + |user|
    ensures all[..|generated|] == generated
    ensures all[|generated|..] == user
  {
    all := [];
    all := all + generated;
    all := all + user;
  }
}
