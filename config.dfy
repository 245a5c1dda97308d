/**
 * The output document (src/models/config.rs): its record, the derived
 * default, and the serializer of its proxy list, which leaves out every
 * proxy it cannot represent (`Proxy::Other`).
 */
module ClashConfig {
  import opened Wrappers
  import opened Models

  datatype Config = Config(
    port: Option<Port>,
    socksPort: Option<Port>,
    mixedPort: Option<Port>,
    redirPort: Option<Port>,
    tproxyPort: Option<Port>,
    allowLan: Option<bool>,
    mode: RunMode,
    logLevel: LogLevel,
    proxies: Option<seq<Proxy>>,
    proxyProviders: Option<map<string, ProxyProvider>>,
    proxyGroups: Option<seq<ProxyGroup>>,
    ruleProviders: Option<map<string, RuleProvider>>,
    rules: Option<seq<Rule>>)

  /** `Config::default()` (derived): every optional field absent, mode and log level at their defaults. */
  function ConfigDefault(): (c: Config)
    ensures c.mode.RuleMode? && c.logLevel.Info?
    ensures c.port.None? && c.socksPort.None? && c.mixedPort.None?
    ensures c.redirPort.None? && c.tproxyPort.None? && c.allowLan.None?
    ensures c.proxies.None? && c.proxyProviders.None? && c.proxyGroups.None?
    ensures c.ruleProviders.None? && c.rules.None?
  {
    Config(None, None, None, None, None, None, DefaultRunMode(), DefaultLogLevel(),
           None, None, None, None, None)
  }

  /** The proxies the serializer writes: those that are not `Other`, in their order. */
  function KeptProxies(ps: seq<Proxy>): seq<Proxy>
    decreases |ps|
  {
    if ps == [] then []
    else if ps[|ps| - 1].Other? then KeptProxies(ps[..|ps| - 1])
    else KeptProxies(ps[..|ps| - 1]) + [ps[|ps| - 1]]
  }

  /** Keeping distributes over concatenation, so kept proxies stay in their relative order. */
  lemma {:induction false} KeptProxiesAppend(a: seq<Proxy>, b: seq<Proxy>)
    ensures KeptProxies(a + b) == KeptProxies(a) + KeptProxies(b)
    decreases |b|
  {
    if b == [] {
      assert a + b == a;
    } else {
      var b' := b[..|b| - 1];
      KeptProxiesAppend(a, b');
      assert (a + b)[..|a + b| - 1] == a + b';
    }
  }

  /** Exactly the proxies that are not `Other` are kept, and no more of them than there were. */
  lemma {:induction false} KeptProxiesMembers(ps: seq<Proxy>)
    ensures |KeptProxies(ps)| <= |ps|
    ensures forall p :: p in KeptProxies(ps) <==> p in ps && !p.Other?
    decreases |ps|
  {
    if ps != [] {
      var init := ps[..|ps| - 1];
      KeptProxiesMembers(init);
      assert ps == init + [ps[|ps| - 1]];
      assert forall p :: p in ps <==> p in init || p == ps[|ps| - 1];
    }
  }

  /** A list without `Other` entries is written unchanged. */
  lemma {:induction false} KeptProxiesNoOther(ps: seq<Proxy>)
    requires forall i :: 0 <= i < |ps| ==> !ps[i].Other?
    ensures KeptProxies(ps) == ps
    decreases |ps|
  {
    if ps != [] {
      KeptProxiesNoOther(ps[..|ps| - 1]);
    }
  }

  /**
   * `proxies_serialize`: `None` is written as none; a list is written element
   * by element, skipping `Other` entries. The result is what reaches the
   * serializer: `None` for `serialize_none`, the written elements otherwise.
   */
  method ProxiesSerialize(proxy: Option<seq<Proxy>>) returns (written: Option<seq<Proxy>>)
    ensures proxy.None? ==> written.None?
    ensures proxy.Some? ==> written == Some(KeptProxies(proxy.value))
  {
    if proxy.None? {
      return None;
    }
    var proxies := proxy.value;
    var out: seq<Proxy> := [];
    for i := 0 to |proxies|
      invariant out == KeptProxies(proxies[..i])
    {
      assert proxies[..i + 1][..i] == proxies[..i];
      if proxies[i].Other? {
        continue;
      }
      out := out + [proxies[i]];
    }
    assert proxies[..|proxies|] == proxies;
    return Some(out);
  }
}
