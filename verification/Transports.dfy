/** Configured transports and what the proxy asks of them. */
module Transports {
  import opened Wrappers

  datatype Kind = Wss | Vless

  datatype Mode = Telegram | All

  datatype Source = StaticConfig | DiscoveredFree | DiscoveredPremium | GossipUnstaked

  datatype Transport = Transport(kind: Kind, mode: Mode, source: Source, agent: Option<nat>,
                                 price: nat, bandwidth: Option<nat>, reputation: real)

  /** One entry of the configuration; `valid` says whether a VLESS URL parses. */
  datatype Config = WssConfig(endpoints: seq<string>, mode: Mode) | VlessConfig(valid: bool, mode: Mode)

  predicate IsPremium(t: Transport) { t.source == DiscoveredPremium || t.price > 0 }

  predicate ModeMatches(t: Transport, isTelegram: bool, proxyMode: string)
  {
    if proxyMode == "telegram" then isTelegram
    else if proxyMode == "full" then isTelegram || t.mode == All
    else false
  }

  predicate Buildable(c: Config) { if c.WssConfig? then c.endpoints != [] else c.valid }

  function Static(c: Config): Transport
  {
    Transport(if c.WssConfig? then Wss else Vless, c.mode, StaticConfig, None, 0, None, 0.0)
  }

  /** Either every configured entry becomes a transport, in order, or the first bad one fails them all. */
  method BuildTransports(configs: seq<Config>) returns (r: Option<seq<Transport>>)
    ensures r.Some? <==> forall c :: c in configs ==> Buildable(c)
    ensures r.Some? ==> |r.value| == |configs|
                        && forall i :: 0 <= i < |configs| ==>
                             && r.value[i] == Static(configs[i]) && !IsPremium(r.value[i])
                             && (r.value[i].kind == Wss <==> configs[i].WssConfig?)
                             && r.value[i].mode == configs[i].mode
                             && r.value[i].source == StaticConfig && r.value[i].agent == None && r.value[i].price == 0
  {
    var ts := [];
    for i := 0 to |configs|
      invariant |ts| == i && forall j :: 0 <= j < i ==> Buildable(configs[j]) && ts[j] == Static(configs[j])
    {
      if !Buildable(configs[i]) { return None; }
      ts := ts + [Static(configs[i])];
    }
    return Some(ts);
  }
}
