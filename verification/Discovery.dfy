/** Discovered routes: reading offers, scoring their risk, and sorting them. Every `f64` is a real here. */
module Discovery {
  import opened Wrappers
  import opened Sequences
  import opened StableSort
  import opened Sums
  import opened Transports
  import Digits
  import P = ProviderMetrics

  datatype Feedback = Feedback(count: nat, value: Option<real>)

  /** `host` is the endpoint's host where the endpoint parses as a URL; `vlessValid` says whether it is a usable
      VLESS one. Both are library results. */
  datatype Offer = Offer(id: nat, agent: nat, endpoint: string, host: Option<string>, vlessValid: bool, region: string,
                         priceRaw: string, stakeRaw: string, bandwidth: nat, createdAt: nat, feedback: Option<Feedback>)

  datatype Route = Route(offer: Offer, kind: Kind, reputation: real, score: real, premium: bool, source: Source)

  function Price(o: Offer): nat
  {
    var p := Digits.ParseUnsigned(o.priceRaw, U64_MAX);
    if p.Some? then p.value else 0
  }

  function KindOf(endpoint: string): Option<Kind>
  {
    if "vless://" <= endpoint then Some(Vless) else if "wss://" <= endpoint then Some(Wss) else None
  }

  function BaseScore(bandwidth: nat, reputation: real, price: nat): real
  {
    var penalty := if price == 0 then 0.0 else price as real / 1_000_000.0 * 15.0;
    var bonus := if price == 0 then 10.0 else 0.0;
    bandwidth as real + reputation * 20.0 + bonus - penalty
  }

  function ReputationOf(o: Offer): real
  {
    if o.feedback.Some? && o.feedback.value.value.Some? then o.feedback.value.value.value else 0.0
  }

  /** A route from the exchange. */
  function ParseOffer(o: Offer): Option<Route>
  {
    match KindOf(Digits.TrimEnd(Digits.TrimStart(o.endpoint)))
    case None => None
    case Some(kind) =>
      var reputation := ReputationOf(o);
      Some(Route(o, kind, reputation, BaseScore(o.bandwidth, reputation, Price(o)), Price(o) > 0,
                 if Price(o) > 0 then DiscoveredPremium else DiscoveredFree))
  }

  /** A route from gossip: unstaked, and without feedback. */
  function ParseAnnouncement(o: Offer): Option<Route>
  {
    match KindOf(Digits.TrimEnd(Digits.TrimStart(o.endpoint)))
    case None => None
    case Some(kind) =>
      var offer := o.(id := 0, stakeRaw := "0", feedback := None);
      Some(Route(offer, kind, 0.0, BaseScore(o.bandwidth, 0.0, Price(o)), Price(o) > 0, GossipUnstaked))
  }

  /** What both readers establish, and scoring keeps. */
  predicate Parsed(r: Route)
  {
    && (r.premium <==> Price(r.offer) > 0)
    && (r.source == DiscoveredPremium ==> r.premium) && r.source != StaticConfig
  }

  function ToTransport(r: Route): Transport
  {
    Transport(r.kind, All, r.source, Some(r.offer.agent), Price(r.offer), Some(r.offer.bandwidth), r.reputation)
  }

  predicate Builds(r: Route) { r.kind == Wss || r.offer.vlessValid }

  /** The route's own premium flag and its transport's agree, however the route was found. */
  lemma FlagsAgree(o: Offer)
    ensures ParseOffer(o).Some? ==> Parsed(ParseOffer(o).value)
    ensures ParseAnnouncement(o).Some? ==> Parsed(ParseAnnouncement(o).value)
    ensures forall r :: Parsed(r) ==> (IsPremium(ToTransport(r)) <==> r.premium)
  {
  }

  /** How offers compare before any risk is looked at: each Mbit/s of bandwidth counts one, each unit of reputation 20,
      being free 10, and each USDC a gigabyte costs 15. */
  lemma BaseScoreExactly(bandwidth: nat, reputation: real, price: nat)
    ensures BaseScore(bandwidth, reputation, 0) == bandwidth as real + 20.0 * reputation + 10.0
    ensures price > 0 ==>
              (bandwidth as real + 20.0 * reputation - BaseScore(bandwidth, reputation, price)) * 1_000_000.0
              == 15.0 * price as real
  {
  }

  /** Which offers become routes, and as what: those whose endpoint is a `vless://` or `wss://` one once trimmed. A
      listed offer brings the reputation it has, and gossip none, no stake and no feedback. */
  lemma OffersExactly(o: Offer)
    ensures var e, listed, heard := Digits.TrimEnd(Digits.TrimStart(o.endpoint)), ParseOffer(o), ParseAnnouncement(o);
            && (listed.Some? <==> "vless://" <= e || "wss://" <= e) && (heard.Some? <==> listed.Some?)
            && (listed.Some? ==>
                  var r := listed.value;
                  && r.offer == o && (r.kind == Vless <==> "vless://" <= e) && r.reputation == ReputationOf(o)
                  && r.source == (if Price(o) > 0 then DiscoveredPremium else DiscoveredFree)
                  && r.score == BaseScore(o.bandwidth, r.reputation, Price(o)))
            && (heard.Some? ==>
                  var r := heard.value;
                  && r.offer.agent == o.agent && r.offer.stakeRaw == "0" && r.offer.feedback == None
                  && r.kind == listed.value.kind && r.reputation == 0.0 && r.source == GossipUnstaked
                  && r.score == BaseScore(o.bandwidth, 0.0, Price(o)))
  {
    hide Digits.TrimEnd, Digits.TrimStart, Price, BaseScore;
  }

  /** A transport offers what its route does. */
  lemma TransportExactly(r: Route)
    ensures var t := ToTransport(r);
            && t.kind == r.kind && t.mode == All && t.source == r.source && t.agent == Some(r.offer.agent)
            && t.price == Price(r.offer) && t.bandwidth == Some(r.offer.bandwidth) && t.reputation == r.reputation
  {
  }

  // ---- risk ----

  predicate ValidRegion(region: string) { |region| == 2 && 'A' <= region[0] <= 'Z' && 'A' <= region[1] <= 'Z' }

  /** What a route's risk is judged against: all routes' prices and hosts, the time, and the agents' own record. */
  datatype Scene = Scene(median: Option<nat>, hosts: map<string, nat>, now: nat, metrics: Option<P.Table>)

  function Abs(x: real): real { if x < 0.0 then -x else x }

  function Capped(x: real): nat { if x.Floor < 0 then 0 else if x.Floor <= U64_MAX then x.Floor else U64_MAX }

  function FeedbackCount(o: Offer): nat { if o.feedback.Some? then o.feedback.value.count else 0 }

  function PriceRisk(o: Offer, median: Option<nat>): real
  {
    if median.Some? && Price(o) > 0 && Price(o) < Capped(median.value as real * 0.35) then 18.0 else 0.0
  }

  function AgeRisk(o: Offer, now: nat): real
  {
    if (if now > o.createdAt then now - o.createdAt else 0) < 86_400 then 4.0 else 0.0
  }

  function StakeRisk(r: Route): real { if r.source == GossipUnstaked || r.offer.stakeRaw == "0" then 12.0 else 0.0 }

  function ReportRisk(o: Offer): real { if FeedbackCount(o) < 3 then 4.0 else 0.0 }

  function ReputationRisk(r: Route): real { if r.reputation < 0.0 then Abs(r.reputation) * 18.0 else 0.0 }

  function HostRisk(o: Offer, hosts: map<string, nat>): real
  {
    if o.host.Some? && o.host.value in hosts && hosts[o.host.value] > 1 then (hosts[o.host.value] as real - 1.0) * 3.0
    else 0.0
  }

  function RegionRisk(o: Offer): real { if !ValidRegion(o.region) then 6.0 else 0.0 }

  /** What the offer itself and its surroundings speak against it. */
  function OfferRisk(r: Route, median: Option<nat>, hosts: map<string, nat>, now: nat): real
  {
    PriceRisk(r.offer, median) + AgeRisk(r.offer, now) + StakeRisk(r) + ReportRisk(r.offer) + ReputationRisk(r)
    + HostRisk(r.offer, hosts) + RegionRisk(r.offer)
  }

  function Penalty(r: Route, scene: Scene): real
  {
    OfferRisk(r, scene.median, scene.hosts, scene.now)
    + (match scene.metrics
       case None => 0.0
       case Some(t) => P.MinR(P.Load(t, r.offer.agent).recentFailures as real, 5.0) * 2.0)
  }

  function Praise(r: Route): real
  {
    if !(r.reputation < 0.0) && FeedbackCount(r.offer) > 0 then r.reputation * 12.0 else 0.0
  }

  function Bonus(r: Route, scene: Scene): real
  {
    Praise(r) + (match scene.metrics case None => 0.0 case Some(t) => P.Load(t, r.offer.agent).score * 0.35)
  }

  function Rescored(r: Route, scene: Scene): Route
  {
    var score := r.score + Bonus(r, scene) - Penalty(r, scene);
    r.(score := if score > 0.0 then score else 0.0)
  }

  function PriceOf(r: Route): seq<nat> { if Price(r.offer) > 0 then [Price(r.offer)] else [] }

  function HostOf(r: Route): seq<string> { if r.offer.host.Some? then [r.offer.host.value] else [] }

  function Prices(s: seq<Route>): seq<nat> { Flat(s, PriceOf) }

  function Hosts(s: seq<Route>): seq<string> { Flat(s, HostOf) }

  function Median(values: seq<nat>): Option<nat>
  {
    if values == [] then None else Some(Sort(values, NatOrder())[|values| / 2])
  }

  function NatOrder(): (nat, nat) -> bool { (a: nat, b: nat) => a <= b }

  function Counts(hosts: seq<string>): map<string, nat> { map h | h in hosts :: multiset(hosts)[h] }

  function SceneOf(s: seq<Route>, now: nat, metrics: Option<P.Table>): Scene
  {
    Scene(Median(Prices(s)), Counts(Hosts(s)), now, metrics)
  }

  function Penalised(s: seq<Route>, now: nat, metrics: Option<P.Table>): seq<Route>
  {
    var scene := SceneOf(s, now, metrics);
    Map(s, (r: Route) => Rescored(r, scene))
  }

  /** The middle of the values once sorted. */
  method MedianOf(values: seq<nat>) returns (m: Option<nat>)
    ensures m == Median(values)
  {
    hide Sort, NatOrder;
    if values == [] { return None; }
    var a := new nat[|values|](i requires 0 <= i < |values| => values[i]);
    assert a[..] == values;
    SortInPlace(a, NatOrder());
    return Some(a[..][|values| / 2]);
  }

  /** Collect the positive prices and count the hosts. */
  method Survey(routes: array<Route>) returns (prices: seq<nat>, hosts: map<string, nat>)
    ensures prices == Prices(routes[..]) && hosts == Counts(Hosts(routes[..]))
  {
    NothingSurveyed(routes[..]);
    hide Price, Prices, Hosts, Counts;
    prices, hosts := [], map[];
    ghost var s := routes[..];
    for i := 0 to routes.Length
      invariant prices == Prices(s[..i]) && hosts == Counts(Hosts(s[..i]))
    {
      var r := routes[i];
      SurveyStep(s, i);
      if Price(r.offer) > 0 { prices := prices + [Price(r.offer)]; }
      var host := r.offer.host;
      if host.Some? {
        CountOneMore(Hosts(s[..i]), host.value);
        hosts := hosts[host.value := (if host.value in hosts then hosts[host.value] else 0) + 1];
      }
    }
    assert s[..routes.Length] == s;
  }

  lemma NothingSurveyed(s: seq<Route>)
    ensures Prices(s[..0]) == [] && Counts(Hosts(s[..0])) == map[]
  {
  }

  lemma SurveyStep(s: seq<Route>, i: nat)
    requires i < |s|
    ensures Prices(s[..i + 1]) == if Price(s[i].offer) > 0 then Prices(s[..i]) + [Price(s[i].offer)] else Prices(s[..i])
    ensures Hosts(s[..i + 1])
         == if s[i].offer.host.Some? then Hosts(s[..i]) + [s[i].offer.host.value] else Hosts(s[..i])
  {
    hide Price;
    assert s[..i + 1][..i] == s[..i];
  }

  /** Rescore every route in place against the scene of them all. */
  method ApplyRiskPenalties(routes: array<Route>, now: nat, metrics: Option<P.Table>)
    modifies routes
    ensures routes[..] == Penalised(old(routes[..]), now, metrics)
  {
    hide Prices, Hosts, Counts, Median, Rescored;
    ghost var was := routes[..];
    var prices, hosts := Survey(routes);
    var median := MedianOf(prices);
    var scene := Scene(median, hosts, now, metrics);
    for i := 0 to routes.Length
      invariant forall j :: 0 <= j < i ==> routes[j] == Rescored(was[j], scene)
      invariant forall j :: i <= j < routes.Length ==> routes[j] == was[j]
    {
      routes[i] := Rescored(routes[i], scene);
    }
    assert scene == SceneOf(was, now, metrics);
  }

  lemma CountOneMore(hosts: seq<string>, h: string)
    ensures Counts(hosts + [h]) == Counts(hosts)[h := (if h in Counts(hosts) then Counts(hosts)[h] else 0) + 1]
  {
    var c, c' := Counts(hosts)[h := (if h in Counts(hosts) then Counts(hosts)[h] else 0) + 1], Counts(hosts + [h]);
    forall k | k in hosts + [h] ensures k in c && c[k] == multiset(hosts + [h])[k] {
      assert multiset(hosts + [h]) == multiset(hosts) + multiset{h};
      if k !in hosts { assert k !in multiset(hosts); }
    }
    assert c.Keys == c'.Keys;
  }

  /** The scene does not depend on the order of the routes. */
  lemma ScenePermutes(s: seq<Route>, t: seq<Route>, now: nat, metrics: Option<P.Table>)
    requires multiset(s) == multiset(t)
    ensures SceneOf(s, now, metrics) == SceneOf(t, now, metrics)
  {
    hide PriceOf, HostOf, Counts, Median, Flat;
    FlatPermutes(s, t, PriceOf);
    FlatPermutes(s, t, HostOf);
    MedianPermutes(Prices(s), Prices(t));
    CountsPermute(Hosts(s), Hosts(t));
  }

  lemma CountsPermute(a: seq<string>, b: seq<string>)
    requires multiset(a) == multiset(b)
    ensures Counts(a) == Counts(b)
  {
    forall h ensures h in a <==> h in b {
      assert h in a <==> h in multiset(a);
      assert h in b <==> h in multiset(b);
    }
  }

  lemma MedianPermutes(a: seq<nat>, b: seq<nat>)
    requires multiset(a) == multiset(b)
    ensures Median(a) == Median(b)
  {
    assert |a| == |multiset(a)| && |b| == |multiset(b)|;
    if a != [] {
      SortIsCanonical(a, b, NatOrder());
    }
  }

  /** Risk scoring is independent of order: permuting the routes permutes the rescored routes, and any one route
      gets the same score wherever it stands. Scores end non-negative and nothing but the score changes. */
  lemma RiskIgnoresOrder(s: seq<Route>, t: seq<Route>, now: nat, metrics: Option<P.Table>)
    requires multiset(s) == multiset(t)
    ensures var ps, pt := Penalised(s, now, metrics), Penalised(t, now, metrics);
            && multiset(ps) == multiset(pt) && |ps| == |s| && |pt| == |t|
            && (forall i, j :: 0 <= i < |s| && 0 <= j < |t| && s[i] == t[j] ==> ps[i] == pt[j])
            && (forall i :: 0 <= i < |s| ==> ps[i].score >= 0.0 && ps[i] == s[i].(score := ps[i].score))
  {
    ScenePermutes(s, t, now, metrics);
    var scene := SceneOf(s, now, metrics);
    MapPermutes(s, t, (r: Route) => Rescored(r, scene));
  }

  // ---- what each risk costs ----

  /** The worse route never scores higher, and lower by exactly this much as long as both score at all. */
  predicate Costs(better: Route, worse: Route, amount: real)
  {
    worse.score <= better.score && (better.score > 0.0 && worse.score > 0.0 ==> worse.score == better.score - amount)
  }

  /** Do two routes differ in no more than their offers, and the second offer from this one in no more than its
      identifier? */
  predicate Apart(r: Route, r': Route, o: Offer) { r' == r.(offer := o.(id := r'.offer.id)) }

  /** Is this price suspiciously low: at least one micro-USDC under 35 percent of the median? */
  predicate Underpriced(price: nat, median: Option<nat>)
  {
    median.Some? && price > 0 && price as real + 1.0 <= median.value as real * 0.35
  }

  lemma UnderpricedExactly(o: Offer, median: Option<nat>)
    requires median.Some? ==> median.value <= U64_MAX
    ensures PriceRisk(o, median) == if Underpriced(Price(o), median) then 18.0 else 0.0
  {
    hide Price;
  }

  /** A suspiciously low price costs 18. */
  lemma LowPriceCosts(r: Route, r': Route, scene: Scene)
    requires Apart(r, r', r.offer.(priceRaw := r'.offer.priceRaw))
    requires scene.median.Some? ==> scene.median.value <= U64_MAX
    requires !Underpriced(Price(r.offer), scene.median) && Underpriced(Price(r'.offer), scene.median)
    ensures Costs(Rescored(r, scene), Rescored(r', scene), 18.0)
  {
    UnderpricedExactly(r.offer, scene.median);
    UnderpricedExactly(r'.offer, scene.median);
    SameOtherwise(r, r', scene);
    hide PriceRisk, AgeRisk, StakeRisk, ReportRisk, ReputationRisk, HostRisk, RegionRisk, Praise, P.Load;
  }

  /** An age of less than a day costs 4. */
  lemma YouthCosts(r: Route, r': Route, scene: Scene)
    requires Apart(r, r', r.offer.(createdAt := r'.offer.createdAt))
    requires r.offer.createdAt + 86_400 <= scene.now < r'.offer.createdAt + 86_400
    ensures Costs(Rescored(r, scene), Rescored(r', scene), 4.0)
  {
    SameOtherwise(r, r', scene);
    hide PriceRisk, StakeRisk, ReportRisk, ReputationRisk, HostRisk, RegionRisk, Praise, P.Load;
  }

  /** Having nothing staked costs 12. */
  lemma NoStakeCosts(r: Route, r': Route, scene: Scene)
    requires Apart(r, r', r.offer.(stakeRaw := r'.offer.stakeRaw))
    requires r.source != GossipUnstaked && r.offer.stakeRaw != "0" && r'.offer.stakeRaw == "0"
    ensures Costs(Rescored(r, scene), Rescored(r', scene), 12.0)
  {
    SameOtherwise(r, r', scene);
    hide PriceRisk, AgeRisk, ReportRisk, ReputationRisk, HostRisk, RegionRisk, Praise, P.Load;
  }

  /** Being known from gossip alone costs the same 12. */
  lemma GossipCosts(r: Route, r': Route, scene: Scene)
    requires r' == r.(offer := r.offer.(id := r'.offer.id), source := GossipUnstaked)
    requires r.source != GossipUnstaked && r.offer.stakeRaw != "0"
    ensures Costs(Rescored(r, scene), Rescored(r', scene), 12.0)
  {
    SameOtherwise(r, r', scene);
    hide PriceRisk, AgeRisk, ReportRisk, ReputationRisk, HostRisk, RegionRisk, Praise, P.Load;
  }

  /** Fewer than three reports cost 4. */
  lemma FewReportsCost(r: Route, r': Route, scene: Scene)
    requires Apart(r, r', r.offer.(feedback := r'.offer.feedback))
    requires FeedbackCount(r.offer) >= 3 > FeedbackCount(r'.offer) > 0
    ensures Costs(Rescored(r, scene), Rescored(r', scene), 4.0)
  {
    SameOtherwise(r, r', scene);
    assert Praise(r) == Praise(r');
    hide PriceRisk, AgeRisk, StakeRisk, ReputationRisk, HostRisk, RegionRisk, Praise, P.Load;
  }

  /** A bad reputation costs 18 for each unit it is below zero. */
  lemma BadReputationCosts(r: Route, r': Route, scene: Scene)
    requires r' == r.(offer := r.offer.(id := r'.offer.id), reputation := r'.reputation)
    requires r'.reputation <= r.reputation <= 0.0
    ensures Costs(Rescored(r, scene), Rescored(r', scene), (r.reputation - r'.reputation) * 18.0)
  {
    SameOtherwise(r, r', scene);
    assert Praise(r) == Praise(r') == 0.0;
    hide PriceRisk, AgeRisk, StakeRisk, ReportRisk, HostRisk, RegionRisk, Praise, P.Load;
  }

  /** A host that several routes share costs 3 for each of the others. */
  lemma SharedHostCosts(r: Route, r': Route, scene: Scene)
    requires Apart(r, r', r.offer.(host := r'.offer.host)) && r.offer.host.None?
    requires r'.offer.host.Some? && r'.offer.host.value in scene.hosts && scene.hosts[r'.offer.host.value] >= 1
    ensures Costs(Rescored(r, scene), Rescored(r', scene), (scene.hosts[r'.offer.host.value] as real - 1.0) * 3.0)
  {
    SameOtherwise(r, r', scene);
    hide PriceRisk, AgeRisk, StakeRisk, ReportRisk, ReputationRisk, RegionRisk, Praise, P.Load;
  }

  /** A region that is not two capital letters costs 6. */
  lemma BadRegionCosts(r: Route, r': Route, scene: Scene)
    requires Apart(r, r', r.offer.(region := r'.offer.region))
    requires |r.offer.region| == 2 && forall k :: 0 <= k < 2 ==> 'A' <= r.offer.region[k] <= 'Z'
    requires |r'.offer.region| != 2 || exists k :: 0 <= k < 2 && !('A' <= r'.offer.region[k] <= 'Z')
    ensures Costs(Rescored(r, scene), Rescored(r', scene), 6.0)
  {
    SameOtherwise(r, r', scene);
    assert ValidRegion(r.offer.region) && !ValidRegion(r'.offer.region);
    hide PriceRisk, AgeRisk, StakeRisk, ReportRisk, ReputationRisk, HostRisk, Praise, P.Load;
  }

  /** A good reputation with any report at all is worth 12 for each unit. */
  lemma PraiseCounts(r: Route, r': Route, scene: Scene)
    requires r' == r.(offer := r.offer.(id := r'.offer.id), reputation := r'.reputation)
    requires r.reputation >= r'.reputation >= 0.0 && FeedbackCount(r.offer) > 0
    ensures Costs(Rescored(r, scene), Rescored(r', scene), (r.reputation - r'.reputation) * 12.0)
  {
    SameOtherwise(r, r', scene);
    assert ReputationRisk(r) == ReputationRisk(r') == 0.0;
    hide PriceRisk, AgeRisk, StakeRisk, ReportRisk, ReputationRisk, HostRisk, RegionRisk, P.Load;
  }

  /** Each part of a score looks at one thing alone. */
  lemma SameOtherwise(r: Route, r': Route, scene: Scene)
    ensures r.offer.priceRaw == r'.offer.priceRaw ==>
              PriceRisk(r.offer, scene.median) == PriceRisk(r'.offer, scene.median)
    ensures r.offer.createdAt == r'.offer.createdAt ==> AgeRisk(r.offer, scene.now) == AgeRisk(r'.offer, scene.now)
    ensures r.source == r'.source && r.offer.stakeRaw == r'.offer.stakeRaw ==> StakeRisk(r) == StakeRisk(r')
    ensures r.offer.feedback == r'.offer.feedback ==> ReportRisk(r.offer) == ReportRisk(r'.offer)
    ensures r.reputation == r'.reputation ==> ReputationRisk(r) == ReputationRisk(r')
    ensures r.offer.host == r'.offer.host ==> HostRisk(r.offer, scene.hosts) == HostRisk(r'.offer, scene.hosts)
    ensures r.offer.region == r'.offer.region ==> RegionRisk(r.offer) == RegionRisk(r'.offer)
    ensures r.reputation == r'.reputation && r.offer.feedback == r'.offer.feedback ==> Praise(r) == Praise(r')
  {
  }

  /** An agent's own record is worth 35 percent of its score, less 2 for each of up to five recent failures. */
  lemma RecordCounts(r: Route, r': Route, scene: Scene)
    requires Apart(r, r', r.offer.(agent := r'.offer.agent)) && scene.metrics.Some?
    requires var t := scene.metrics.value;
             RecordWorth(P.Load(t, r'.offer.agent)) <= RecordWorth(P.Load(t, r.offer.agent))
    ensures var t := scene.metrics.value;
            Costs(Rescored(r, scene), Rescored(r', scene),
                  RecordWorth(P.Load(t, r.offer.agent)) - RecordWorth(P.Load(t, r'.offer.agent)))
  {
    SameOtherwise(r, r', scene);
    hide PriceRisk, AgeRisk, StakeRisk, ReportRisk, ReputationRisk, HostRisk, RegionRisk, Praise, P.Load;
  }

  function RecordWorth(m: P.Metrics): real
  {
    m.score * 0.35 - (if m.recentFailures >= 5 then 10.0 else m.recentFailures as real * 2.0)
  }

  /** What the routes of a slice are judged by: the median of their positive prices, and how many of them have a host.
      */
  lemma JudgedTogether(s: seq<Route>, now: nat, metrics: Option<P.Table>, i: nat)
    requires i < |s|
    ensures var scene := SceneOf(s, now, metrics);
            && |Penalised(s, now, metrics)| == |s| && Penalised(s, now, metrics)[i] == Rescored(s[i], scene)
            && scene.median == Median(Prices(s)) && scene.now == now && scene.metrics == metrics
            && (s[i].offer.host.Some? ==>
                  var h := s[i].offer.host.value;
                  h in scene.hosts && scene.hosts[h] == multiset(Hosts(s))[h] >= 1)
  {
    if s[i].offer.host.Some? { FlatHas(s, HostOf, i, s[i].offer.host.value); }
    hide Rescored, Median, Prices;
  }

  /** The median is one of the values, with at most half of them below it and at most half above. */
  lemma MedianByRank(values: seq<nat>)
    requires values != []
    ensures var m := Median(values);
            && m.Some? && m.value in values
            && 2 * |Filter(values, (x: nat) => x < m.value)| <= |values|
            && 2 * |Filter(values, (x: nat) => x > m.value)| <= |values|
  {
    var sorted, k := Sort(values, NatOrder()), |values| / 2;
    SortedAround(values);
    assert Median(values) == Some(sorted[k]);
    hide Sort, Median, NatOrder;
    var m := sorted[k];
    FilterPermutes(values, sorted, (x: nat) => x < m);
    FilterPermutes(values, sorted, (x: nat) => x > m);
    FilterFront(sorted, (x: nat) => x < m, k);
    FilterBack(sorted, (x: nat) => x > m, k + 1);
    assert m in multiset(sorted);
    hide Filter;
  }

  lemma SortedAround(values: seq<nat>)
    requires values != []
    ensures var sorted, k := Sort(values, NatOrder()), |values| / 2;
            && multiset(sorted) == multiset(values) && |sorted| == |values|
            && (forall i :: 0 <= i < |sorted| ==>
                  (i <= k ==> sorted[i] <= sorted[k]) && (i >= k ==> sorted[i] >= sorted[k]))
  {
    SortedPairs(values);
    hide Sort, NatOrder;
  }

  lemma SortedPairs(values: seq<nat>)
    ensures var sorted := Sort(values, NatOrder());
            && multiset(sorted) == multiset(values) && |sorted| == |values|
            && (forall i, j :: 0 <= i < j < |sorted| ==> sorted[i] <= sorted[j])
  {
    SortIsPermutation(values, NatOrder());
    SortIsLexicographic(values, NatOrder(), (a, b) => true);
    hide Sort;
    SameSize(Sort(values, NatOrder()), values);
  }

  lemma SameSize(a: seq<nat>, b: seq<nat>)
    requires multiset(a) == multiset(b)
    ensures |a| == |b|
  {
    assert |a| == |multiset(a)| && |b| == |multiset(b)|;
  }

  /** A session that fails never moves any of its agent's routes up, and leaves every other route's score alone. */
  lemma FailureDemotes(s: seq<Route>, t: P.Table, agent: nat, h: seq<P.Event>, failed: nat, now: nat)
    requires P.Load(t, agent) == P.After(agent, h) && |h| < U32_MAX
    ensures var t' := t[agent := P.Record(P.Load(t, agent), P.Failure(failed))];
            var was, next := Penalised(s, now, Some(t)), Penalised(s, now, Some(t'));
            && |was| == |next| == |s|
            && forall i :: 0 <= i < |s| ==>
                 if s[i].offer.agent == agent then next[i].score <= was[i].score else next[i] == was[i]
  {
    P.FailureNeverHelps(agent, h, failed);
    hide P.After, P.Record, Rescored, Median, Prices, Hosts, Counts;
    var t' := t[agent := P.Record(P.Load(t, agent), P.Failure(failed))];
    var scene := SceneOf(s, now, Some(t));
    forall i | 0 <= i < |s|
      ensures var a, b := Rescored(s[i], scene), Rescored(s[i], scene.(metrics := Some(t')));
              if s[i].offer.agent == agent then b.score <= a.score else b == a
    {
      WorseRecord(s[i], scene, t, t');
    }
  }

  /** Only its own agent's record weighs on a route, and a worse one weighs more. */
  lemma WorseRecord(r: Route, scene: Scene, t: P.Table, t': P.Table)
    requires scene.metrics == Some(t)
    ensures var was, next := P.Load(t, r.offer.agent), P.Load(t', r.offer.agent);
            var a, b := Rescored(r, scene), Rescored(r, scene.(metrics := Some(t')));
            && (next == was ==> b == a)
            && (next.recentFailures >= was.recentFailures && next.score <= was.score ==> b.score <= a.score)
  {
    hide OfferRisk, Praise, P.Load;
  }

  // ---- sorting ----

  /** Free before premium if preferred so, then the higher score first. */
  function RouteOrder(preferFree: bool): (Route, Route) -> bool
  {
    (a: Route, b: Route) => if preferFree && a.premium != b.premium then b.premium else a.score >= b.score
  }

  method SortRoutes(routes: array<Route>, preferFree: bool)
    modifies routes
    ensures routes[..] == Sort(old(routes[..]), RouteOrder(preferFree))
  {
    SortInPlace(routes, RouteOrder(preferFree));
  }

  lemma RouteOrderIsPreorder(preferFree: bool)
    ensures TotalPreorder(RouteOrder(preferFree))
  {
  }

  /** Sorting routes permutes them, puts free routes first where that is preferred, and otherwise goes by score. */
  lemma SortedRoutes(s: seq<Route>, preferFree: bool)
    ensures var r := Sort(s, RouteOrder(preferFree));
            && multiset(r) == multiset(s)
            && (forall i, j :: 0 <= i < j < |r| && r[i].premium == r[j].premium ==> r[i].score >= r[j].score)
            && (preferFree ==> forall i, j :: 0 <= i < j < |r| && r[i].premium ==> r[j].premium)
            && (!preferFree ==> forall i, j :: 0 <= i < j < |r| ==> r[i].score >= r[j].score)
  {
    RouteOrderIsPreorder(preferFree);
    SortIsPermutation(s, RouteOrder(preferFree));
    SortIsLexicographic(s, RouteOrder(preferFree), (a, b) => true);
  }

  /** The routes on offer now: cached and gossiped ones together, rescored and sorted. */
  function CurrentRoutes(cached: seq<Route>, gossip: seq<Route>, now: nat, metrics: Option<P.Table>,
                         preferFree: bool): seq<Route>
  {
    Sort(Penalised(cached + gossip, now, metrics), RouteOrder(preferFree))
  }

  lemma CurrentRoutesParsed(cached: seq<Route>, gossip: seq<Route>, now: nat, metrics: Option<P.Table>,
                            preferFree: bool)
    requires forall r :: r in cached || r in gossip ==> Parsed(r)
    ensures var rs := CurrentRoutes(cached, gossip, now, metrics, preferFree);
            && |rs| == |cached| + |gossip|
            && (forall i :: 0 <= i < |rs| ==> Parsed(rs[i]) && rs[i].score >= 0.0)
            && (forall i, j :: 0 <= i < j < |rs| && rs[i].premium == rs[j].premium ==> rs[i].score >= rs[j].score)
  {
    var all := cached + gossip;
    var ps := Penalised(all, now, metrics);
    PenalisedParsed(all, now, metrics);
    SortedRoutes(ps, preferFree);
    hide Penalised, Parsed, RouteOrder, Sort;
    var rs := Sort(ps, RouteOrder(preferFree));
    forall i | 0 <= i < |rs| ensures Parsed(rs[i]) && rs[i].score >= 0.0 {
      assert rs[i] in multiset(ps);
    }
  }

  lemma PenalisedParsed(s: seq<Route>, now: nat, metrics: Option<P.Table>)
    requires forall r :: r in s ==> Parsed(r)
    ensures var ps := Penalised(s, now, metrics); |ps| == |s| && forall r :: r in ps ==> Parsed(r) && r.score >= 0.0
  {
    hide Price, Bonus, Penalty;
    var ps := Penalised(s, now, metrics);
    forall r | r in ps ensures Parsed(r) && r.score >= 0.0 {
      var j :| 0 <= j < |ps| && ps[j] == r;
      assert s[j] in s;
    }
  }

  // ---- is premium worth it? ----

  function Best(s: seq<Route>, premium: bool): real
    decreases |s|
  {
    if s == [] then 0.0 else
    var b, r := Best(s[..|s| - 1], premium), s[|s| - 1];
    if r.premium == premium && r.score > b then r.score else b
  }

  predicate PremiumIsBetter(s: seq<Route>) { Best(s, true) > Best(s, false) * 1.15 && Best(s, true) > 0.0 }

  lemma {:induction false} BestIsLargest(s: seq<Route>, premium: bool)
    ensures Best(s, premium) >= 0.0
    ensures forall i :: 0 <= i < |s| && s[i].premium == premium ==> s[i].score <= Best(s, premium)
    ensures Best(s, premium) == 0.0
            || exists i :: 0 <= i < |s| && s[i].premium == premium && s[i].score == Best(s, premium)
    decreases |s|
  {
    if s != [] {
      var init, r := s[..|s| - 1], s[|s| - 1];
      BestIsLargest(init, premium);
      if Best(s, premium) == Best(init, premium) && Best(s, premium) != 0.0 {
        var i :| 0 <= i < |init| && init[i].premium == premium && init[i].score == Best(init, premium);
        assert s[i].premium == premium && s[i].score == Best(s, premium);
      }
    }
  }

  /** Premium counts as better exactly when some premium route scores above nothing and beats every free route by
      more than fifteen percent. */
  lemma PremiumIsBetterExactly(s: seq<Route>)
    requires forall i :: 0 <= i < |s| ==> s[i].score >= 0.0
    ensures PremiumIsBetter(s) <==> exists i :: 0 <= i < |s| && BeatsFree(s, s[i])
  {
    BestIsLargest(s, true);
    BestIsLargest(s, false);
    forall i | 0 <= i < |s| && BeatsFree(s, s[i]) ensures PremiumIsBetter(s) {
      assert Best(s, true) >= s[i].score;
      if Best(s, false) != 0.0 {
        var k :| 0 <= k < |s| && s[k].premium == false && s[k].score == Best(s, false);
        assert s[i].score > s[k].score * 1.15;
      }
    }
    if PremiumIsBetter(s) {
      var i :| 0 <= i < |s| && s[i].premium == true && s[i].score == Best(s, true);
      assert BeatsFree(s, s[i]);
    }
  }

  ghost predicate BeatsFree(s: seq<Route>, r: Route)
  {
    r.premium && r.score > 0.0 && forall j :: 0 <= j < |s| && !s[j].premium ==> r.score > s[j].score * 1.15
  }
}
