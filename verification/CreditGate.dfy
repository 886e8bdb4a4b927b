/** From a user's account to the transports of a connection. */
module CreditGate {
  import opened Wrappers
  import opened Sums
  import opened Sequences
  import opened CreditLedger
  import CreditRuns
  import P = ProviderMetrics
  import T = Throttle
  import Tr = Transports
  import D = Discovery
  import Plan = RoutePlan
  import StableSort

  /** What the proxy is told of an account. */
  function RuntimeStatus(s: Status): Plan.Credit { Plan.Credit(s.premiumAllowed, s.factor, s.fallsBack) }

  ghost predicate UsesPremium(q: Plan.Request)
  {
    Plan.PlanFor(q).Proxied? && exists t :: t in Plan.PlanFor(q).transports && Tr.IsPremium(t)
  }

  /** A premium transport is planned only for an account that accepted the trial and whose debt is below the
      fallback share of its limit. */
  lemma PremiumNeedsCredit(st: Settings, db: Store, k: string, linked: bool, q: Plan.Request)
    requires Plan.Discovered(q.routes) && UsesPremium(q)
    requires q.credit == RuntimeStatus(CreditRuns.Reported(st, db, k, linked))
    ensures var a := CreditRuns.Reported(st, db, k, linked).account;
            a.trialAccepted && T.Utilization(a.debt, a.limit) < st.policy.fallback
  {
    if !q.credit.premiumAllowed { Plan.NoPremiumWithoutCredit(q); }
  }

  /** Once an account gets no premium, recording more usage never gets it any: not on any target, in any mode, over
      any routes. */
  lemma UsageNeverBuysPremium(st: Settings, db: Store, k: string, linked: bool, bytes: nat, seconds: nat, price: nat,
                              q: Plan.Request)
    requires FiledByAnchor(db) && T.Sensible(st.policy) && 0 <= CreditRuns.Debt(db, k) <= I64_MAX
    requires !CreditRuns.Reported(st, db, k, linked).premiumAllowed
    requires Plan.Discovered(q.routes)
    requires var after := Apply(st, db, Usage(k, linked, bytes, seconds, price));
             q.credit == RuntimeStatus(CreditRuns.Reported(st, after, k, linked))
    ensures !UsesPremium(q)
  {
    CreditRuns.UsageNeverHelps(st, db, k, linked, bytes, seconds, price);
    hide Apply, CreditRuns.Reported, Plan.PlanFor;
    if Plan.PlanFor(q).Proxied? { Plan.NoPremiumWithoutCredit(q); }
  }

  /** What a debt does to the speed of a plan: below the soft threshold nothing is capped, and in fallback every premium
      transport would run at the minimum share of its bandwidth, if premium were not refused altogether. */
  lemma DebtSetsSpeed(st: Settings, db: Store, k: string, linked: bool, premium: bool, bandwidthMbps: Option<nat>)
    requires T.Sensible(st.policy)
    ensures var s := CreditRuns.Reported(st, db, k, linked);
            var owed, limit := Max(s.account.debt, 0) as real, Max(s.account.limit, 1) as real;
            var credit := RuntimeStatus(s);
            && (owed < st.policy.softThrottle * limit ==> T.RateLimit(premium, bandwidthMbps, credit.factor) == None)
            && (credit.fallback <==> owed >= st.policy.fallback * limit)
            && (credit.fallback ==>
                  !credit.premiumAllowed
                  && T.RateLimit(premium, bandwidthMbps, credit.factor)
                     == T.RateLimit(premium, bandwidthMbps, st.policy.minSpeed))
  {
    StatusExactly(st, CreditRuns.Reported(st, db, k, linked).account);
    T.CappedExactly(premium, bandwidthMbps, 1.0);
    hide T.RateLimit, T.Factor, T.Utilization;
  }

  // ---- from offers to the plan ----

  function Read(offers: seq<D.Offer>, parse: D.Offer -> Option<D.Route>): seq<D.Route>
  {
    Flat(offers, (o: D.Offer) => if parse(o).Some? then [parse(o).value] else [])
  }

  /** The routes on offer, from what the exchange listed and what gossip announced. */
  function RoutesFrom(listed: seq<D.Offer>, announced: seq<D.Offer>, now: nat, metrics: Option<P.Table>,
                      preferFree: bool): seq<D.Route>
  {
    D.CurrentRoutes(Read(listed, D.ParseOffer), Read(announced, D.ParseAnnouncement), now, metrics, preferFree)
  }

  lemma ReadParses(offers: seq<D.Offer>, parse: D.Offer -> Option<D.Route>)
    requires forall o :: parse(o).Some? ==> D.Parsed(parse(o).value)
    ensures forall r :: r in Read(offers, parse) ==> D.Parsed(r)
    decreases |offers|
  {
    hide D.Parsed;
    FlatForAll(offers, (o: D.Offer) => if parse(o).Some? then [parse(o).value] else [], D.Parsed);
  }

  lemma RoutesAreDiscovered(listed: seq<D.Offer>, announced: seq<D.Offer>, now: nat, metrics: Option<P.Table>,
                            preferFree: bool)
    ensures Plan.Discovered(RoutesFrom(listed, announced, now, metrics, preferFree))
  {
    forall o ensures D.ParseOffer(o).Some? ==> D.Parsed(D.ParseOffer(o).value) { D.FlagsAgree(o); }
    forall o ensures D.ParseAnnouncement(o).Some? ==> D.Parsed(D.ParseAnnouncement(o).value) { D.FlagsAgree(o); }
    hide D.ParseOffer, D.ParseAnnouncement, D.Parsed, Read;
    ReadParses(listed, D.ParseOffer);
    ReadParses(announced, D.ParseAnnouncement);
    D.CurrentRoutesParsed(Read(listed, D.ParseOffer), Read(announced, D.ParseAnnouncement), now, metrics, preferFree);
  }

  /** From end to end, for any offers listed and announced, any provider records and any credit: a target is proxied
      exactly when the mode asks for it and it is not the relay's own. Its plan then holds exactly the transports that
      fit, the discovered ones of each price class by reputation, bandwidth and risk-adjusted score in that order, the
      configured ones in configuration order, no premium one without credit, and free before premium unless premium
      is allowed, better and not in fallback. */
  lemma PlanFromOffers(listed: seq<D.Offer>, announced: seq<D.Offer>, now: nat, metrics: Option<P.Table>,
                       preferFree: bool, q: Plan.Request)
    ensures var routed := q.(routes := RoutesFrom(listed, announced, now, metrics, preferFree));
            && (Plan.PlanFor(routed).Proxied?
                <==> !q.isRelayInfra && (q.proxyMode == "full" || (q.proxyMode == "telegram" && q.isTelegram)))
            && (Plan.PlanFor(routed).Proxied? ==> WellPlanned(routed, Plan.PlanFor(routed).transports))
  {
    var routed := q.(routes := RoutesFrom(listed, announced, now, metrics, preferFree));
    RoutesAreDiscovered(listed, announced, now, metrics, preferFree);
    Plan.ProxiedExactly(routed);
    hide *;
    if Plan.PlanFor(routed).Proxied? { PlannedWell(routed); }
  }

  /** What the claims about a plan come to. */
  ghost predicate WellPlanned(q: Plan.Request, ts: seq<Tr.Transport>)
  {
    && Filter(ts, Plan.IsDiscoveredFree) == Map(Plan.Ranked(q, false), D.ToTransport)
    && Filter(ts, Tr.IsPremium) == Map(Plan.Ranked(q, true), D.ToTransport)
    && Filter(ts, Plan.IsStaticFree) == Filter(Plan.Statics(q), Plan.Matches(q.isTelegram, q.proxyMode))
    && (forall premium :: StableSort.Ordered(Plan.Ranked(q, premium), Plan.RoutePreferred, Plan.ScoredAtLeast))
    && (forall t :: t in ts <==> Plan.Reaches(q, t))
    && (!q.credit.premiumAllowed ==> forall t :: t in ts ==> !Tr.IsPremium(t))
    && (forall i, j :: 0 <= i < j < |ts| && Tr.IsPremium(ts[i]) != Tr.IsPremium(ts[j]) ==>
          (Tr.IsPremium(ts[i]) <==> q.credit.premiumAllowed && q.better && !q.credit.fallback))
  }

  lemma PlannedWell(q: Plan.Request)
    requires Plan.Discovered(q.routes) && Plan.PlanFor(q).Proxied?
    ensures WellPlanned(q, Plan.PlanFor(q).transports)
  {
    hide Plan.PlanFor, Plan.Ranked, Plan.Statics, Plan.Discovered, Filter, Map;
    forall premium ensures StableSort.Ordered(Plan.Ranked(q, premium), Plan.RoutePreferred, Plan.ScoredAtLeast) {
      Plan.RankedIsLexicographic(q, premium);
    }
    forall t ensures t in Plan.PlanFor(q).transports <==> Plan.Reaches(q, t) { Plan.PlannedExactly(q, t); }
    hide Plan.Reaches;
    Plan.PlanIsLexicographic(q);
    Plan.CreditOrdersThePlan(q);
    if !q.credit.premiumAllowed { Plan.NoPremiumWithoutCredit(q); }
  }
}
