/** From discovered routes and configured transports to the ordered list of transports to try. */
module RoutePlan {
  import opened Wrappers
  import opened Sequences
  import opened StableSort
  import opened Transports
  import opened Discovery

  datatype Credit = Credit(premiumAllowed: bool, factor: real, fallback: bool)

  datatype Plan = Direct | Proxied(transports: seq<Transport>)

  /** Is this route on offer for the connection at all? */
  predicate Offered(r: Route, isTelegram: bool, proxyMode: string, premiumAllowed: bool)
  {
    && (if proxyMode == "telegram" then isTelegram else proxyMode == "full")
    && (!r.premium || premiumAllowed)
  }

  /** The discovered transports of a connection, from the routes in their current order. */
  method GetTransports(routes: seq<Route>, isTelegram: bool, proxyMode: string, premiumAllowed: bool)
    returns (ts: seq<Transport>)
    ensures ts == Dynamic(routes, isTelegram, proxyMode, premiumAllowed)
  {
    if proxyMode == "off" {
      FilterNone(routes, (r: Route) => Kept(r, isTelegram, proxyMode, premiumAllowed));
      return [];
    }
    ts := [];
    for i := 0 to |routes|
      invariant ts == Dynamic(routes[..i], isTelegram, proxyMode, premiumAllowed)
    {
      assert routes[..i + 1] == routes[..i] + [routes[i]];
      FilterSnoc(routes[..i], routes[i], (r: Route) => Kept(r, isTelegram, proxyMode, premiumAllowed));
      if Offered(routes[i], isTelegram, proxyMode, premiumAllowed) && Builds(routes[i]) {
        ts := ts + [ToTransport(routes[i])];
      }
    }
    assert routes[..|routes|] == routes;
  }

  predicate Kept(r: Route, isTelegram: bool, proxyMode: string, premiumAllowed: bool)
  {
    Offered(r, isTelegram, proxyMode, premiumAllowed) && Builds(r)
  }

  function Dynamic(routes: seq<Route>, isTelegram: bool, proxyMode: string, premiumAllowed: bool): seq<Transport>
  {
    Map(Filter(routes, (r: Route) => Kept(r, isTelegram, proxyMode, premiumAllowed)), ToTransport)
  }

  // ---- ordering ----

  predicate IsStaticFree(t: Transport) { !IsPremium(t) && t.source == StaticConfig }

  predicate IsDiscoveredFree(t: Transport) { !IsPremium(t) && t.source != StaticConfig }

  /** `Option`'s order on bandwidths: none is least. */
  predicate AtLeastBandwidth(a: Option<nat>, b: Option<nat>) { b.None? || (a.Some? && a.value >= b.value) }

  /** The higher reputation first, then the higher bandwidth. */
  predicate Preferred(a: Transport, b: Transport)
  {
    a.reputation > b.reputation || (a.reputation == b.reputation && AtLeastBandwidth(a.bandwidth, b.bandwidth))
  }

  function Ordered3(all: seq<Transport>, premiumFirst: bool): seq<Transport>
  {
    var staticFree, discovered, premium :=
      Filter(all, IsStaticFree),
      Sort(Filter(all, IsDiscoveredFree), Preferred),
      Sort(Filter(all, IsPremium), Preferred);
    if premiumFirst then premium + staticFree + discovered else staticFree + discovered + premium
  }

  predicate PremiumFirst(c: Credit, premiumBetter: bool) { c.premiumAllowed && premiumBetter && !c.fallback }

  /** Sort the transports into three groups, order two of them, and join them by credit policy. */
  method OrderCandidates(statics: seq<Transport>, dynamics: seq<Transport>, credit: Credit, premiumBetter: bool)
    returns (ordered: seq<Transport>)
    ensures ordered == Ordered3(statics + dynamics, PremiumFirst(credit, premiumBetter))
  {
    var all := statics + dynamics;
    var staticFree, discoveredFree, premium := [], [], [];
    for i := 0 to |all|
      invariant staticFree == Filter(all[..i], IsStaticFree) && discoveredFree == Filter(all[..i], IsDiscoveredFree)
      invariant premium == Filter(all[..i], IsPremium)
    {
      var t := all[i];
      assert all[..i + 1] == all[..i] + [t];
      FilterSnoc(all[..i], t, IsStaticFree);
      FilterSnoc(all[..i], t, IsDiscoveredFree);
      FilterSnoc(all[..i], t, IsPremium);
      if IsPremium(t) {
        premium := premium + [t];
      } else if t.source == StaticConfig {
        staticFree := staticFree + [t];
      } else {
        discoveredFree := discoveredFree + [t];
      }
    }
    assert all[..|all|] == all;
    discoveredFree := SortByPreference(discoveredFree);
    premium := SortByPreference(premium);
    if credit.premiumAllowed && premiumBetter && !credit.fallback {
      ordered := premium + staticFree + discoveredFree;
    } else {
      ordered := staticFree + discoveredFree + premium;
    }
  }

  method SortByPreference(ts: seq<Transport>) returns (sorted: seq<Transport>)
    ensures sorted == Sort(ts, Preferred)
  {
    hide Sort;
    var a := new Transport[|ts|](i requires 0 <= i < |ts| => ts[i]);
    assert a[..] == ts;
    SortInPlace(a, Preferred);
    return a[..];
  }

  lemma {:induction false} GroupsArePermutation(all: seq<Transport>)
    ensures multiset(Filter(all, IsStaticFree)) + multiset(Filter(all, IsDiscoveredFree))
            + multiset(Filter(all, IsPremium)) == multiset(all)
    decreases |all|
  {
    if all != [] {
      GroupsArePermutation(all[..|all| - 1]);
      assert all == all[..|all| - 1] + [all[|all| - 1]];
    }
  }

  /** Ordering loses no transport and invents none. */
  lemma OrderIsPermutation(all: seq<Transport>, premiumFirst: bool)
    ensures multiset(Ordered3(all, premiumFirst)) == multiset(all)
  {
    GroupsArePermutation(all);
    SortIsPermutation(Filter(all, IsDiscoveredFree), Preferred);
    SortIsPermutation(Filter(all, IsPremium), Preferred);
  }

  lemma SortFilterMembers(all: seq<Transport>, p: Transport -> bool, t: Transport)
    ensures t in Sort(Filter(all, p), Preferred) <==> t in all && p(t)
  {
    SortIsPermutation(Filter(all, p), Preferred);
    FilterMembers(all, p, t);
    assert t in Sort(Filter(all, p), Preferred) <==> t in multiset(Sort(Filter(all, p), Preferred));
    assert t in Filter(all, p) <==> t in multiset(Filter(all, p));
  }

  /** Picking one group out of the ordered list gives that group's own order back. */
  lemma OrderedGroups(all: seq<Transport>, premiumFirst: bool)
    ensures var r := Ordered3(all, premiumFirst);
            && Filter(r, IsStaticFree) == Filter(all, IsStaticFree)
            && Filter(r, IsDiscoveredFree) == Sort(Filter(all, IsDiscoveredFree), Preferred)
            && Filter(r, IsPremium) == Sort(Filter(all, IsPremium), Preferred)
  {
    GroupMembers(all);
    hide Sort, Filter, IsStaticFree, IsDiscoveredFree, IsPremium;
    Picked(Filter(all, IsStaticFree), Sort(Filter(all, IsDiscoveredFree), Preferred),
           Sort(Filter(all, IsPremium), Preferred), premiumFirst);
  }

  lemma GroupMembers(all: seq<Transport>)
    ensures forall t :: t in Filter(all, IsStaticFree) ==> IsStaticFree(t)
    ensures forall t :: t in Sort(Filter(all, IsDiscoveredFree), Preferred) ==> IsDiscoveredFree(t)
    ensures forall t :: t in Sort(Filter(all, IsPremium), Preferred) ==> IsPremium(t)
  {
    hide Sort, Filter, IsStaticFree, IsDiscoveredFree, IsPremium;
    forall t ensures t in Filter(all, IsStaticFree) ==> IsStaticFree(t) { FilterMembers(all, IsStaticFree, t); }
    forall t ensures t in Sort(Filter(all, IsDiscoveredFree), Preferred) ==> IsDiscoveredFree(t) {
      SortFilterMembers(all, IsDiscoveredFree, t);
    }
    forall t ensures t in Sort(Filter(all, IsPremium), Preferred) ==> IsPremium(t) {
      SortFilterMembers(all, IsPremium, t);
    }
  }

  lemma Picked(a: seq<Transport>, b: seq<Transport>, c: seq<Transport>, premiumFirst: bool)
    requires forall t :: t in a ==> IsStaticFree(t)
    requires forall t :: t in b ==> IsDiscoveredFree(t)
    requires forall t :: t in c ==> IsPremium(t)
    ensures var r := if premiumFirst then c + a + b else a + b + c;
            Filter(r, IsStaticFree) == a && Filter(r, IsDiscoveredFree) == b && Filter(r, IsPremium) == c
  {
    assert forall i :: 0 <= i < |a| ==> a[i] in a;
    assert forall i :: 0 <= i < |b| ==> b[i] in b;
    assert forall i :: 0 <= i < |c| ==> c[i] in c;
    PickOne(a, b, c, IsStaticFree, premiumFirst, 0);
    PickOne(a, b, c, IsDiscoveredFree, premiumFirst, 1);
    PickOne(a, b, c, IsPremium, premiumFirst, 2);
  }

  /** Exactly one of three groups passes the test, and all of it. */
  lemma PickOne(a: seq<Transport>, b: seq<Transport>, c: seq<Transport>, p: Transport -> bool, premiumFirst: bool,
                which: nat)
    requires which < 3
    requires forall i :: 0 <= i < |a| ==> p(a[i]) == (which == 0)
    requires forall i :: 0 <= i < |b| ==> p(b[i]) == (which == 1)
    requires forall i :: 0 <= i < |c| ==> p(c[i]) == (which == 2)
    ensures Filter(if premiumFirst then c + a + b else a + b + c, p)
         == if which == 0 then a else if which == 1 then b else c
  {
    hide Filter;
    PickGroup(a, b, c, p, premiumFirst);
    FilterUniform(a, p, which == 0);
    FilterUniform(b, p, which == 1);
    FilterUniform(c, p, which == 2);
    Alone(a);
    Alone(b);
    Alone(c);
  }

  lemma Alone(x: seq<Transport>)
    ensures x + [] + [] == x && [] + x + [] == x && [] + [] + x == x
  {
  }

  lemma FilterUniform(s: seq<Transport>, p: Transport -> bool, keep: bool)
    requires forall i :: 0 <= i < |s| ==> p(s[i]) == keep
    ensures Filter(s, p) == if keep then s else []
  {
    if keep { FilterAll(s, p); } else { FilterNone(s, p); }
  }

  lemma PickGroup(a: seq<Transport>, b: seq<Transport>, c: seq<Transport>, p: Transport -> bool, premiumFirst: bool)
    ensures Filter(if premiumFirst then c + a + b else a + b + c, p)
         == if premiumFirst then Filter(c, p) + Filter(a, p) + Filter(b, p)
            else Filter(a, p) + Filter(b, p) + Filter(c, p)
  {
    FilterAppend(c, a, p);
    FilterAppend(c + a, b, p);
    FilterAppend(a, b, p);
    FilterAppend(a + b, c, p);
  }

  // ---- the plan ----

  function Matches(isTelegram: bool, proxyMode: string): Transport -> bool
  {
    (t: Transport) => ModeMatches(t, isTelegram, proxyMode)
  }

  function SelectPlan(isTelegram: bool, isRelayInfra: bool, proxyMode: string, ts: seq<Transport>): Plan
  {
    if isRelayInfra || proxyMode == "off" then Direct else
    var matches := Filter(ts, Matches(isTelegram, proxyMode));
    if proxyMode == "telegram" then (if isTelegram then Proxied(matches) else Direct)
    else if proxyMode == "full" then Proxied(matches)
    else Direct
  }

  /** What a connection is planned from. `better` is whether premium was judged materially better, in a reading of
      the routes of its own. */
  datatype Request = Request(configs: seq<Config>, routes: seq<Route>, credit: Credit, better: bool,
                             isTelegram: bool, isRelayInfra: bool, proxyMode: string)

  /** The routes are as discovery leaves them: consistently flagged, and within each price class by score. */
  ghost predicate Discovered(routes: seq<Route>)
  {
    && (forall i :: 0 <= i < |routes| ==> Parsed(routes[i]))
    && (forall i, j :: 0 <= i < j < |routes| && routes[i].premium == routes[j].premium
         ==> routes[i].score >= routes[j].score)
  }

  function Statics(q: Request): seq<Transport> { Map(q.configs, Static) }

  function Candidates(q: Request): seq<Transport>
  {
    Ordered3(Statics(q) + Dynamic(q.routes, q.isTelegram, q.proxyMode, q.credit.premiumAllowed),
             PremiumFirst(q.credit, q.credit.premiumAllowed && q.better))
  }

  function PlanFor(q: Request): Plan { SelectPlan(q.isTelegram, q.isRelayInfra, q.proxyMode, Candidates(q)) }

  /** Plan one connection, as the connection handler does. */
  method PlanConnection(q: Request) returns (plan: Plan)
    requires forall c :: c in q.configs ==> Buildable(c)
    ensures plan == PlanFor(q)
  {
    hide Ordered3, Dynamic;
    var statics := BuildTransports(q.configs);
    assert statics.value == Statics(q);
    var dynamics := GetTransports(q.routes, q.isTelegram, q.proxyMode, q.credit.premiumAllowed);
    var better := q.credit.premiumAllowed && q.better;
    var ordered := OrderCandidates(statics.value, dynamics, q.credit, better);
    return SelectPlan(q.isTelegram, q.isRelayInfra, q.proxyMode, ordered);
  }

  lemma DynamicMember(q: Request, t: Transport)
    requires t in Dynamic(q.routes, q.isTelegram, q.proxyMode, q.credit.premiumAllowed)
    ensures exists r ::
              r in q.routes && t == ToTransport(r) && Kept(r, q.isTelegram, q.proxyMode, q.credit.premiumAllowed)
  {
    var keep := (r: Route) => Kept(r, q.isTelegram, q.proxyMode, q.credit.premiumAllowed);
    var rs := Filter(q.routes, keep);
    var i :| 0 <= i < |rs| && Map(rs, ToTransport)[i] == t;
    FilterMembers(q.routes, keep, rs[i]);
    assert rs[i] in q.routes;
  }

  /** A planned transport is a configured one or a discovered one, so it is an agent's or it is free. */
  lemma PlannedFrom(q: Request, t: Transport)
    requires PlanFor(q).Proxied? && t in PlanFor(q).transports
    ensures t.agent.Some? || t.price == 0
  {
    PlanIsFiltered(q);
    var dynamics := Dynamic(q.routes, q.isTelegram, q.proxyMode, q.credit.premiumAllowed);
    var all := Statics(q) + dynamics;
    OrderIsPermutation(all, PremiumFirst(q.credit, q.credit.premiumAllowed && q.better));
    hide PlanFor, Ordered3, Dynamic, Filter;
    FilterMembers(Candidates(q), Matches(q.isTelegram, q.proxyMode), t);
    assert t in multiset(Candidates(q));
    assert t in all;
    if t in dynamics {
      DynamicMember(q, t);
    } else {
      var i :| 0 <= i < |q.configs| && Statics(q)[i] == t;
    }
  }

  lemma CandidateOrigin(q: Request, t: Transport)
    requires Discovered(q.routes) && t in Candidates(q)
    ensures IsPremium(t) ==> q.credit.premiumAllowed
    ensures t.source != StaticConfig ==> t.mode == All
  {
    var dynamics := Dynamic(q.routes, q.isTelegram, q.proxyMode, q.credit.premiumAllowed);
    var all := Statics(q) + dynamics;
    OrderIsPermutation(all, PremiumFirst(q.credit, q.credit.premiumAllowed && q.better));
    hide Ordered3, Dynamic;
    assert t in multiset(Candidates(q));
    assert t in all;
    if t in dynamics {
      DynamicMember(q, t);
      var r :| r in q.routes && t == ToTransport(r) && Kept(r, q.isTelegram, q.proxyMode, q.credit.premiumAllowed);
      var i :| 0 <= i < |q.routes| && q.routes[i] == r;
      assert Parsed(q.routes[i]);
    } else {
      var i :| 0 <= i < |q.configs| && Statics(q)[i] == t;
    }
  }

  /** Without credit no premium transport is ever planned, whatever was discovered and however it was flagged. */
  lemma NoPremiumWithoutCredit(q: Request)
    requires Discovered(q.routes) && !q.credit.premiumAllowed && PlanFor(q).Proxied?
    ensures forall t :: t in PlanFor(q).transports ==> !IsPremium(t)
  {
    PlanIsFiltered(q);
    hide PlanFor, Candidates, Filter;
    forall t | t in PlanFor(q).transports ensures !IsPremium(t) {
      FilterMembers(Candidates(q), Matches(q.isTelegram, q.proxyMode), t);
      CandidateOrigin(q, t);
    }
  }

  // ---- when a plan is proxied, and what reaches it ----

  /** A target is reached through transports exactly when it is not the relay's own and the mode asks for it: in full
      mode every target, in Telegram mode Telegram's. */
  lemma ProxiedExactly(q: Request)
    ensures PlanFor(q).Proxied?
            <==> !q.isRelayInfra && (q.proxyMode == "full" || (q.proxyMode == "telegram" && q.isTelegram))
  {
    hide Candidates, Filter;
  }

  /** A configured transport fits a target if it is for all of them or the target is Telegram's; a discovered one if its
      endpoint can be used and it is free, or premium is allowed. */
  ghost predicate Reaches(q: Request, t: Transport)
  {
    || (exists c :: c in q.configs && t == Static(c) && (q.isTelegram || c.mode == All))
    || (exists r :: r in q.routes && t == ToTransport(r) && Usable(q, r))
  }

  predicate Usable(q: Request, r: Route)
  {
    (!r.premium || q.credit.premiumAllowed) && (r.kind == Wss || r.offer.vlessValid)
  }

  /** A proxied plan holds exactly the transports that fit. */
  lemma PlannedExactly(q: Request, t: Transport)
    requires PlanFor(q).Proxied?
    ensures t in PlanFor(q).transports <==> Reaches(q, t)
  {
    PlanIsFiltered(q);
    var dynamics := Dynamic(q.routes, q.isTelegram, q.proxyMode, q.credit.premiumAllowed);
    var all := Statics(q) + dynamics;
    OrderIsPermutation(all, PremiumFirst(q.credit, q.credit.premiumAllowed && q.better));
    assert t in Candidates(q) <==> t in multiset(Candidates(q));
    assert t in all <==> t in multiset(all);
    hide PlanFor, Ordered3, Dynamic, Filter, Candidates;
    FilterMembers(Candidates(q), Matches(q.isTelegram, q.proxyMode), t);
    StaticReaches(q, t);
    DynamicReaches(q, t);
    hide Reaches, Usable, Static, ToTransport;
  }

  lemma StaticReaches(q: Request, t: Transport)
    requires q.proxyMode == "full" || (q.proxyMode == "telegram" && q.isTelegram)
    ensures t in Statics(q) && ModeMatches(t, q.isTelegram, q.proxyMode)
            <==> exists c :: c in q.configs && t == Static(c) && (q.isTelegram || c.mode == All)
  {
    if t in Statics(q) && ModeMatches(t, q.isTelegram, q.proxyMode) {
      var i :| 0 <= i < |q.configs| && Statics(q)[i] == t;
      assert q.configs[i] in q.configs;
    }
    forall c | c in q.configs && t == Static(c) ensures t in Statics(q) {
      var i :| 0 <= i < |q.configs| && q.configs[i] == c;
      assert Statics(q)[i] == t;
    }
  }

  lemma DynamicReaches(q: Request, t: Transport)
    requires q.proxyMode == "full" || (q.proxyMode == "telegram" && q.isTelegram)
    ensures t in Dynamic(q.routes, q.isTelegram, q.proxyMode, q.credit.premiumAllowed)
              && ModeMatches(t, q.isTelegram, q.proxyMode)
            <==> exists r :: r in q.routes && t == ToTransport(r) && Usable(q, r)
  {
    var keep := (r: Route) => Kept(r, q.isTelegram, q.proxyMode, q.credit.premiumAllowed);
    var rs := Filter(q.routes, keep);
    if t in Dynamic(q.routes, q.isTelegram, q.proxyMode, q.credit.premiumAllowed) {
      DynamicMember(q, t);
    }
    forall r | r in q.routes && t == ToTransport(r) && Usable(q, r) ensures t in Map(rs, ToTransport) {
      FilterMembers(q.routes, keep, r);
      var i :| 0 <= i < |rs| && rs[i] == r;
      assert Map(rs, ToTransport)[i] == t;
    }
  }

  /** And each price class of the plan is made of the usable routes of that class, as often as they are offered. */
  lemma RankedExactly(q: Request, premium: bool)
    requires PlanFor(q).Proxied?
    ensures multiset(Ranked(q, premium))
         == multiset(Filter(q.routes, (r: Route) => r.premium == premium && Usable(q, r)))
  {
    PlanIsFiltered(q);
    hide PlanFor, Filter;
    SortIsPermutation(ClassOf(q, premium), RoutePreferred);
    SameFilter(q.routes,
               (r: Route) => r.premium == premium && Kept(r, q.isTelegram, q.proxyMode, q.credit.premiumAllowed),
               (r: Route) => r.premium == premium && Usable(q, r));
  }

  /** The order of a price class, spelled out: the higher reputation first, of equals the higher bandwidth, and of
      equals again the higher score. */
  lemma RankedInOrder(q: Request, premium: bool, i: nat, j: nat)
    requires Discovered(q.routes) && i < j < |Ranked(q, premium)|
    ensures var a, b := Ranked(q, premium)[i], Ranked(q, premium)[j];
            || a.reputation > b.reputation
            || (a.reputation == b.reputation && a.offer.bandwidth > b.offer.bandwidth)
            || (a.reputation == b.reputation && a.offer.bandwidth == b.offer.bandwidth && a.score >= b.score)
  {
    RankedIsLexicographic(q, premium);
    hide Ranked;
  }

  lemma GroupOrder(all: seq<Transport>, premiumFirst: bool, p: Transport -> bool)
    ensures var r := Filter(Ordered3(all, premiumFirst), p);
            forall i, j :: 0 <= i < j < |r| ==> (IsPremium(r[i]) == IsPremium(r[j]) || IsPremium(r[i]) == premiumFirst)
  {
    var a := Filter(all, IsStaticFree);
    var b, c := Sort(Filter(all, IsDiscoveredFree), Preferred), Sort(Filter(all, IsPremium), Preferred);
    forall t ensures (t in a ==> !IsPremium(t)) && (t in b ==> !IsPremium(t)) && (t in c ==> IsPremium(t)) {
      FilterMembers(all, IsStaticFree, t);
      SortFilterMembers(all, IsDiscoveredFree, t);
      SortFilterMembers(all, IsPremium, t);
    }
    hide Sort, Filter;
    var o := Ordered3(all, premiumFirst);
    var free := a + b;
    assert o == if premiumFirst then c + free else free + c;
    assert forall i :: 0 <= i < |free| ==> free[i] in a || free[i] in b;
    FilterKeepsOrder(o, p, (x: Transport, y: Transport) =>
      IsPremium(x) == IsPremium(y) || IsPremium(x) == premiumFirst);
  }

  /** Free before premium, unless premium is allowed, better and not in fallback, and then premium before free. */
  lemma CreditOrdersThePlan(q: Request)
    requires PlanFor(q).Proxied?
    ensures var ts := PlanFor(q).transports;
            var first := q.credit.premiumAllowed && q.better && !q.credit.fallback;
            forall i, j :: 0 <= i < j < |ts| && IsPremium(ts[i]) != IsPremium(ts[j]) ==> (IsPremium(ts[i]) <==> first)
  {
    PlanIsFiltered(q);
    hide PlanFor, Ordered3, Dynamic, Filter;
    var matches := Matches(q.isTelegram, q.proxyMode);
    GroupOrder(Statics(q) + Dynamic(q.routes, q.isTelegram, q.proxyMode, q.credit.premiumAllowed),
               PremiumFirst(q.credit, q.credit.premiumAllowed && q.better), matches);
  }

  lemma PlanIsFiltered(q: Request)
    requires PlanFor(q).Proxied?
    ensures PlanFor(q).transports == Filter(Candidates(q), Matches(q.isTelegram, q.proxyMode))
    ensures q.proxyMode == "full" || (q.proxyMode == "telegram" && q.isTelegram)
  {
    hide Filter, Candidates;
  }

  // ---- two stable sorts are one lexicographic order ----

  predicate RoutePreferred(a: Route, b: Route) { Preferred(ToTransport(a), ToTransport(b)) }

  predicate ScoredAtLeast(a: Route, b: Route) { a.score >= b.score }

  lemma PreferenceIsPreorder()
    ensures TotalPreorder(RoutePreferred)
  {
  }

  /** The kept routes of one price class, in the order discovery gave them. */
  function ClassOf(q: Request, premium: bool): seq<Route>
  {
    Filter(q.routes, (r: Route) => r.premium == premium && Kept(r, q.isTelegram, q.proxyMode, q.credit.premiumAllowed))
  }

  /** One price class as it is finally tried: sorted by reputation and bandwidth on top of the score order. */
  function Ranked(q: Request, premium: bool): seq<Route> { Sort(ClassOf(q, premium), RoutePreferred) }

  /** Reputation decides, then bandwidth, then the route score. */
  lemma RankedIsLexicographic(q: Request, premium: bool)
    requires Discovered(q.routes)
    ensures Ordered(Ranked(q, premium), RoutePreferred, ScoredAtLeast)
    ensures multiset(Ranked(q, premium)) == multiset(ClassOf(q, premium))
  {
    hide Sort, Filter, Kept;
    var p := (r: Route) => r.premium == premium && Kept(r, q.isTelegram, q.proxyMode, q.credit.premiumAllowed);
    FilterKeepsOrder(q.routes, p, ScoredAtLeast);
    assert ClassOf(q, premium) == Filter(q.routes, p);
    var cls := ClassOf(q, premium);
    forall i, j | 0 <= i < j < |cls| ensures ScoredAtLeast(cls[i], cls[j]) {
      assert ScoredAtLeast(Filter(q.routes, p)[i], Filter(q.routes, p)[j]);
    }
    PreferenceIsPreorder();
    hide RoutePreferred, ScoredAtLeast;
    SortIsLexicographic(ClassOf(q, premium), RoutePreferred, ScoredAtLeast);
    SortIsPermutation(ClassOf(q, premium), RoutePreferred);
  }

  /** One price class of the dynamic transports comes from that class of the kept routes. */
  lemma DynamicClass(q: Request, premium: bool, p: Transport -> bool)
    requires Discovered(q.routes)
    requires forall t :: p(t) <==> (if premium then IsPremium(t) else IsDiscoveredFree(t))
    ensures Filter(Dynamic(q.routes, q.isTelegram, q.proxyMode, q.credit.premiumAllowed), p)
            == Map(ClassOf(q, premium), ToTransport)
  {
    var keep := (r: Route) => Kept(r, q.isTelegram, q.proxyMode, q.credit.premiumAllowed);
    var cls := (r: Route) => r.premium == premium;
    var kept := Filter(q.routes, keep);
    forall i | 0 <= i < |kept| ensures cls(kept[i]) <==> p(ToTransport(kept[i])) {
      FilterMembers(q.routes, keep, kept[i]);
      assert kept[i] in q.routes;
      var j :| 0 <= j < |q.routes| && q.routes[j] == kept[i];
      assert Parsed(q.routes[j]);
    }
    hide Filter, Kept;
    FilterMap(kept, ToTransport, p, cls);
    FilterFilter(q.routes, keep, cls, (r: Route) =>
      r.premium == premium && Kept(r, q.isTelegram, q.proxyMode, q.credit.premiumAllowed));
  }

  lemma StaticClass(q: Request)
    ensures Filter(Statics(q), IsStaticFree) == Statics(q)
    ensures Filter(Statics(q), IsDiscoveredFree) == [] && Filter(Statics(q), IsPremium) == []
  {
    FilterAll(Statics(q), IsStaticFree);
    FilterNone(Statics(q), IsDiscoveredFree);
    FilterNone(Statics(q), IsPremium);
  }

  /** What is tried, group by group: configured transports in configuration order, discovered ones ranked. */
  lemma CandidateGroups(q: Request)
    requires Discovered(q.routes)
    ensures Filter(Candidates(q), IsStaticFree) == Statics(q)
    ensures Filter(Candidates(q), IsDiscoveredFree) == Map(Ranked(q, false), ToTransport)
    ensures Filter(Candidates(q), IsPremium) == Map(Ranked(q, true), ToTransport)
  {
    var dynamics := Dynamic(q.routes, q.isTelegram, q.proxyMode, q.credit.premiumAllowed);
    var all := Statics(q) + dynamics;
    OrderedGroups(all, PremiumFirst(q.credit, q.credit.premiumAllowed && q.better));
    StaticClass(q);
    NoStaticDynamics(q);
    DynamicClass(q, false, IsDiscoveredFree);
    DynamicClass(q, true, IsPremium);
    hide Ordered3, Dynamic, ClassOf, Filter, Sort, Preferred, PremiumFirst;
    FilterAppend(Statics(q), dynamics, IsStaticFree);
    FilterAppend(Statics(q), dynamics, IsDiscoveredFree);
    FilterAppend(Statics(q), dynamics, IsPremium);
    SortMap(ClassOf(q, false), ToTransport, RoutePreferred, Preferred);
    SortMap(ClassOf(q, true), ToTransport, RoutePreferred, Preferred);
    assert Statics(q) + [] == Statics(q);
    assert [] + Map(ClassOf(q, false), ToTransport) == Map(ClassOf(q, false), ToTransport);
    assert [] + Map(ClassOf(q, true), ToTransport) == Map(ClassOf(q, true), ToTransport);
  }

  lemma NoStaticDynamics(q: Request)
    requires Discovered(q.routes)
    ensures Filter(Dynamic(q.routes, q.isTelegram, q.proxyMode, q.credit.premiumAllowed), IsStaticFree) == []
  {
    var dynamics := Dynamic(q.routes, q.isTelegram, q.proxyMode, q.credit.premiumAllowed);
    hide Dynamic;
    forall i | 0 <= i < |dynamics| ensures !IsStaticFree(dynamics[i]) {
      DynamicMember(q, dynamics[i]);
      var r :| r in q.routes && dynamics[i] == ToTransport(r);
      var j :| 0 <= j < |q.routes| && q.routes[j] == r;
      assert Parsed(q.routes[j]);
    }
    FilterNone(dynamics, IsStaticFree);
  }

  /** In any proxied plan: the discovered free transports come from the free routes in lexicographic order of
      reputation, bandwidth and score, the premium ones likewise, and the configured ones are those that match the
      target in configuration order. */
  lemma PlanIsLexicographic(q: Request)
    requires Discovered(q.routes) && PlanFor(q).Proxied?
    ensures var ts := PlanFor(q).transports;
            && Filter(ts, IsDiscoveredFree) == Map(Ranked(q, false), ToTransport)
            && Filter(ts, IsPremium) == Map(Ranked(q, true), ToTransport)
            && Filter(ts, IsStaticFree) == Filter(Statics(q), Matches(q.isTelegram, q.proxyMode))
    ensures Ordered(Ranked(q, false), RoutePreferred, ScoredAtLeast)
            && Ordered(Ranked(q, true), RoutePreferred, ScoredAtLeast)
  {
    RankedIsLexicographic(q, false);
    RankedIsLexicographic(q, true);
    CandidateGroups(q);
    var matches := Matches(q.isTelegram, q.proxyMode);
    PlanIsFiltered(q);
    hide PlanFor, Candidates, Ranked, Filter;
    SwapFilters(q, IsDiscoveredFree, matches);
    SwapFilters(q, IsPremium, matches);
    SwapFilters(q, IsStaticFree, matches);
    AllRankedMatch(q, false, matches);
    AllRankedMatch(q, true, matches);
  }

  lemma SwapFilters(q: Request, p: Transport -> bool, matches: Transport -> bool)
    ensures Filter(Filter(Candidates(q), matches), p) == Filter(Filter(Candidates(q), p), matches)
  {
    var both := (t: Transport) => p(t) && matches(t);
    FilterFilter(Candidates(q), matches, p, both);
    FilterFilter(Candidates(q), p, matches, both);
  }

  lemma AllRankedMatch(q: Request, premium: bool, matches: Transport -> bool)
    requires PlanFor(q).Proxied? && forall t :: matches(t) <==> ModeMatches(t, q.isTelegram, q.proxyMode)
    ensures Filter(Map(Ranked(q, premium), ToTransport), matches) == Map(Ranked(q, premium), ToTransport)
  {
    PlanIsFiltered(q);
    hide Ranked;
    FilterAll(Map(Ranked(q, premium), ToTransport), matches);
  }
}
