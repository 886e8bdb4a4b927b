/** The consumer's debt against the providers' earnings: the one rounds up, the other down. */
module Settlement {
  import opened Wrappers
  import opened Sums
  import opened Transports
  import Credit = CreditLedger
  import F = Failover
  import M = MobileCredit
  import P = ProviderMetrics
  import Plan = RoutePlan
  import R = Registry

  /** One request the proxy serves: its plan, how its dials and its copying go, and whether the client is there. */
  datatype Visit = Visit(plan: Plan.Plan, direct: F.Attempt, attempts: seq<F.Attempt>, clientOk: bool, now: nat)

  type AccountEvent = e: M.Event | !e.Use? witness M.Logout

  /** What happens to the two ledgers: requests are served, and users come and go. */
  datatype Happening = Served(visit: Visit) | Account(event: AccountEvent)

  predicate Answered(h: Happening)
  {
    h.Served? && h.visit.plan.Proxied? ==> |h.visit.attempts| == |h.visit.plan.transports|
  }

  /** A visit's plan is one the proxy makes, of some request. */
  ghost predicate Planned(h: Happening) { h.Served? ==> exists q :: h.visit.plan == Plan.PlanFor(q) }

  /** The transport that carried a visit, if any did. */
  function Carrier(v: Visit): (k: Option<nat>)
    ensures k.Some? ==> v.plan.Proxied? && k.value < |v.plan.transports| && k.value < |v.attempts|
                        && v.attempts[k.value].Connected?
  {
    var k := F.FirstConnected(v.attempts);
    if v.plan.Proxied? && v.clientOk && k < |v.plan.transports| && k < |v.attempts| then Some(k) else None
  }

  /** What the credit controller is told of a visit. */
  function Billing(v: Visit): seq<M.Event>
  {
    match Carrier(v)
    case None => []
    case Some(k) => [M.Use(F.Billed(v.attempts[k]), v.attempts[k].seconds.Floor, v.plan.transports[k].price)]
  }

  /** What a visit leaves with the providers' ledger: failures of the transports passed over, and one success. */
  function Metered(t: P.Table, v: Visit): P.Table
  {
    if v.plan.Direct? then t else
    var ts, k := v.plan.transports, F.FirstConnected(v.attempts);
    var failed := F.FailedAll(t, if k < |ts| then ts[..k] else ts, v.now);
    if Carrier(v).Some? then F.SucceededOn(failed, ts[k], v.attempts[k], v.now) else failed
  }

  datatype Books = Books(mobile: M.Mobile, metrics: P.Table)

  function Events(h: Happening): seq<M.Event> { match h case Served(v) => Billing(v) case Account(e) => [e] }

  function Step(st: Credit.Settings, w: M.Anchors, b: Books, h: Happening): Books
  {
    Books(if Events(h) == [] then b.mobile else M.Step(st, w, b.mobile, Events(h)[0]),
          if h.Served? then Metered(b.metrics, h.visit) else b.metrics)
  }

  function Run(st: Credit.Settings, w: M.Anchors, hs: seq<Happening>): Books
    decreases |hs|
  {
    if hs == [] then Books(M.START, map[]) else Step(st, w, Run(st, w, hs[..|hs| - 1]), hs[|hs| - 1])
  }

  /** The two ledgers of the program, kept by serving the requests one after another. */
  method KeepBooks(st: Credit.Settings, w: M.Anchors, hs: seq<Happening>)
    returns (c: M.Controller, metrics: P.MetricsLedger)
    requires forall i :: 0 <= i < |hs| ==> Answered(hs[i])
    ensures Books(c.Abstract(), metrics.table) == Run(st, w, hs)
  {
    c := new M.Controller(st, w);
    metrics := new P.MetricsLedger();
    assert c.ledger.db == c.Abstract().db == map[];
    hide *;
    Opening(st, w, hs);
    for i := 0 to |hs|
      invariant fresh(c) && fresh(c.ledger) && fresh(metrics) && c.ledger.settings == st && c.anchors == w
      invariant Books(c.Abstract(), metrics.table) == Run(st, w, hs[..i])
      invariant metrics.Valid() && Credit.FiledByAnchor(c.ledger.db)
    {
      assert Answered(hs[i]);
      Continued(st, w, hs, i);
      match hs[i] {
        case Served(v) => ServeAndBill(c, metrics, v);
        case Account(e) => c.Handle(e);
      }
    }
    assert hs[..|hs|] == hs;
  }

  /** Serve one request and hand its bill to the credit controller. */
  method ServeAndBill(c: M.Controller, metrics: P.MetricsLedger, v: Visit)
    requires Answered(Served(v)) && metrics.Valid() && Credit.FiledByAnchor(c.ledger.db)
    modifies c, c.ledger, metrics
    ensures Books(c.Abstract(), metrics.table)
         == Step(c.ledger.settings, c.anchors, Books(old(c.Abstract()), old(metrics.table)), Served(v))
    ensures metrics.Valid() && Credit.FiledByAnchor(c.ledger.db)
  {
    NotesAreMetered(metrics.table, v);
    P.RecordAllAppend(map[], metrics.history, F.Notes(v.plan, v.attempts, v.clientOk, v.now));
    hide F.Notes, M.Step, F.Billed, F.Within, F.Did, R.Run, R.Legal, Metered, P.RecordAll, Credit.FiledByAnchor;
    var reg := new R.ConnectionRegistry();
    var id, log := F.HandleConnect(false, reg, metrics, "", false, v.plan, v.direct, v.attempts, v.clientOk, v.now);
    match log.billed {
      case Some((t, bytes)) =>
        var k := Carrier(v).value;
        c.RecordUsage(bytes, v.attempts[k].seconds.Floor, t.price);
      case None =>
    }
  }

  lemma Opening(st: Credit.Settings, w: M.Anchors, hs: seq<Happening>)
    ensures Run(st, w, hs[..0]) == Books(M.START, map[]) && M.START.db == map[]
    ensures Credit.FiledByAnchor(map[])
  {
  }

  lemma Continued(st: Credit.Settings, w: M.Anchors, hs: seq<Happening>, i: nat)
    requires i < |hs|
    ensures Run(st, w, hs[..i + 1]) == Step(st, w, Run(st, w, hs[..i]), hs[i])
    ensures hs[i].Account? ==> var b := Run(st, w, hs[..i]);
              Step(st, w, b, hs[i]) == Books(M.Step(st, w, b.mobile, hs[i].event), b.metrics)
  {
    assert hs[..i + 1][..i] == hs[..i];
  }

  lemma NotesAreMetered(t: P.Table, v: Visit)
    requires Answered(Served(v))
    ensures P.RecordAll(t, F.Notes(v.plan, v.attempts, v.clientOk, v.now)) == Metered(t, v)
  {
    if v.plan.Proxied? {
      var ts, k := v.plan.transports, F.FirstConnected(v.attempts);
      assert k == |ts| ==> ts[..k] == ts;
      var failures := F.FailuresOf(ts[..k], v.now);
      F.FailuresAreFailed(t, ts[..k], v.now);
      hide F.FailuresOf, F.FailedAll, F.Billed, P.Record;
      if k < |ts| && v.clientOk && ts[k].agent.Some? {
        var success := F.SuccessOf(ts[k], v.attempts[k], v.now);
        P.RecordAllAppend(t, failures, success);
        assert success[..0] == [];
      } else {
        assert failures + [] == failures;
      }
    }
  }

  // ---- what was charged, and what was earned ----

  function Charges(hs: seq<Happening>): nat
    decreases |hs|
  {
    if hs == [] then 0 else Charges(hs[..|hs| - 1]) + M.Recorded(M.DebtOwed, Events(hs[|hs| - 1]))
  }

  function EarnedBy(v: Visit): nat
  {
    match Carrier(v)
    case None => 0
    case Some(k) =>
      var t := v.plan.transports[k];
      if t.agent.Some? then P.Earnings(F.Billed(v.attempts[k]), t.price) else 0
  }

  function Earned(hs: seq<Happening>): nat
    decreases |hs|
  {
    if hs == [] then 0 else
    var h := hs[|hs| - 1];
    Earned(hs[..|hs| - 1]) + (if h.Served? then EarnedBy(h.visit) else 0)
  }

  predicate IsPriced(h: Happening)
  {
    h.Served? && Carrier(h.visit).Some? && h.visit.plan.transports[Carrier(h.visit).value].price > 0
  }

  /** The number of visits that a priced transport carried. */
  function Priced(hs: seq<Happening>): nat
    decreases |hs|
  {
    if hs == [] then 0 else Priced(hs[..|hs| - 1]) + (if IsPriced(hs[|hs| - 1]) then 1 else 0)
  }

  /** A charge and the earnings of the same bytes at the same price differ by at most one micro-USDC. */
  lemma ChargeCoversEarnings(bytes: nat, price: nat)
    requires price > 0
    ensures P.Earnings(bytes, price) <= Credit.ChargeFor(bytes, price) <= P.Earnings(bytes, price) + 1
  {
  }

  /** Every planned transport with a price belongs to an agent. */
  lemma PricedHasAgent(q: Plan.Request, t: Transport)
    requires Plan.PlanFor(q).Proxied? && t in Plan.PlanFor(q).transports && t.price > 0
    ensures t.agent.Some?
  {
    Plan.PlannedFrom(q, t);
  }

  lemma VisitCharges(h: Happening)
    requires Planned(h)
    ensures var charge, earned := M.Recorded(M.DebtOwed, Events(h)), if h.Served? then EarnedBy(h.visit) else 0;
            earned <= charge <= earned + if IsPriced(h) then 1 else 0
  {
    match h
    case Account(e) => assert [e][..0] == [];
    case Served(v) =>
      match Carrier(v) {
        case None =>
        case Some(k) =>
          var t, bytes := v.plan.transports[k], F.Billed(v.attempts[k]);
          hide F.Billed, P.Earnings, Credit.ChargeFor, Carrier;
          var q :| v.plan == Plan.PlanFor(q);
          hide Plan.PlanFor;
          if t.price > 0 {
            PricedHasAgent(q, t);
            ChargeCoversEarnings(bytes, t.price);
          } else {
            NoEarnings(bytes);
          }
          var use := M.Use(bytes, v.attempts[k].seconds.Floor, t.price);
          assert [use][..0] == [];
          assert M.Recorded(M.DebtOwed, [use]) == M.Recorded1(M.DebtOwed, use);
      }
  }

  lemma NoEarnings(bytes: nat)
    ensures P.Earnings(bytes, 0) == 0
  {
  }

  lemma {:induction false} ChargesCoverEarned(hs: seq<Happening>)
    requires forall i :: 0 <= i < |hs| ==> Planned(hs[i])
    ensures Earned(hs) <= Charges(hs) <= Earned(hs) + Priced(hs)
    decreases |hs|
  {
    if hs != [] {
      ChargesCoverEarned(hs[..|hs| - 1]);
      VisitCharges(hs[|hs| - 1]);
      hide Planned, IsPriced, EarnedBy, Events;
    }
  }

  // ---- the providers' ledger ----

  ghost function TotalEstimated(t: P.Table): int { Total(t, (m: P.Metrics) => m.estimated) }

  ghost predicate NothingNegative(t: P.Table) { forall a :: a in t ==> t[a].estimated >= 0 }

  /** One record of an agent moves the total by what it adds to that agent's estimate. */
  lemma RecordMoves(t: P.Table, agent: nat, e: P.Event)
    requires NothingNegative(t)
    requires e.Success? ==> TotalEstimated(t) + P.Earnings(e.bytes, e.price) <= I64_MAX
    requires e.Success? || e.Failure?
    ensures var t' := t[agent := P.Record(P.Load(t, agent), e)];
            && NothingNegative(t')
            && TotalEstimated(t') == TotalEstimated(t) + if e.Success? then P.Earnings(e.bytes, e.price) else 0
  {
    var f := (m: P.Metrics) => m.estimated;
    TotalNonneg(t, f);
    hide P.Earnings, P.RollingAverage, P.LocalScore, P.Bonus, P.ThroughputOf, P.Ratio;
    TotalSet(t, agent, P.Record(P.Load(t, agent), e), f);
  }

  lemma {:induction false} FailuresEarnNothing(t: P.Table, trs: seq<Transport>, now: nat)
    requires NothingNegative(t)
    ensures NothingNegative(F.FailedAll(t, trs, now)) && TotalEstimated(F.FailedAll(t, trs, now)) == TotalEstimated(t)
    decreases |trs|
  {
    if trs != [] {
      FailuresEarnNothing(t, trs[..|trs| - 1], now);
      var failed, tr := F.FailedAll(t, trs[..|trs| - 1], now), trs[|trs| - 1];
      if tr.agent.Some? { RecordMoves(failed, tr.agent.value, P.Failure(now)); }
      hide P.Record, TotalEstimated, NothingNegative;
    }
  }

  lemma VisitEarns(t: P.Table, v: Visit)
    requires NothingNegative(t) && TotalEstimated(t) + EarnedBy(v) <= I64_MAX
    ensures NothingNegative(Metered(t, v)) && TotalEstimated(Metered(t, v)) == TotalEstimated(t) + EarnedBy(v)
  {
    if v.plan.Proxied? {
      var ts, k := v.plan.transports, F.FirstConnected(v.attempts);
      var failed := F.FailedAll(t, if k < |ts| then ts[..k] else ts, v.now);
      FailuresEarnNothing(t, if k < |ts| then ts[..k] else ts, v.now);
      hide F.FailedAll, P.Record, P.Earnings, TotalEstimated, NothingNegative, F.Billed;
      if Carrier(v).Some? && ts[k].agent.Some? {
        var a := v.attempts[k];
        RecordMoves(failed, ts[k].agent.value, P.Success(F.Billed(a), a.seconds, a.latencyMs, ts[k].price, v.now));
      }
    }
  }

  /** All agents' estimated earnings together are what the visits earned, while that fits the counter. */
  lemma {:induction false} AgentsEarn(st: Credit.Settings, w: M.Anchors, hs: seq<Happening>)
    requires Earned(hs) <= I64_MAX
    ensures NothingNegative(Run(st, w, hs).metrics) && TotalEstimated(Run(st, w, hs).metrics) == Earned(hs)
    decreases |hs|
  {
    if hs != [] {
      AgentsEarn(st, w, hs[..|hs| - 1]);
      hide NothingNegative, TotalEstimated, Metered, EarnedBy, M.Step, Events;
      if hs[|hs| - 1].Served? { VisitEarns(Run(st, w, hs[..|hs| - 1]).metrics, hs[|hs| - 1].visit); }
    }
  }

  // ---- the consumer's ledger ----

  /** All accounts together owe what was charged, whoever was logged in when, while that fits the counter. */
  lemma {:induction false} AccountsOwe(st: Credit.Settings, w: M.Anchors, hs: seq<Happening>)
    ensures var db := Run(st, w, hs).mobile.db;
            && M.Sound(db) && M.LedgerTotal(M.DebtOwed, db) <= Charges(hs)
            && (Charges(hs) <= I64_MAX ==> M.LedgerTotal(M.DebtOwed, db) == Charges(hs))
    decreases |hs|
  {
    if hs != [] {
      var before, h := hs[..|hs| - 1], hs[|hs| - 1];
      AccountsOwe(st, w, before);
      OneEventAtMost(h);
      hide M.Step, M.Recorded1, M.Sound, M.LedgerTotal, Metered, Events;
      if Events(h) != [] { M.StepRecords(st, w, Run(st, w, before).mobile, Events(h)[0], M.DebtOwed); }
    }
  }

  lemma OneEventAtMost(h: Happening)
    ensures |Events(h)| <= 1
    ensures M.Recorded(M.DebtOwed, Events(h)) == if Events(h) == [] then 0 else M.Recorded1(M.DebtOwed, Events(h)[0])
  {
    hide M.Recorded1, F.Billed;
    if Events(h) != [] { assert Events(h)[..0] == []; }
  }

  /** Reconciliation: over any requests served along plans the proxy makes, whichever dials fail and copies break, and
      whoever logs in or out between them, the debt of all accounts together exceeds what all the agents together
      expect to earn by at least nothing and at most one micro-USDC for each visit a priced transport carried. */
  lemma DebtCoversEarnings(st: Credit.Settings, w: M.Anchors, hs: seq<Happening>)
    requires Charges(hs) <= I64_MAX && forall i :: 0 <= i < |hs| ==> Planned(hs[i])
    ensures var b := Run(st, w, hs);
            var debt, earned := M.LedgerTotal(M.DebtOwed, b.mobile.db), TotalEstimated(b.metrics);
            earned <= debt <= earned + Priced(hs)
  {
    ChargesCoverEarned(hs);
    AccountsOwe(st, w, hs);
    AgentsEarn(st, w, hs);
  }

  // ---- splitting one transfer ----

  function ChargedApart(bs: seq<nat>, price: nat): nat
  {
    if bs == [] then 0 else Credit.MicroForUsage(bs[0], price) + ChargedApart(bs[1..], price)
  }

  lemma ChargeOfTwo(a: nat, b: nat, price: nat)
    ensures var whole := Credit.MicroForUsage(a + b, price);
            var parts := Credit.MicroForUsage(a, price) + Credit.MicroForUsage(b, price);
            whole <= parts <= whole + 1
  {
    assert (a + b) * price == a * price + b * price;
  }

  /** A charge is the price of the bytes in micro-USDC, rounded up to a whole one. */
  lemma ChargeExactly(bytes: nat, price: nat)
    ensures var micro := Credit.MicroForUsage(bytes, price);
            micro * 1_000_000_000 >= bytes * price > (micro - 1) * 1_000_000_000
  {
  }

  /** Splitting a transfer into `n` pieces overcharges by at most `n - 1` micro-USDC, and never undercharges. */
  lemma {:induction false} SplittingCosts(bs: seq<nat>, price: nat)
    requires bs != []
    ensures var whole := Credit.MicroForUsage(SumNat(bs), price);
            whole <= ChargedApart(bs, price) <= whole + |bs| - 1
  {
    if |bs| == 1 {
      assert bs[1..] == [];
      assert SumNat(bs) == bs[0];
    } else {
      SplittingCosts(bs[1..], price);
      ChargeOfTwo(bs[0], SumNat(bs[1..]), price);
      hide Credit.MicroForUsage;
    }
  }
}
