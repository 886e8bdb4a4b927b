/** Serving one CONNECT request: trying the planned transports in turn, answering once, copying, and settling. */
module Failover {
  import opened Wrappers
  import opened Wire
  import opened Transports
  import opened Sums
  import R = Registry
  import P = ProviderMetrics
  import Plan = RoutePlan

  /** The two replies the proxy sends (section 6 of RFC 1928): version, reply code, reserved, IPv4, 0.0.0.0:0. */
  const SUCCESS_REPLY: Bytes := [5, 0, 0, 1, 0, 0, 0, 0, 0, 0]
  const FAILURE_REPLY: Bytes := [5, 1, 0, 1, 0, 0, 0, 0, 0, 0]

  /** What one turn of a copy loop meets. */
  datatype Io = Chunk(n: nat) | Eof(shutdown: bool) | ReadError | WriteError(n: nat)

  /** What a transport's connect comes to, and then the traffic each way. */
  datatype Attempt = Refused | Connected(up: seq<Io>, down: seq<Io>, seconds: P.Seconds, latencyMs: nat)

  /** What the client and the outside saw of one request. `billed` is what was handed to the credit controller. */
  datatype Log = Log(replies: seq<Bytes>, directDials: nat, dialled: seq<Transport>, billed: Option<(Transport, nat)>)

  const QUIET := Log([], 0, [], None)

  // ---- copying ----

  /** The bytes a copy loop passes on before it ends. */
  function Passed(ios: seq<Io>): nat { if ios != [] && ios[0].Chunk? then ios[0].n + Passed(ios[1..]) else 0 }

  /** Does the loop end by end-of-stream and a successful shutdown? */
  predicate EndsCleanly(ios: seq<Io>)
  {
    ios != [] && (if ios[0].Chunk? then EndsCleanly(ios[1..]) else ios[0] == Eof(true))
  }

  /** What the loop returns: its total, or an error that forgets it. */
  function Copied(ios: seq<Io>): Option<nat> { if EndsCleanly(ios) then Some(Min(Passed(ios), U64_MAX)) else None }

  function OrZero(t: Option<nat>): nat { if t.Some? then t.value else 0 }

  /** What a finished connection is billed: each direction counts only if it ended cleanly. */
  function Billed(a: Attempt): nat
    requires a.Connected?
  {
    SatAdd(OrZero(Copied(a.up)), OrZero(Copied(a.down)), U64_MAX)
  }

  /** The bytes billed are the bytes the registry counted exactly when each direction either ended cleanly or
      passed nothing on (as long as they fit the counter). A direction cut off by an error is never billed. */
  lemma BilledExactly(a: Attempt)
    requires a.Connected? && Passed(a.up) + Passed(a.down) <= U64_MAX
    ensures Billed(a) == Passed(a.up) + Passed(a.down)
            <==> (EndsCleanly(a.up) || Passed(a.up) == 0) && (EndsCleanly(a.down) || Passed(a.down) == 0)
    ensures Billed(a) <= Passed(a.up) + Passed(a.down)
  {
  }

  /** A copy that is cut off is free, though the registry counted it. */
  lemma CutOffIsFree(seconds: P.Seconds)
    ensures var a := Connected([Chunk(5), ReadError], [Eof(true)], seconds, 0); Billed(a) == 0 && Passed(a.up) == 5
  {
    var up := [Chunk(5), ReadError];
    assert up[1..] == [ReadError];
  }

  // ---- what the providers' ledger gets ----

  function FailedOne(t: P.Table, tr: Transport, now: nat): P.Table
  {
    if tr.agent.Some? then t[tr.agent.value := P.Record(P.Load(t, tr.agent.value), P.Failure(now))] else t
  }

  function FailedAll(t: P.Table, trs: seq<Transport>, now: nat): P.Table
    decreases |trs|
  {
    if trs == [] then t else FailedOne(FailedAll(t, trs[..|trs| - 1], now), trs[|trs| - 1], now)
  }

  function SucceededOn(t: P.Table, tr: Transport, a: Attempt, now: nat): P.Table
    requires a.Connected?
  {
    if tr.agent.Some? then
      t[tr.agent.value := P.Record(P.Load(t, tr.agent.value),
                                   P.Success(Billed(a), a.seconds, a.latencyMs, tr.price, now))]
    else t
  }

  function TimesTried(trs: seq<Transport>, agent: nat): nat
    decreases |trs|
  {
    if trs == [] then 0 else
    TimesTried(trs[..|trs| - 1], agent) + (if trs[|trs| - 1].agent == Some(agent) then 1 else 0)
  }

  /** Every transport that failed left exactly one failure with its agent, and nothing with anyone else. */
  lemma {:induction false} OneFailureEach(t: P.Table, trs: seq<Transport>, now: nat, agent: nat)
    requires P.Load(t, agent).sessions + |trs| <= U32_MAX && P.Load(t, agent).recentFailures + |trs| <= U32_MAX
    ensures var m, m' := P.Load(t, agent), P.Load(FailedAll(t, trs, now), agent);
            && m'.sessions == m.sessions + TimesTried(trs, agent) && m'.successes == m.successes
            && m'.recentFailures == m.recentFailures + TimesTried(trs, agent)
            && TimesTried(trs, agent) <= |trs|
    decreases |trs|
  {
    if trs != [] {
      OneFailureEach(t, trs[..|trs| - 1], now, agent);
      hide P.LocalScore, P.Ratio;
    }
  }

  /** The records these failures are. */
  function FailuresOf(trs: seq<Transport>, now: nat): seq<P.Entry>
    decreases |trs|
  {
    if trs == [] then [] else
    var tr := trs[|trs| - 1];
    FailuresOf(trs[..|trs| - 1], now) + (if tr.agent.Some? then [P.Entry(tr.agent.value, P.Failure(now))] else [])
  }

  function SuccessOf(tr: Transport, a: Attempt, now: nat): seq<P.Entry>
    requires a.Connected?
  {
    if tr.agent.None? then []
    else [P.Entry(tr.agent.value, P.Success(Billed(a), a.seconds, a.latencyMs, tr.price, now))]
  }

  lemma {:induction false} FailuresAreFailed(t: P.Table, trs: seq<Transport>, now: nat)
    ensures P.RecordAll(t, FailuresOf(trs, now)) == FailedAll(t, trs, now)
    decreases |trs|
  {
    if trs != [] {
      FailuresAreFailed(t, trs[..|trs| - 1], now);
      var before, tr := FailuresOf(trs[..|trs| - 1], now), trs[|trs| - 1];
      hide P.Record;
      if tr.agent.Some? {
        var x := P.Entry(tr.agent.value, P.Failure(now));
        assert (before + [x])[..|before|] == before;
      } else {
        assert before + [] == before;
      }
    }
  }

  // ---- among other connections ----

  /** From one trace of the registry to the next, the handler of connection `id` reported so many bytes and closed it
      or did not. All else that happened is other connections' doing: nothing, if no others are `busy`. */
  ghost predicate Did(before: seq<R.Event>, after: seq<R.Event>, id: nat, up: nat, down: nat, closed: bool, busy: bool)
  {
    && before <= after
    && var rest := after[|before|..];
    && R.ReportedFor(rest, id, true) == up && R.ReportedFor(rest, id, false) == down
    && (R.Close(id) in rest <==> closed)
    && (!busy ==> forall k :: 0 <= k < |rest| ==> R.Touches(rest[k], id))
  }

  lemma DidNothing(trace: seq<R.Event>, id: nat, busy: bool)
    ensures Did(trace, trace, id, 0, 0, false, busy)
  {
  }

  lemma DidOne(trace: seq<R.Event>, e: R.Event, id: nat, busy: bool)
    requires R.Touches(e, id)
    ensures Did(trace, trace + [e], id, if e.UpdateBytes? then e.up else 0, if e.UpdateBytes? then e.down else 0,
                e.Close?, busy)
  {
    var rest := (trace + [e])[|trace|..];
    assert rest == [e] && rest[..0] == [];
  }

  lemma OthersDid(trace: seq<R.Event>, e: R.Event, id: nat)
    requires !R.Touches(e, id)
    ensures Did(trace, trace + [e], id, 0, 0, false, true)
  {
    var rest := (trace + [e])[|trace|..];
    assert rest == [e] && rest[..0] == [];
  }

  lemma DidMore(a: seq<R.Event>, b: seq<R.Event>, c: seq<R.Event>, id: nat, up: nat, down: nat,
                up': nat, down': nat, closed: bool, busy: bool)
    requires Did(a, b, id, up, down, false, busy) && Did(b, c, id, up', down', closed, busy)
    ensures Did(a, c, id, up + up', down + down', closed, busy)
  {
    var r1, r2 := b[|a|..], c[|b|..];
    assert c[|a|..] == r1 + r2;
    R.ReportedAppend(r1, r2, id, true);
    R.ReportedAppend(r1, r2, id, false);
  }

  lemma DidThen(a: seq<R.Event>, b: seq<R.Event>, e: R.Event, id: nat, up: nat, down: nat, busy: bool)
    requires Did(a, b, id, up, down, false, busy) && R.Touches(e, id)
    ensures e.UpdateBytes? ==> Did(a, b + [e], id, up + e.up, down + e.down, false, busy)
    ensures !e.UpdateBytes? ==> Did(a, b + [e], id, up, down, e.Close?, busy)
  {
    hide Did;
    DidOne(b, e, id, busy);
    var more := e.UpdateBytes?;
    DidMore(a, b, b + [e], id, up, down, if more then e.up else 0, if more then e.down else 0, e.Close?, busy);
  }

  lemma DidClose(a: seq<R.Event>, b: seq<R.Event>, id: nat, up: nat, down: nat, busy: bool)
    requires Did(a, b, id, up, down, false, busy)
    ensures Did(a, b + [R.Close(id)], id, up, down, true, busy)
  {
    DidThen(a, b, R.Close(id), id, up, down, busy);
  }

  /** Are these records among those, in this order? */
  predicate Within(own: seq<P.Entry>, h: seq<P.Entry>)
    decreases |h|
  {
    || own == []
    || (h != [] && own[|own| - 1] == h[|h| - 1] && Within(own[..|own| - 1], h[..|h| - 1]))
    || (h != [] && Within(own, h[..|h| - 1]))
  }

  /** From one history of the providers' ledger to the next, the handler made these records, and if no others are
      busy just these. */
  ghost predicate Noted(before: seq<P.Entry>, after: seq<P.Entry>, own: seq<P.Entry>, busy: bool)
  {
    before <= after && Within(own, after[|before|..]) && (!busy ==> after == before + own)
  }

  lemma {:induction false} WithinAppend(a: seq<P.Entry>, x: seq<P.Entry>, b: seq<P.Entry>, y: seq<P.Entry>)
    requires Within(a, x) && Within(b, y)
    ensures Within(a + b, x + y)
    decreases |y|
  {
    if y == [] {
      assert a + b == a && x + y == x;
    } else {
      var y0 := y[..|y| - 1];
      assert (x + y)[..|x + y| - 1] == x + y0;
      if b != [] && b[|b| - 1] == y[|y| - 1] && Within(b[..|b| - 1], y0) {
        WithinAppend(a, x, b[..|b| - 1], y0);
        assert (a + b)[..|a + b| - 1] == a + b[..|b| - 1];
      } else {
        WithinAppend(a, x, b, y0);
      }
    }
  }

  lemma NotedNothing(h: seq<P.Entry>, busy: bool)
    ensures Noted(h, h, [], busy)
  {
    assert h + [] == h;
  }

  lemma NotedOne(h: seq<P.Entry>, x: P.Entry, busy: bool)
    ensures Noted(h, h + [x], [x], busy) && Noted(h, h + [x], [], true)
  {
    assert (h + [x])[|h|..] == [x];
  }

  lemma NotedMore(h: seq<P.Entry>, h1: seq<P.Entry>, h2: seq<P.Entry>, own: seq<P.Entry>, more: seq<P.Entry>,
                  busy: bool)
    requires Noted(h, h1, own, busy) && Noted(h1, h2, more, busy)
    ensures Noted(h, h2, own + more, busy)
  {
    var x, y := h1[|h|..], h2[|h1|..];
    WithinAppend(own, x, more, y);
    hide Within;
    assert h2[|h|..] == x + y;
    if !busy { assert (h + own) + more == h + (own + more); }
  }

  // ---- the request ----

  /** The first transport whose connect succeeds, or the number of transports. */
  function FirstConnected(attempts: seq<Attempt>): (k: nat)
    ensures k <= |attempts|
    ensures k < |attempts| ==> attempts[k].Connected?
    ensures forall j :: 0 <= j < k ==> attempts[j].Refused?
  {
    if attempts == [] || attempts[0].Connected? then 0 else 1 + FirstConnected(attempts[1..])
  }

  /** Is `id` the connection that the last event of this trace registered? */
  ghost predicate Opened(trace: seq<R.Event>, id: nat)
  {
    trace != [] && trace[|trace| - 1].Register? && R.Run(trace[..|trace| - 1]).nextId == id
  }

  lemma OpenedNow(trace: seq<R.Event>, e: R.Event)
    requires e.Register?
    ensures Opened(trace + [e], R.Run(trace).nextId)
  {
    assert (trace + [e])[..|trace|] == trace;
  }

  /** What the registry has of a connection whose handler did this much since it was registered. */
  lemma EntryOf(since: seq<R.Event>, after: seq<R.Event>, id: nat, up: nat, down: nat, closed: bool, busy: bool)
    requires R.Legal(after) && Opened(since, id) && Did(since, after, id, up, down, closed, busy)
    ensures var conns := R.Run(after).conns;
            && (id in conns ==>
                  conns[id].up == up && conns[id].down == down && (conns[id].status == R.Closed <==> closed))
            && (!closed ==> id in conns)
  {
    var i := |since| - 1;
    SameStart(since, after);
    R.CountsAreOwn(after, i, |after|);
    R.ActiveExactly(after, i, |after|);
    hide R.Run, R.Legal, R.ReportedFor;
    assert after[..|after|] == after && after[i + 1..|after|] == after[|since|..];
    ClosedSince(after, |since|, id);
  }

  lemma SameStart(since: seq<R.Event>, after: seq<R.Event>)
    requires since != [] && since <= after
    ensures after[..|since| - 1] == since[..|since| - 1] && after[|since| - 1] == since[|since| - 1]
  {
  }

  lemma ClosedSince(after: seq<R.Event>, n: nat, id: nat)
    requires n <= |after|
    ensures R.Close(id) !in after[n..] <==> forall m :: n <= m < |after| ==> after[m] != R.Close(id)
  {
    if R.Close(id) in after[n..] {
      var k :| 0 <= k < |after| - n && after[n..][k] == R.Close(id);
      assert after[n + k] == R.Close(id);
    } else {
      forall m | n <= m < |after| ensures after[m] != R.Close(id) { assert after[n..][m - n] == after[m]; }
    }
  }

  /** One reply, if the client can be reached at all. */
  function Replies(clientOk: bool, connected: bool): seq<Bytes>
  {
    if !clientOk then [] else if connected then [SUCCESS_REPLY] else [FAILURE_REPLY]
  }

  function Up(a: Option<Attempt>): nat { if a.Some? && a.value.Connected? then Passed(a.value.up) else 0 }

  function Down(a: Option<Attempt>): nat { if a.Some? && a.value.Connected? then Passed(a.value.down) else 0 }

  /** What the providers' ledger is told of a request: a failure of each transport passed over, and one success. */
  function Notes(plan: Plan.Plan, attempts: seq<Attempt>, clientOk: bool, now: nat): seq<P.Entry>
    requires plan.Proxied? ==> |attempts| == |plan.transports|
  {
    if plan.Direct? then [] else
    var ts, k := plan.transports, FirstConnected(attempts);
    FailuresOf(ts[..k], now) + (if k < |ts| && clientOk then SuccessOf(ts[k], attempts[k], now) else [])
  }

  /** The attempt that carries the request's traffic, if any does. */
  function Carried(plan: Plan.Plan, direct: Attempt, attempts: seq<Attempt>, clientOk: bool): Option<Attempt>
  {
    if !clientOk then None
    else if plan.Direct? then (if direct.Connected? then Some(direct) else None)
    else if FirstConnected(attempts) < |attempts| then Some(attempts[FirstConnected(attempts)])
    else None
  }

  ghost function History(metrics: P.MetricsLedger?): seq<P.Entry>
    reads metrics
  {
    if metrics == null then [] else metrics.history
  }

  /** One request's hold on what all handlers share. Its ghost fields keep count of what it has done there; whenever it
      waits, others may do anything else. */
  class Handler {
    const reg: R.ConnectionRegistry
    const metrics: P.MetricsLedger?
    const busy: bool
    const id: nat
    ghost const since: seq<R.Event>
    ghost const past: seq<P.Entry>
    ghost var up: nat
    ghost var down: nat
    ghost var closed: bool
    ghost var own: seq<P.Entry>

    ghost predicate Valid()
      reads this, reg, metrics
    {
      && reg.Valid() && (metrics != null ==> metrics.Valid()) && (metrics == null ==> own == [])
      && Opened(since, id) && Did(since, reg.trace, id, up, down, closed, busy)
      && Noted(past, History(metrics), own, busy)
    }

    /** Register the connection. */
    constructor (busy: bool, reg: R.ConnectionRegistry, metrics: P.MetricsLedger?, target: string, proxied: bool,
                 isTelegram: bool, now: nat)
      requires reg.Valid() && (metrics != null ==> metrics.Valid())
      modifies reg
      ensures Valid() && this.busy == busy && this.reg == reg && this.metrics == metrics
      ensures up == down == 0 && !closed && own == []
      ensures id == old(reg.nextId) && past == old(History(metrics))
      ensures since == old(reg.trace) + [R.Register(target, proxied, isTelegram, now)]
    {
      hide R.Legal, R.Apply, P.RecordAll, Did, Noted;
      var e := R.Register(target, proxied, isTelegram, now);
      OpenedNow(reg.trace, e);
      DidNothing(reg.trace + [e], reg.nextId, busy);
      NotedNothing(History(metrics), busy);
      hide R.Run, Opened;
      this.busy, this.reg, this.metrics := busy, reg, metrics;
      id, since, past := reg.nextId, reg.trace + [e], History(metrics);
      up, down, closed, own := 0, 0, false, [];
      var n := reg.Register(target, proxied, isTelegram, now);
    }

    /** An await. */
    method Wait()
      requires Valid() && !closed
      modifies reg, metrics
      ensures Valid()
    {
      if !busy { return; }
      var turns :| 0 <= turns;
      for i := 0 to turns
        invariant Valid()
      {
        var e: R.Event := *;
        if !R.Touches(e, id) { OthersDo(e); }
        var x: P.Entry := *;
        OthersRecord(x);
      }
    }

    method OthersDo(e: R.Event)
      requires Valid() && !closed && busy && !R.Touches(e, id)
      modifies reg
      ensures Valid()
    {
      hide R.Run, R.Legal, R.Apply, P.RecordAll, Noted, Did, Opened;
      ghost var before := reg.trace;
      reg.Do(e);
      assert reg.trace == before + [reg.trace[|before|]];
      OthersDid(before, reg.trace[|before|], id);
      DidMore(since, before, reg.trace, id, up, down, 0, 0, false, busy);
    }

    method OthersRecord(x: P.Entry)
      requires Valid() && busy
      modifies metrics
      ensures Valid()
    {
      hide R.Run, R.Legal, Did, P.RecordAll;
      if metrics == null { return; }
      ghost var before := metrics.history;
      match x.event {
        case Success(bytes, seconds, latencyMs, price, now) =>
          var m := metrics.RecordSuccess(x.agent, bytes, seconds, latencyMs, price, now);
        case Failure(now) => var m := metrics.RecordFailure(x.agent, now);
        case _ => return;
      }
      NotedOne(before, x, busy);
      NotedMore(past, before, metrics.history, own, [], busy);
      assert own + [] == own;
    }

    method UpdateRoute(route: R.RouteType, reason: string)
      requires Valid() && !closed
      modifies reg
      ensures Valid()
    {
      hide R.Run, R.Legal, R.Apply, P.RecordAll, Noted, Did, Opened;
      ghost var before := reg.trace;
      DidThen(since, before, R.UpdateRoute(id, route, Some(reason)), id, up, down, busy);
      reg.UpdateRoute(id, route, Some(reason));
    }

    method UpdateBytes(n: nat, upward: bool)
      requires Valid() && !closed
      modifies reg, this`up, this`down
      ensures Valid() && up == old(up) + (if upward then n else 0) && down == old(down) + (if upward then 0 else n)
    {
      hide R.Run, R.Legal, R.Apply, P.RecordAll, Noted, Did, Opened;
      ghost var before := reg.trace;
      var u, d := if upward then n else 0, if upward then 0 else n;
      DidThen(since, before, R.UpdateBytes(id, u, d), id, up, down, busy);
      reg.UpdateBytes(id, u, d);
      up, down := up + u, down + d;
    }

    /** Nobody else takes the connection away while its handler has not closed it. */
    lemma StillOpen()
      requires Valid() && !closed
      ensures id in reg.conns
    {
      EntryOf(since, reg.trace, id, up, down, false, busy);
      hide R.Run, R.Legal, Noted, Did, Opened;
    }

    method Close()
      requires Valid() && !closed
      modifies reg, this`closed
      ensures Valid() && closed
      ensures id in old(reg.conns) ==> id in reg.conns
    {
      hide R.Run, R.Legal, R.Apply, P.RecordAll, Noted, Did, Opened;
      ghost var before := reg.trace;
      DidClose(since, before, id, up, down, busy);
      reg.Close(id);
      closed := true;
    }

    method RecordFailure(t: Transport, now: nat)
      requires Valid()
      modifies metrics, this`own
      ensures Valid() && own == old(own) + if metrics == null then [] else FailuresOf([t], now)
    {
      hide R.Run, R.Legal, Did, P.RecordAll;
      OneFailure(t, now);
      hide FailuresOf;
      assert own + [] == own;
      if metrics == null || t.agent.None? { return; }
      ghost var before := metrics.history;
      var m := metrics.RecordFailure(t.agent.value, now);
      NotedOne(before, P.Entry(t.agent.value, P.Failure(now)), busy);
      NotedMore(past, before, metrics.history, own, FailuresOf([t], now), busy);
      own := own + FailuresOf([t], now);
    }

    method RecordSuccess(t: Transport, a: Attempt, total: nat, now: nat)
      requires Valid() && a.Connected? && total == Billed(a)
      modifies metrics, this`own
      ensures Valid() && own == old(own) + if metrics == null then [] else SuccessOf(t, a, now)
    {
      hide R.Run, R.Legal, Did, P.RecordAll, Billed;
      assert own + [] == own;
      if metrics == null || t.agent.None? { return; }
      ghost var before := metrics.history;
      var m := metrics.RecordSuccess(t.agent.value, total, a.seconds, a.latencyMs, t.price, now);
      NotedOne(before, P.Entry(t.agent.value, P.Success(total, a.seconds, a.latencyMs, t.price, now)), busy);
      NotedMore(past, before, metrics.history, own, SuccessOf(t, a, now), busy);
      own := own + SuccessOf(t, a, now);
    }
  }

  lemma OneFailure(t: Transport, now: nat)
    ensures FailuresOf([t], now) == if t.agent.Some? then [P.Entry(t.agent.value, P.Failure(now))] else []
  {
    assert [t][..0] == [];
    assert FailuresOf([t][..0], now) == [];
  }

  lemma MoreFailures(ts: seq<Transport>, i: nat, now: nat)
    requires i < |ts|
    ensures FailuresOf(ts[..i + 1], now) == FailuresOf(ts[..i], now) + FailuresOf([ts[i]], now)
  {
    OneFailure(ts[i], now);
    assert ts[..i + 1][..i] == ts[..i];
  }

  /** One direction of a connection. Every chunk passed on is reported to the registry as it goes. */
  method CopyWithRateLimit(ios: seq<Io>, h: Handler, upward: bool) returns (total: Option<nat>)
    requires h.Valid() && !h.closed
    modifies h.reg, h.metrics, h`up, h`down
    ensures total == Copied(ios)
    ensures h.Valid() && h.up == old(h.up) + (if upward then Passed(ios) else 0)
    ensures h.down == old(h.down) + (if upward then 0 else Passed(ios))
  {
    hide R.Run, R.Legal, Did, Noted;
    var sum := 0;
    var i := 0;
    ghost var passed := 0;
    while i < |ios| && ios[i].Chunk?
      invariant i <= |ios| && passed + Passed(ios[i..]) == Passed(ios) && sum == Min(passed, U64_MAX)
      invariant EndsCleanly(ios) <==> EndsCleanly(ios[i..])
      invariant h.Valid() && h.up == old(h.up) + (if upward then passed else 0)
      invariant h.down == old(h.down) + (if upward then 0 else passed)
    {
      var n := ios[i].n;
      assert ios[i..][1..] == ios[i + 1..];
      h.Wait();
      sum := SatAdd(sum, n, U64_MAX);
      h.UpdateBytes(n, upward);
      passed := passed + n;
      i := i + 1;
    }
    if i < |ios| && ios[i] == Eof(true) { return Some(sum); }
    return None;
  }

  method CopyBothWays(h: Handler, a: Attempt) returns (up: Option<nat>, down: Option<nat>)
    requires a.Connected? && h.Valid() && !h.closed && h.up == h.down == 0
    modifies h.reg, h.metrics, h`up, h`down
    ensures up == Copied(a.up) && down == Copied(a.down)
    ensures h.Valid() && h.up == Passed(a.up) && h.down == Passed(a.down)
  {
    up := CopyWithRateLimit(a.up, h, true);
    down := CopyWithRateLimit(a.down, h, false);
  }

  /** Dial the target directly, answer, copy both ways. `clientOk` says whether the reply reaches the client; if it
      does not, the handler gives up at once. */
  method DoDirect(h: Handler, direct: Attempt, clientOk: bool) returns (log: Log)
    requires h.Valid() && !h.closed && h.up == h.down == 0
    modifies h.reg, h.metrics, h`up, h`down, h`closed
    ensures log == Log(Replies(clientOk, direct.Connected?), 1, [], None)
    ensures h.Valid() && h.closed == clientOk && (clientOk ==> h.id in h.reg.conns)
    ensures var c := if clientOk then Some(direct) else None; h.up == Up(c) && h.down == Down(c)
  {
    hide R.Run, R.Legal, Did, Noted;
    log := QUIET.(directDials := 1);
    h.Wait();
    if direct.Refused? {
      if !clientOk { return; }
      log := log.(replies := [FAILURE_REPLY]);
      h.StillOpen();
      h.Close();
      return;
    }
    if !clientOk { return; }
    log := log.(replies := [SUCCESS_REPLY]);
    var up, down := CopyBothWays(h, direct);
    h.StillOpen();
    h.Close();
  }

  /** Answer, copy, bill and settle over the transport that connected. */
  method ServeOver(h: Handler, t: Transport, a: Attempt, log0: Log, now: nat) returns (log: Log)
    requires a.Connected? && h.Valid() && !h.closed && h.up == h.down == 0
    modifies h, h.reg, h.metrics
    ensures log == log0.(replies := log0.replies + [SUCCESS_REPLY], billed := Some((t, Billed(a))))
    ensures h.Valid() && h.closed && h.id in h.reg.conns && h.up == Passed(a.up) && h.down == Passed(a.down)
    ensures h.own == old(h.own) + if h.metrics == null then [] else SuccessOf(t, a, now)
  {
    hide R.Run, R.Legal, Did, Noted, SuccessOf;
    log := log0.(replies := log0.replies + [SUCCESS_REPLY]);
    var up, down := CopyBothWays(h, a);
    var total := SatAdd(OrZero(up), OrZero(down), U64_MAX);
    log := log.(billed := Some((t, total)));
    h.Wait();
    h.RecordSuccess(t, a, total, now);
    h.StillOpen();
    h.Close();
  }

  /** Serve one request along its plan. */
  method Serve(h: Handler, plan: Plan.Plan, direct: Attempt, attempts: seq<Attempt>, clientOk: bool, now: nat)
    returns (log: Log)
    requires plan.Proxied? ==> |attempts| == |plan.transports|
    requires h.Valid() && !h.closed && h.up == h.down == 0 && h.own == []
    modifies h, h.reg, h.metrics
    ensures plan.Direct? ==> log == Log(Replies(clientOk, direct.Connected?), 1, [], None)
    ensures plan.Proxied? ==>
              var ts, k := plan.transports, FirstConnected(attempts);
              && log.directDials == 0
              && log.dialled == (if k < |ts| then ts[..k + 1] else ts)
              && log.replies == Replies(clientOk, k < |ts|)
              && log.billed == (if k < |ts| && clientOk then Some((ts[k], Billed(attempts[k]))) else None)
    ensures h.Valid() && h.closed == clientOk && (clientOk ==> h.id in h.reg.conns)
    ensures var c := Carried(plan, direct, attempts, clientOk); h.up == Up(c) && h.down == Down(c)
    ensures h.own == if h.metrics == null then [] else Notes(plan, attempts, clientOk, now)
  {
    hide R.Run, R.Legal, Did, Noted, Opened, P.RecordAll, FailuresOf, SuccessOf, Billed, Passed;
    if plan.Direct? {
      h.UpdateRoute(R.Direct, "Direct");
      log := DoDirect(h, direct, clientOk);
      return;
    }
    var ts := plan.transports;
    log := QUIET;
    NoFailures(ts, now);
    for i := 0 to |ts|
      invariant h.Valid() && !h.closed && h.up == h.down == 0
      invariant h.own == if h.metrics == null then [] else FailuresOf(ts[..i], now)
      invariant log == QUIET.(dialled := ts[..i])
      invariant i <= FirstConnected(attempts)
    {
      var t := ts[i];
      assert ts[..i + 1] == ts[..i] + [t];
      h.UpdateRoute(R.Relay, "transport");
      log := log.(dialled := log.dialled + [t]);
      h.Wait();
      if attempts[i].Connected? {
        assert FirstConnected(attempts) == i;
        assert FailuresOf(ts[..i], now) + [] == FailuresOf(ts[..i], now);
        if !clientOk { return; }
        log := ServeOver(h, t, attempts[i], log, now);
        return;
      }
      MoreFailures(ts, i, now);
      h.RecordFailure(t, now);
    }
    assert ts[..|ts|] == ts;
    assert FailuresOf(ts, now) + [] == FailuresOf(ts, now);
    h.UpdateRoute(R.Relay, "failed");
    h.Wait();
    if !clientOk { return; }
    log := log.(replies := [FAILURE_REPLY]);
    h.StillOpen();
    h.Close();
  }

  lemma NoFailures(ts: seq<Transport>, now: nat)
    ensures FailuresOf(ts[..0], now) == []
  {
  }

  /** Register a request's connection and serve it along its plan, among any other connections if they are busy. */
  method HandleConnect(busy: bool, reg: R.ConnectionRegistry, metrics: P.MetricsLedger?, target: string,
                       isTelegram: bool, plan: Plan.Plan, direct: Attempt, attempts: seq<Attempt>, clientOk: bool,
                       now: nat)
    returns (id: nat, log: Log)
    requires plan.Proxied? ==> |attempts| == |plan.transports|
    requires reg.Valid() && (metrics != null ==> metrics.Valid())
    modifies reg, metrics
    ensures plan.Direct? ==> log == Log(Replies(clientOk, direct.Connected?), 1, [], None)
    ensures plan.Proxied? ==>
              var ts, k := plan.transports, FirstConnected(attempts);
              && log.directDials == 0
              && log.dialled == (if k < |ts| then ts[..k + 1] else ts)
              && log.replies == Replies(clientOk, k < |ts|)
              && log.billed == (if k < |ts| && clientOk then Some((ts[k], Billed(attempts[k]))) else None)
    ensures reg.Valid() && id == old(reg.nextId) && id in reg.conns
    ensures var c := Carried(plan, direct, attempts, clientOk);
            && reg.conns[id].up == Up(c) && reg.conns[id].down == Down(c)
            && (reg.conns[id].status == R.Closed <==> clientOk)
            && Did(old(reg.trace) + [R.Register(target, plan.Proxied?, isTelegram, now)], reg.trace, id,
                   Up(c), Down(c), clientOk, busy)
    ensures metrics != null ==>
              metrics.Valid()
              && Noted(old(metrics.history), metrics.history, Notes(plan, attempts, clientOk, now), busy)
  {
    var h := new Handler(busy, reg, metrics, target, plan.Proxied?, isTelegram, now);
    id := h.id;
    log := Serve(h, plan, direct, attempts, clientOk, now);
    hide R.Run, R.Legal, Did, Noted, Notes, Opened;
    EntryOf(h.since, reg.trace, id, h.up, h.down, h.closed, busy);
  }

  /** Plan a request and serve it. In full mode, and for Telegram's targets in Telegram mode, nothing but the relay's
      own infrastructure is ever dialled directly, whatever fails; everything else is dialled directly and no other
      way. */
  method HandleRequest(busy: bool, reg: R.ConnectionRegistry, metrics: P.MetricsLedger?, q: Plan.Request,
                       target: string, direct: Attempt, attempts: seq<Attempt>, clientOk: bool, now: nat)
    returns (id: nat, log: Log)
    requires forall c :: c in q.configs ==> Buildable(c)
    requires Plan.PlanFor(q).Proxied? ==> |attempts| == |Plan.PlanFor(q).transports|
    requires reg.Valid() && (metrics != null ==> metrics.Valid())
    modifies reg, metrics
    ensures var proxied := !q.isRelayInfra && (q.proxyMode == "full" || (q.proxyMode == "telegram" && q.isTelegram));
            && log.directDials == (if proxied then 0 else 1)
            && (!proxied ==> log.dialled == [] && log.billed == None)
            && (forall t :: t in log.dialled ==> Plan.Reaches(q, t))
    ensures |log.replies| == if clientOk then 1 else 0
  {
    var plan := Plan.PlanConnection(q);
    Plan.ProxiedExactly(q);
    id, log := HandleConnect(busy, reg, metrics, target, q.isTelegram, plan, direct, attempts, clientOk, now);
    hide R.Run, R.Legal, Did, Noted, Notes, Plan.PlanFor, Plan.Reaches;
    if plan.Proxied? {
      forall t | t in log.dialled ensures Plan.Reaches(q, t) {
        assert t in plan.transports;
        Plan.PlannedExactly(q, t);
      }
    }
  }

  /** A client that can be reached gets one reply of ten bytes, of version 5, with code 0 if something connected and 1
      if not, and with an IPv4 address of zeros. */
  lemma RepliesExactly(clientOk: bool, connected: bool)
    ensures var rs := Replies(clientOk, connected);
            && |rs| == (if clientOk then 1 else 0)
            && (clientOk ==>
                  && |rs[0]| == 10 && rs[0][0] == 5 && (rs[0][1] == if connected then 0 else 1)
                  && rs[0][3] == 1 && (forall i :: 4 <= i < 10 || i == 2 ==> rs[0][i] == 0))
  {
  }

  /** What the providers' ledger is told: of each transport passed over that it failed, and of the one that carried the
      request all that is known of the transfer; of nobody else anything. */
  lemma NotesExactly(plan: Plan.Plan, attempts: seq<Attempt>, clientOk: bool, now: nat, x: P.Entry)
    requires plan.Proxied? && |attempts| == |plan.transports|
    ensures x in Notes(plan, attempts, clientOk, now) <==>
              var k := FirstConnected(attempts);
              || (x.event == P.Failure(now)
                  && exists i :: 0 <= i < k && plan.transports[i].agent == Some(x.agent))
              || (k < |attempts| && clientOk && plan.transports[k].agent == Some(x.agent)
                  && var a := attempts[k];
                  x.event == P.Success(Billed(a), a.seconds, a.latencyMs, plan.transports[k].price, now))
  {
    var ts, k := plan.transports, FirstConnected(attempts);
    FailuresMembers(ts[..k], now, x);
    hide FailuresOf, Billed;
    if exists i :: 0 <= i < k && ts[i].agent == Some(x.agent) {
      var i :| 0 <= i < k && ts[i].agent == Some(x.agent);
      assert ts[..k][i] == ts[i];
    }
  }

  lemma {:induction false} FailuresMembers(trs: seq<Transport>, now: nat, x: P.Entry)
    ensures x in FailuresOf(trs, now)
            <==> x.event == P.Failure(now) && exists i :: 0 <= i < |trs| && trs[i].agent == Some(x.agent)
    decreases |trs|
  {
    if trs != [] {
      var init, last := trs[..|trs| - 1], trs[|trs| - 1];
      FailuresMembers(init, now, x);
      assert forall i :: 0 <= i < |init| ==> trs[i] == init[i];
      if last.agent == Some(x.agent) { assert trs[|trs| - 1].agent == Some(x.agent); }
    }
  }
}
