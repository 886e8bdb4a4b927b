/** The provider metrics ledger: incrementally kept session statistics of each agent. Every `f64` is a real here. */
module ProviderMetrics {
  import opened Sums

  datatype Metrics = Metrics(agent: nat, sessions: nat, successes: nat, bytes: nat,
                             latency: real, throughput: real, uptime: real, recentFailures: nat,
                             score: real, pendingDelta: real, lastSync: nat, lastSession: nat,
                             estimated: int, settled: int)

  /** `Duration::as_secs_f64`. */
  type Seconds = x: real | x >= 0.0 witness 0.0

  type Table = map<nat, Metrics>

  function Blank(agent: nat): Metrics { Metrics(agent, 0, 0, 0, 0.0, 0.0, 1.0, 0, 50.0, 0.0, 0, 0, 0, 0) }

  function Load(t: Table, agent: nat): Metrics { if agent in t then t[agent] else Blank(agent) }

  function MinR(a: real, b: real): real { if a <= b then a else b }

  function RollingAverage(current: real, count: nat, latest: real): real
  {
    if count <= 1 then latest else (current * (count as real - 1.0) + latest) / count as real
  }

  function RawScore(m: Metrics): real
  {
    45.0 + MinR(m.throughput * 0.8, 25.0) + MinR(m.uptime * 30.0, 30.0)
    - MinR(m.latency / 400.0, 20.0) - MinR(m.recentFailures as real * 4.0, 20.0)
  }

  function LocalScore(m: Metrics): real
  {
    var raw := RawScore(m);
    if raw < 0.0 then 0.0 else if raw > 100.0 then 100.0 else raw
  }

  function Bonus(latencyMs: nat, throughput: real): real
  {
    (if latencyMs <= 120 then 0.12 else if latencyMs <= 250 then 0.08 else 0.04)
    + (if throughput >= 20.0 then 0.10 else if throughput >= 5.0 then 0.06 else 0.03)
  }

  /** Earnings are rounded down to a whole micro-USDC. */
  function Earnings(bytes: nat, price: nat): nat
  {
    if price == 0 then 0 else Min(bytes * price / 1_000_000_000, I64_MAX)
  }

  /** Megabits a second; a transfer of no duration counts as no throughput. */
  function ThroughputOf(bytes: nat, seconds: Seconds): real
  {
    if seconds == 0.0 then 0.0 else bytes as real * 8.0 / seconds / 1_000_000.0
  }

  function Ratio(successes: nat, sessions: nat, otherwise: real): real
  {
    if sessions == 0 then otherwise else successes as real / sessions as real
  }

  datatype Event =
    | Success(bytes: nat, seconds: Seconds, latencyMs: nat, price: nat, now: nat)
    | Failure(now: nat)
    | Synced(now: nat)
    | SettledAt(amount: int)

  function Record(m: Metrics, e: Event): Metrics
  {
    match e
    case Success(b, s, l, p, now) =>
      var sessions, successes := SatAdd(m.sessions, 1, U64_MAX), SatAdd(m.successes, 1, U64_MAX);
      var m1 := m.(sessions := sessions, successes := successes,
                   bytes := SatAdd(m.bytes, b, U64_MAX), lastSession := now,
                   latency := RollingAverage(m.latency, successes, l as real),
                   throughput := RollingAverage(m.throughput, successes, ThroughputOf(b, s)),
                   recentFailures := Max(m.recentFailures - 1, 0),
                   uptime := Ratio(successes, sessions, 1.0),
                   pendingDelta := m.pendingDelta + Bonus(l, ThroughputOf(b, s)),
                   estimated := Min(m.estimated + Earnings(b, p), I64_MAX));
      m1.(score := LocalScore(m1))
    case Failure(now) =>
      var sessions := SatAdd(m.sessions, 1, U64_MAX);
      var m1 := m.(sessions := sessions, recentFailures := SatAdd(m.recentFailures, 1, U32_MAX), lastSession := now,
                   uptime := Ratio(m.successes, sessions, 0.0), pendingDelta := m.pendingDelta - 0.35);
      m1.(score := LocalScore(m1))
    case Synced(now) => m.(pendingDelta := 0.0, lastSync := now)
    case SettledAt(amount) => m.(settled := Max(amount, 0))
  }

  /** One record made in the ledger, and the agent it is about. */
  datatype Entry = Entry(agent: nat, event: Event)

  function RecordAll(t: Table, h: seq<Entry>): Table
    decreases |h|
  {
    if h == [] then t else
    var before, x := RecordAll(t, h[..|h| - 1]), h[|h| - 1];
    before[x.agent := Record(Load(before, x.agent), x.event)]
  }

  lemma {:induction false} RecordAllAppend(t: Table, a: seq<Entry>, b: seq<Entry>)
    ensures RecordAll(t, a + b) == RecordAll(RecordAll(t, a), b)
    decreases |b|
  {
    hide Record;
    if b == [] {
      assert a + b == a;
    } else {
      RecordAllAppend(t, a, b[..|b| - 1]);
      assert (a + b)[..|a + b| - 1] == a + b[..|b| - 1];
    }
  }

  lemma {:induction false} RecordAllFiles(h: seq<Entry>)
    ensures forall a :: a in RecordAll(map[], h) ==> RecordAll(map[], h)[a].agent == a
    decreases |h|
  {
    if h != [] {
      RecordAllFiles(h[..|h| - 1]);
      var m, e := Load(RecordAll(map[], h[..|h| - 1]), h[|h| - 1].agent), h[|h| - 1].event;
      RecordKeepsAgent(m, e);
      hide Record;
    }
  }

  lemma RecordKeepsAgent(m: Metrics, e: Event)
    ensures Record(m, e).agent == m.agent
  {
  }

  class MetricsLedger {
    var table: Table
    ghost var history: seq<Entry>

    /** The table is what its history makes of it. */
    ghost predicate Valid()
      reads this
    {
      table == RecordAll(map[], history)
    }

    constructor ()
      ensures Valid() && table == map[] && history == []
    {
      table, history := map[], [];
    }

    method Save(m: Metrics, ghost e: Event)
      requires Valid() && m == Record(Load(table, m.agent), e)
      modifies this
      ensures Valid() && table == old(table)[m.agent := m] && history == old(history) + [Entry(m.agent, e)]
    {
      table := table[m.agent := m];
      history := history + [Entry(m.agent, e)];
      assert history[..|history| - 1] == old(history);
    }

    method RecordSuccess(agent: nat, bytes: nat, seconds: Seconds, latencyMs: nat, price: nat, now: nat)
      returns (m: Metrics)
      requires Valid()
      modifies this
      ensures m == Record(Load(old(table), agent), Success(bytes, seconds, latencyMs, price, now))
      ensures Valid() && table == old(table)[agent := m]
      ensures history == old(history) + [Entry(agent, Success(bytes, seconds, latencyMs, price, now))]
    {
      RecordAllFiles(history);
      hide RecordAll;
      m := Load(table, agent);
      m := m.(sessions := SatAdd(m.sessions, 1, U64_MAX));
      m := m.(successes := SatAdd(m.successes, 1, U64_MAX));
      m := m.(bytes := SatAdd(m.bytes, bytes, U64_MAX));
      m := m.(lastSession := now);
      m := m.(latency := RollingAverage(m.latency, m.successes, latencyMs as real));
      var throughput := ThroughputOf(bytes, seconds);
      m := m.(throughput := RollingAverage(m.throughput, m.successes, throughput));
      m := m.(recentFailures := Max(m.recentFailures - 1, 0));
      m := m.(uptime := Ratio(m.successes, m.sessions, 1.0));
      m := m.(pendingDelta := m.pendingDelta + Bonus(latencyMs, throughput));
      m := m.(estimated := Min(m.estimated + Earnings(bytes, price), I64_MAX));
      m := m.(score := LocalScore(m));
      Save(m, Success(bytes, seconds, latencyMs, price, now));
    }

    method RecordFailure(agent: nat, now: nat) returns (m: Metrics)
      requires Valid()
      modifies this
      ensures m == Record(Load(old(table), agent), Failure(now))
      ensures Valid() && table == old(table)[agent := m] && history == old(history) + [Entry(agent, Failure(now))]
    {
      RecordAllFiles(history);
      hide RecordAll;
      m := Load(table, agent);
      m := m.(sessions := SatAdd(m.sessions, 1, U64_MAX));
      m := m.(recentFailures := SatAdd(m.recentFailures, 1, U32_MAX));
      m := m.(lastSession := now);
      m := m.(uptime := Ratio(m.successes, m.sessions, 0.0));
      m := m.(pendingDelta := m.pendingDelta - 0.35);
      m := m.(score := LocalScore(m));
      Save(m, Failure(now));
    }
  }

  // ---- the same statistics recomputed from the whole history ----

  function After(agent: nat, h: seq<Event>): Metrics
    decreases |h|
  {
    if h == [] then Blank(agent) else Record(After(agent, h[..|h| - 1]), h[|h| - 1])
  }

  /** What was recorded about one agent. */
  function EventsOf(h: seq<Entry>, agent: nat): seq<Event>
    decreases |h|
  {
    if h == [] then [] else
    var x := h[|h| - 1];
    EventsOf(h[..|h| - 1], agent) + (if x.agent == agent then [x.event] else [])
  }

  /** However the records of several agents are interleaved, each agent's statistics are those of its own history. */
  lemma {:induction false} LedgerKeepsAgentsApart(h: seq<Entry>, agent: nat)
    ensures Load(RecordAll(map[], h), agent) == After(agent, EventsOf(h, agent))
    decreases |h|
  {
    if h != [] {
      var init, x := h[..|h| - 1], h[|h| - 1];
      LedgerKeepsAgentsApart(init, agent);
      hide Record;
      var mine := EventsOf(init, agent);
      if x.agent == agent {
        assert (mine + [x.event])[..|mine|] == mine;
      } else {
        assert mine + [] == mine;
      }
    }
  }

  /** The successful sessions of a history. */
  function Successes(h: seq<Event>): nat
    decreases |h|
  {
    if h == [] then 0 else Successes(h[..|h| - 1]) + (if h[|h| - 1].Success? then 1 else 0)
  }

  function Failures(h: seq<Event>): nat
    decreases |h|
  {
    if h == [] then 0 else Failures(h[..|h| - 1]) + (if h[|h| - 1].Failure? then 1 else 0)
  }

  function LatencySum(h: seq<Event>): real
    decreases |h|
  {
    if h == [] then 0.0 else
    var e := h[|h| - 1];
    LatencySum(h[..|h| - 1]) + (if e.Success? then e.latencyMs as real else 0.0)
  }

  function ThroughputSum(h: seq<Event>): real
    decreases |h|
  {
    if h == [] then 0.0 else
    var e := h[|h| - 1];
    ThroughputSum(h[..|h| - 1]) + (if e.Success? then ThroughputOf(e.bytes, e.seconds) else 0.0)
  }

  /** A failure counts one up, a success one down. */
  function Steps(h: seq<Event>): seq<int>
    decreases |h|
  {
    if h == [] then [] else
    var e := h[|h| - 1];
    Steps(h[..|h| - 1]) + (if e.Failure? then [1] else if e.Success? then [-1] else [])
  }

  /** What the stored statistics must be, by the history alone. */
  ghost predicate Faithful(m: Metrics, h: seq<Event>) { Counted(m, h) && Averaged(m, h) }

  ghost predicate Counted(m: Metrics, h: seq<Event>)
  {
    var k, n := Successes(h), Successes(h) + Failures(h);
    && m.sessions == n && m.successes == k
    && m.uptime == Ratio(k, n, 1.0)
    && m.recentFailures == Walk(Steps(h))
  }

  ghost predicate Averaged(m: Metrics, h: seq<Event>)
  {
    && m.latency == Mean(LatencySum(h), Successes(h))
    && m.throughput == Mean(ThroughputSum(h), Successes(h))
  }

  function Mean(sum: real, k: nat): real { if k == 0 then 0.0 else sum / k as real }

  /** Where one event takes the walk. */
  function Stepped(walk: nat, e: Event): nat
  {
    if e.Failure? then walk + 1 else if e.Success? then Max(0, walk - 1) else walk
  }

  lemma MeanStep(sum: real, k: nat, x: real)
    requires k == 0 ==> sum == 0.0
    ensures RollingAverage(Mean(sum, k), k + 1, x) == Mean(sum + x, k + 1)
  {
    if k > 0 {
      assert (k + 1) as real - 1.0 == k as real;
      assert sum / k as real * k as real == sum;
    }
  }

  lemma {:induction false} SumsOfNone(h: seq<Event>)
    ensures Successes(h) == 0 ==> LatencySum(h) == 0.0 && ThroughputSum(h) == 0.0
    ensures LatencySum(h) >= 0.0 && ThroughputSum(h) >= 0.0
    ensures Successes(h) + Failures(h) <= |h| && |Steps(h)| <= |h|
    ensures Walk(Steps(h)) <= Failures(h)
    decreases |h|
  {
    if h != [] {
      var init, e := h[..|h| - 1], h[|h| - 1];
      SumsOfNone(init);
      StepsStep(init, e, h);
      if e.Success? && e.seconds > 0.0 {
        assert e.bytes as real * 8.0 / e.seconds >= 0.0;
      }
    }
  }

  lemma StepsStep(init: seq<Event>, e: Event, h: seq<Event>)
    requires h != [] && h[..|h| - 1] == init && h[|h| - 1] == e
    ensures Walk(Steps(h)) == Stepped(Walk(Steps(init)), e)
  {
    if e.Failure? {
      assert Steps(h)[..|Steps(h)| - 1] == Steps(init);
    } else if e.Success? {
      assert Steps(h)[..|Steps(h)| - 1] == Steps(init);
    } else {
      assert Steps(h) == Steps(init);
    }
  }

  /** Incremental bookkeeping refines recomputation: after any history too short to saturate the smallest counter,
      the averages are the exact means over the successful sessions, the uptime is the exact share of successes, and
      the recent failures are the failures-less-successes walk held at zero. */
  lemma {:induction false} MetricsAreFaithful(agent: nat, h: seq<Event>)
    requires |h| <= U32_MAX
    ensures Faithful(After(agent, h), h)
    decreases |h|
  {
    if h != [] {
      var init, e := h[..|h| - 1], h[|h| - 1];
      MetricsAreFaithful(agent, init);
      SumsOfNone(init);
      StepsStep(init, e, h);
      FaithfulStep(After(agent, init), init, e, h);
    }
  }

  lemma FaithfulStep(m: Metrics, init: seq<Event>, e: Event, h: seq<Event>)
    requires h != [] && h[..|h| - 1] == init && h[|h| - 1] == e && |h| <= U32_MAX
    requires Faithful(m, init)
    requires Successes(init) == 0 ==> LatencySum(init) == 0.0 && ThroughputSum(init) == 0.0
    requires Successes(init) + Failures(init) <= |init| && Walk(Steps(init)) <= Failures(init)
    requires Walk(Steps(h)) == Stepped(Walk(Steps(init)), e)
    ensures Faithful(Record(m, e), h)
  {
    CountedStep(m, init, e, h);
    AveragedStep(m, init, e, h);
  }

  lemma CountedStep(m: Metrics, init: seq<Event>, e: Event, h: seq<Event>)
    requires h != [] && h[..|h| - 1] == init && h[|h| - 1] == e && |h| <= U32_MAX && Counted(m, init)
    requires Successes(init) + Failures(init) <= |init| && Walk(Steps(init)) <= Failures(init)
    requires Walk(Steps(h)) == Stepped(Walk(Steps(init)), e)
    ensures Counted(Record(m, e), h)
  {
    RecordCounts(m, e);
    assert Successes(h) == Successes(init) + (if e.Success? then 1 else 0);
    assert Failures(h) == Failures(init) + (if e.Failure? then 1 else 0);
    var next := Record(m, e);
    hide Record, Ratio, Walk, Steps, Stepped, Successes, Failures;
    assert next.sessions == Successes(h) + Failures(h) && next.successes == Successes(h);
    assert next.uptime == Ratio(next.successes, next.sessions, 1.0);
  }

  /** What an event does to the counts alone. */
  lemma RecordCounts(m: Metrics, e: Event)
    requires m.sessions < U32_MAX && m.successes < U32_MAX && m.recentFailures < U32_MAX
    ensures var m' := Record(m, e);
            && m'.successes == m.successes + (if e.Success? then 1 else 0)
            && m'.sessions == m.sessions + (if e.Success? || e.Failure? then 1 else 0)
            && m'.recentFailures == Stepped(m.recentFailures, e)
            && m'.uptime == (if e.Success? || e.Failure? then Ratio(m'.successes, m'.sessions, 1.0) else m.uptime)
  {
    SameRatio(m.successes, m.sessions + 1);
    hide LocalScore, Bonus, Earnings, ThroughputOf, RollingAverage, Ratio;
  }

  lemma SameRatio(k: nat, n: nat)
    ensures n > 0 ==> Ratio(k, n, 0.0) == Ratio(k, n, 1.0)
  {
  }

  lemma AveragedStep(m: Metrics, init: seq<Event>, e: Event, h: seq<Event>)
    requires h != [] && h[..|h| - 1] == init && h[|h| - 1] == e && |h| <= U32_MAX
    requires Averaged(m, init) && m.successes == Successes(init) <= |init|
    requires Successes(init) == 0 ==> LatencySum(init) == 0.0 && ThroughputSum(init) == 0.0
    ensures Averaged(Record(m, e), h)
  {
    if e.Success? {
      MeanStep(LatencySum(init), m.successes, e.latencyMs as real);
      MeanStep(ThroughputSum(init), m.successes, ThroughputOf(e.bytes, e.seconds));
    }
    hide LocalScore, Bonus, Earnings, ThroughputOf, RollingAverage, Mean, Ratio;
  }

  /** The recent failures are the largest excess of failures over successes at the end of the history, and never
      more than all its failures. */
  lemma RecentFailuresClosedForm(agent: nat, h: seq<Event>)
    requires |h| <= U32_MAX
    ensures var m := After(agent, h);
            IsLargestSuffixSum(Steps(h), m.recentFailures) && m.recentFailures <= m.sessions - m.successes
  {
    MetricsAreFaithful(agent, h);
    WalkIsLargestSuffixSum(Steps(h));
    SumsOfNone(h);
  }

  /** Before any session the score is 50; from the first one on it is the raw score, between 5 and 100, so its clamp
      never acts. */
  lemma {:induction false} ScoreInRange(agent: nat, h: seq<Event>)
    requires |h| <= U32_MAX
    ensures var m := After(agent, h);
            if Successes(h) + Failures(h) == 0 then m.score == 50.0
            else m.score == RawScore(m) && 5.0 <= m.score <= 100.0
    decreases |h|
  {
    if h != [] {
      var init, e := h[..|h| - 1], h[|h| - 1];
      if e.Success? || e.Failure? {
        FreshScore(agent, h);
      } else {
        ScoreInRange(agent, init);
      }
    }
  }

  /** What each statistic is worth. Throughput counts 0.8 a megabit up to 25 in all, uptime 30 in all, latency takes off
      one for every 400 milliseconds up to 20 in all, and each recent failure 4 up to 20 in all. */
  lemma ScoreExactly(m: Metrics, m': Metrics)
    ensures m' == m.(throughput := m'.throughput) && m.throughput <= m'.throughput ==>
              RawScore(m) <= RawScore(m')
              && (m'.throughput <= 31.25 ==> RawScore(m') == RawScore(m) + (m'.throughput - m.throughput) * 0.8)
    ensures m' == m.(uptime := m'.uptime) && m.uptime <= m'.uptime ==>
              RawScore(m) <= RawScore(m')
              && (m'.uptime <= 1.0 ==> RawScore(m') == RawScore(m) + (m'.uptime - m.uptime) * 30.0)
    ensures m' == m.(latency := m'.latency) && m.latency <= m'.latency ==>
              RawScore(m') <= RawScore(m)
              && (m'.latency <= 8000.0 ==> RawScore(m') == RawScore(m) - (m'.latency - m.latency) / 400.0)
    ensures m' == m.(recentFailures := m'.recentFailures) && m.recentFailures <= m'.recentFailures ==>
              RawScore(m') <= RawScore(m)
              && (m'.recentFailures <= 5 ==>
                    RawScore(m') == RawScore(m) - (m'.recentFailures as real - m.recentFailures as real) * 4.0)
    ensures m.throughput == 0.0 && m.uptime == 0.0 && m.latency == 0.0 && m.recentFailures == 0 ==> RawScore(m) == 45.0
  {
  }

  /** Megabits a second times the seconds are the bits, in millions. */
  lemma ThroughputExactly(bytes: nat, seconds: Seconds)
    ensures seconds > 0.0 ==> ThroughputOf(bytes, seconds) * seconds * 1_000_000.0 == bytes as real * 8.0
    ensures seconds == 0.0 ==> ThroughputOf(bytes, seconds) == 0.0
  {
    if seconds > 0.0 {
      var perSecond := bytes as real * 8.0 / seconds;
      assert perSecond * seconds == bytes as real * 8.0;
      assert ThroughputOf(bytes, seconds) * 1_000_000.0 == perSecond;
      var x := ThroughputOf(bytes, seconds);
      assert x * seconds * 1_000_000.0 == x * 1_000_000.0 * seconds;
    }
  }

  // ---- tallies ----

  function Served(h: seq<Event>): nat
    decreases |h|
  {
    if h == [] then 0 else Served(h[..|h| - 1]) + (if h[|h| - 1].Success? then h[|h| - 1].bytes else 0)
  }

  /** When the last session was, if there was any. */
  function LastSession(h: seq<Event>): nat
    decreases |h|
  {
    if h == [] then 0 else
    var e := h[|h| - 1];
    if e.Success? || e.Failure? then e.now else LastSession(h[..|h| - 1])
  }

  /** What the sessions since the last report on chain come to if each success is worth so much and each failure takes
      off 0.35. */
  function PendingAt(h: seq<Event>, gain: real): real
    decreases |h|
  {
    if h == [] then 0.0 else
    var before := PendingAt(h[..|h| - 1], gain);
    match h[|h| - 1]
    case Success(_, _, _, _, _) => before + gain
    case Failure(_) => before - 0.35
    case Synced(_) => 0.0
    case SettledAt(_) => before
  }

  /** After any history, the bytes are those of all successes, as far as the counter goes, the last session is the last
      recorded one, and the delta pending for the chain counts each success since the last report with 0.07 to 0.22. */
  lemma {:induction false} TalliesAreFaithful(agent: nat, h: seq<Event>)
    ensures var m := After(agent, h);
            && m.agent == agent && m.bytes == Min(Served(h), U64_MAX) && m.lastSession == LastSession(h)
            && PendingAt(h, 0.07) <= m.pendingDelta <= PendingAt(h, 0.22)
    decreases |h|
  {
    if h != [] {
      var init, e := h[..|h| - 1], h[|h| - 1];
      TalliesAreFaithful(agent, init);
      TallyStep(After(agent, init), e);
      hide Record;
    }
  }

  lemma TallyStep(m: Metrics, e: Event)
    ensures var m' := Record(m, e);
            && m'.agent == m.agent
            && m'.bytes == (if e.Success? then Min(m.bytes + e.bytes, U64_MAX) else m.bytes)
            && m'.lastSession == (if e.Success? || e.Failure? then e.now else m.lastSession)
            && (e.Success? ==> 0.07 <= m'.pendingDelta - m.pendingDelta <= 0.22)
            && (e.Failure? ==> m'.pendingDelta == m.pendingDelta - 0.35)
            && (e.Synced? ==> m'.pendingDelta == 0.0 && m'.lastSync == e.now)
            && (e.SettledAt? ==> m'.pendingDelta == m.pendingDelta && m'.settled == Max(e.amount, 0))
  {
    hide LocalScore, Earnings, ThroughputOf, RollingAverage, Ratio;
  }

  /** Lower latency and higher throughput are never worth less. */
  lemma BonusMonotone(latencyMs: nat, throughput: real, latencyMs': nat, throughput': real)
    requires latencyMs' <= latencyMs && throughput <= throughput'
    ensures Bonus(latencyMs, throughput) <= Bonus(latencyMs', throughput')
    ensures Bonus(121, 19.0) < Bonus(120, 19.0) && Bonus(251, 19.0) < Bonus(250, 19.0)
    ensures Bonus(0, 19.9) < Bonus(0, 20.0) && Bonus(0, 4.9) < Bonus(0, 5.0)
  {
  }

  /** A failure never raises the score, and lowers it exactly when there was a success to dilute or fewer than five
      recent failures. */
  lemma FailureNeverHelps(agent: nat, h: seq<Event>, now: nat)
    requires |h| < U32_MAX
    ensures After(agent, h + [Failure(now)]) == Record(After(agent, h), Failure(now))
    ensures var was, next := After(agent, h), After(agent, h + [Failure(now)]);
            && next.recentFailures == was.recentFailures + 1 && next.score <= was.score
            && (next.score < was.score <==> Successes(h) > 0 || was.recentFailures < 5)
  {
    var h' := h + [Failure(now)];
    assert h'[..|h'| - 1] == h;
    var was, k, n := After(agent, h), Successes(h), Successes(h) + Failures(h);
    MetricsAreFaithful(agent, h);
    SumsOfNone(h);
    ScoreInRange(agent, h);
    ScoreInRange(agent, h');
    FailureStep(was, now);
    assert Successes(h') == k && Failures(h') == Failures(h) + 1;
    assert was.recentFailures <= Failures(h);
    assert k == 0 ==> was.latency == 0.0 && was.throughput == 0.0;
    assert was.uptime == Ratio(k, n, 1.0);
    hide *;
    FewerScore(was, After(agent, h'), k, n);
  }

  /** One more failure among `n` sessions with `k` successes. */
  lemma FewerScore(was: Metrics, next: Metrics, k: nat, n: nat)
    requires k <= n && (n == 0 ==> was.recentFailures == 0 && was.latency == 0.0 && was.throughput == 0.0)
    requires next.latency == was.latency && next.throughput == was.throughput
             && next.recentFailures == was.recentFailures + 1
    requires was.uptime == Ratio(k, n, 1.0) && next.uptime == Ratio(k, n + 1, 0.0)
    requires was.score == (if n == 0 then 50.0 else RawScore(was)) && next.score == RawScore(next)
    ensures next.score <= was.score && (next.score < was.score <==> k > 0 || was.recentFailures < 5)
  {
    if n > 0 {
      DilutedShare(k, n);
      FewerRaw(was, next);
    }
  }

  lemma FailureStep(m: Metrics, now: nat)
    requires m.sessions < U32_MAX && m.successes < U32_MAX && m.recentFailures < U32_MAX
    ensures var m' := Record(m, Failure(now));
            && m'.latency == m.latency && m'.throughput == m.throughput && m'.recentFailures == m.recentFailures + 1
            && m'.uptime == Ratio(m.successes, m.sessions + 1, 0.0) && m'.score == LocalScore(m'.(score := m.score))
  {
  }

  lemma FewerRaw(was: Metrics, next: Metrics)
    requires next.latency == was.latency && next.throughput == was.throughput && 0.0 <= next.uptime <= was.uptime <= 1.0
    requires next.recentFailures == was.recentFailures + 1
    ensures RawScore(next) <= RawScore(was)
    ensures RawScore(next) < RawScore(was) <==> next.uptime < was.uptime || was.recentFailures < 5
  {
  }

  lemma DilutedShare(k: nat, n: nat)
    requires k <= n && n > 0
    ensures 0.0 <= k as real / (n + 1) as real <= k as real / n as real <= 1.0
    ensures k > 0 ==> k as real / (n + 1) as real < k as real / n as real
  {
    var a, b := k as real / (n + 1) as real, k as real / n as real;
    assert a * n as real + a == k as real && b * n as real == k as real;
  }

  lemma FreshScore(agent: nat, h: seq<Event>)
    requires |h| <= U32_MAX && h != [] && (h[|h| - 1].Success? || h[|h| - 1].Failure?)
    ensures var m := After(agent, h); m.score == RawScore(m) && 5.0 <= m.score <= 100.0
  {
    MetricsAreFaithful(agent, h);
    SumsOfNone(h);
    var m := After(agent, h);
    var k, n := Successes(h), Successes(h) + Failures(h);
    assert n > 0;
    ShareInUnit(k, n);
    if k > 0 {
      NonnegQuotient(LatencySum(h), k);
      NonnegQuotient(ThroughputSum(h), k);
    }
    NonnegQuotient(m.latency, 400);
    var prev := After(agent, h[..|h| - 1]);
    assert 0.0 <= m.uptime <= 1.0 && m.latency >= 0.0 && m.throughput >= 0.0;
    hide RollingAverage, Bonus, Earnings, ThroughputOf, Ratio, Counted, Averaged, Walk;
    assert m == Record(prev, h[|h| - 1]);
    assert m.score == LocalScore(m.(score := prev.score));
    assert RawScore(m.(score := prev.score)) == RawScore(m);
  }

  lemma ShareInUnit(k: nat, n: nat)
    requires k <= n && n > 0
    ensures 0.0 <= k as real / n as real <= 1.0
  {
  }

  lemma NonnegQuotient(x: real, k: nat)
    requires x >= 0.0 && k > 0
    ensures x / k as real >= 0.0
  {
  }
}
