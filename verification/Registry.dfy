/** The connection registry: live and finished connections, their byte counts, and the eviction of old ones. */
module Registry {
  import opened Wrappers
  import opened Sums
  import opened StableSort
  import Text = TargetText

  datatype RouteType = Direct | Relay | P2P

  datatype Status = Active | Closed

  datatype Conn = Conn(id: nat, host: string, port: nat, route: RouteType, up: nat, down: nat, start: nat,
                       isTelegram: bool, proxied: bool, status: Status, reason: Option<string>)

  type Table = map<nat, Conn>

  /** The table and the process-wide counter of connection ids. */
  datatype State = State(conns: Table, nextId: nat)

  const INIT := State(map[], 1)

  datatype Event =
    | Register(target: string, proxied: bool, isTelegram: bool, now: nat)
    | UpdateRoute(id: nat, route: RouteType, reason: Option<string>)
    | UpdateBytes(id: nat, up: nat, down: nat)
    | Close(id: nat)
    | Collect(maxClosed: nat, evicted: set<nat>)

  function NewConn(id: nat, target: string, proxied: bool, isTelegram: bool, now: nat): Conn
  {
    var split := Text.SplitTarget(target);
    Conn(id, if split.Some? then split.value.0 else target, if split.Some? then split.value.1 else 0,
         Direct, 0, 0, now, isTelegram, proxied, Active, None)
  }

  /** Is this an update of connection `id`? */
  predicate Touches(e: Event, id: nat) { (e.UpdateRoute? || e.UpdateBytes? || e.Close?) && e.id == id }

  /** What an update does to its connection. */
  function Touched(c: Conn, e: Event): Conn
  {
    match e
    case UpdateRoute(_, route, reason) =>
      c.(route := route, proxied := route != Direct, reason := if reason.Some? then reason else c.reason)
    case UpdateBytes(_, up, down) => c.(up := c.up + up, down := c.down + down)
    case Close(_) => c.(status := Closed)
    case _ => c
  }

  function Apply(s: State, e: Event): State
  {
    match e
    case Register(t, p, tg, now) => State(s.conns[s.nextId := NewConn(s.nextId, t, p, tg, now)], s.nextId + 1)
    case Collect(_, evicted) => s.(conns := s.conns - evicted)
    case _ => if e.id !in s.conns then s else s.(conns := s.conns[e.id := Touched(s.conns[e.id], e)])
  }

  ghost function ClosedIds(t: Table): set<nat> { set id | id in t && t[id].status == Closed }

  /** A collection evicts exactly the surplus of closed connections, and none that is younger than one it keeps. */
  ghost predicate Fair(t: Table, maxClosed: nat, evicted: set<nat>)
  {
    && evicted <= ClosedIds(t)
    && |evicted| == Max(0, |ClosedIds(t)| - maxClosed)
    && (forall a, b :: a in evicted && b in ClosedIds(t) - evicted ==> t[a].start <= t[b].start)
  }

  // ---- runs ----

  function Run(es: seq<Event>): State
    decreases |es|
  {
    if es == [] then INIT else Apply(Run(es[..|es| - 1]), es[|es| - 1])
  }

  /** A run whose collections are those the registry makes. */
  ghost predicate Legal(es: seq<Event>)
    decreases |es|
  {
    es == []
    || (var before, e := es[..|es| - 1], es[|es| - 1];
        Legal(before) && (e.Collect? ==> Fair(Run(before).conns, e.maxClosed, e.evicted)))
  }

  lemma {:induction false} LegalPrefix(es: seq<Event>, n: nat)
    requires Legal(es) && n <= |es|
    ensures Legal(es[..n])
    decreases |es|
  {
    if n < |es| {
      LegalPrefix(es[..|es| - 1], n);
      assert es[..|es| - 1][..n] == es[..n];
    } else {
      assert es[..n] == es;
    }
  }

  /** Bytes up (or down) reported for connections the registry knew at the time. */
  function Reported(es: seq<Event>, upward: bool): nat
    decreases |es|
  {
    if es == [] then 0 else
    var before, e := es[..|es| - 1], es[|es| - 1];
    Reported(before, upward)
    + (if e.UpdateBytes? && e.id in Run(before).conns then (if upward then e.up else e.down) else 0)
  }

  function Bytes(upward: bool): Conn -> int { (c: Conn) => if upward then c.up else c.down }

  ghost function Restrict(t: Table, ids: set<nat>): Table { map id | id in t && id in ids :: t[id] }

  /** Bytes that left the registry with evicted connections. */
  ghost function Evicted(es: seq<Event>, upward: bool): int
    decreases |es|
  {
    if es == [] then 0 else
    var before, e := es[..|es| - 1], es[|es| - 1];
    Evicted(before, upward) + (if e.Collect? then Total(Restrict(Run(before).conns, e.evicted), Bytes(upward)) else 0)
  }

  lemma {:induction false} TotalPartition(t: Table, ids: set<nat>, f: Conn -> int)
    ensures Total(t, f) == Total(t - ids, f) + Total(Restrict(t, ids), f)
    decreases |t|
  {
    if t == map[] {
      assert t - ids == t && Restrict(t, ids) == t;
    } else {
      var k :| k in t;
      var rest := t - {k};
      TotalPartition(rest, ids, f);
      TotalSplit(t, k, f);
      if k in ids {
        TotalSplit(Restrict(t, ids), k, f);
        assert Restrict(t, ids) - {k} == Restrict(rest, ids);
        assert t - ids == rest - ids;
      } else {
        TotalSplit(t - ids, k, f);
        assert (t - ids) - {k} == rest - ids;
        assert Restrict(t, ids) == Restrict(rest, ids);
      }
    }
  }

  /** Over any run, the registry's byte totals are what was reported for known connections less what left with the
      evicted ones. */
  lemma {:induction false} BytesAccounted(es: seq<Event>, upward: bool)
    ensures Total(Run(es).conns, Bytes(upward)) == Reported(es, upward) - Evicted(es, upward)
    ensures forall id :: id in Run(es).conns ==> id < Run(es).nextId && Run(es).conns[id].id == id
    decreases |es|
  {
    if es != [] {
      var before, e := es[..|es| - 1], es[|es| - 1];
      BytesAccounted(before, upward);
      var s, s' := Run(before), Run(es);
      match e {
        case Register(t, p, tg, now) => TotalSet(s.conns, s.nextId, s'.conns[s.nextId], Bytes(upward));
        case Collect(_, evicted) => TotalPartition(s.conns, evicted, Bytes(upward));
        case UpdateRoute(id, _, _) => if id in s.conns { TotalSet(s.conns, id, s'.conns[id], Bytes(upward)); }
        case UpdateBytes(id, _, _) => if id in s.conns { TotalSet(s.conns, id, s'.conns[id], Bytes(upward)); }
        case Close(id) => if id in s.conns { TotalSet(s.conns, id, s'.conns[id], Bytes(upward)); }
      }
    }
  }

  lemma ApplyKeepsCounter(s: State, e: Event)
    ensures Apply(s, e).nextId >= s.nextId
  {
  }

  lemma {:induction false} CounterGrows(es: seq<Event>, n: nat)
    requires n <= |es|
    ensures Run(es[..n]).nextId <= Run(es).nextId
    decreases |es|
  {
    if n < |es| {
      CounterGrows(es[..|es| - 1], n);
      assert es[..|es| - 1][..n] == es[..n];
      ApplyKeepsCounter(Run(es[..|es| - 1]), es[|es| - 1]);
      hide Apply;
    } else {
      assert es[..n] == es;
    }
  }

  /** No two registrations of a run ever get the same id, evictions or not. */
  lemma IdsNeverReused(es: seq<Event>, i: nat, j: nat)
    requires i < j < |es| && es[i].Register? && es[j].Register?
    ensures Run(es[..i]).nextId < Run(es[..j]).nextId
  {
    assert es[..i + 1][..i] == es[..i];
    CounterGrows(es[..j], i + 1);
    assert es[..j][..i + 1] == es[..i + 1];
  }

  /** A connection's entry by its own updates alone. */
  function Own(c: Conn, es: seq<Event>): Conn
    decreases |es|
  {
    if es == [] then c else
    var before, e := Own(c, es[..|es| - 1]), es[|es| - 1];
    if Touches(e, before.id) then Touched(before, e) else before
  }

  /** Is this what the registry has of connection `id`, if it still has it? It does while the connection is active. */
  ghost predicate Stands(s: State, id: nat, own: Conn)
  {
    && id < s.nextId && own.id == id
    && (id in s.conns ==> s.conns[id] == own)
    && (own.status == Active ==> id in s.conns)
  }

  /** The entry that event `i` opens. */
  function OpenedAt(es: seq<Event>, i: nat): Conn
    requires i < |es| && es[i].Register?
  {
    NewConn(Run(es[..i]).nextId, es[i].target, es[i].proxied, es[i].isTelegram, es[i].now)
  }

  /** Connections do not disturb each other, however their operations interleave: the entry of the connection
      registered at event `i` is at any later time what its own updates alone make of it, and while these leave it
      active no collection takes it away. */
  lemma {:induction false} EntryIsOwn(es: seq<Event>, i: nat, n: nat)
    requires Legal(es) && i < n <= |es| && es[i].Register?
    ensures Stands(Run(es[..n]), Run(es[..i]).nextId, Own(OpenedAt(es, i), es[i + 1..n]))
    decreases n
  {
    hide *;
    OneMoreEvent(es, n);
    OwnSnoc(OpenedAt(es, i), es, i, n);
    if n > i + 1 {
      EntryIsOwn(es, i, n - 1);
      EntryStep(Run(es[..n - 1]), es[n - 1], Run(es[..i]).nextId, Own(OpenedAt(es, i), es[i + 1..n - 1]));
    } else {
      EntryStarts(es, i);
    }
  }

  lemma OneMoreEvent(es: seq<Event>, n: nat)
    requires Legal(es) && 0 < n <= |es|
    ensures Run(es[..n]) == Apply(Run(es[..n - 1]), es[n - 1])
    ensures es[n - 1].Collect? ==> Fair(Run(es[..n - 1]).conns, es[n - 1].maxClosed, es[n - 1].evicted)
  {
    LegalPrefix(es, n);
    hide Apply, Fair;
    assert es[..n][..n - 1] == es[..n - 1];
  }

  lemma EntryStarts(es: seq<Event>, i: nat)
    requires i < |es| && es[i].Register?
    ensures Stands(Apply(Run(es[..i]), es[i]), Run(es[..i]).nextId, OpenedAt(es, i))
  {
    hide Run;
  }

  lemma OwnSnoc(c: Conn, es: seq<Event>, i: nat, n: nat)
    requires i < n <= |es|
    ensures n == i + 1 ==> Own(c, es[i + 1..n]) == c
    ensures n > i + 1 ==>
              var before := Own(c, es[i + 1..n - 1]);
              Own(c, es[i + 1..n]) == if Touches(es[n - 1], before.id) then Touched(before, es[n - 1]) else before
  {
    if n > i + 1 {
      assert es[i + 1..n][..n - i - 2] == es[i + 1..n - 1] && es[i + 1..n][n - i - 2] == es[n - 1];
    } else {
      assert es[i + 1..n] == [];
    }
  }

  lemma EntryStep(s: State, e: Event, id: nat, own: Conn)
    requires Stands(s, id, own) && (e.Collect? ==> Fair(s.conns, e.maxClosed, e.evicted))
    ensures Stands(Apply(s, e), id, if Touches(e, own.id) then Touched(own, e) else own)
  {
  }

  lemma {:induction false} ActiveByOwn(c: Conn, es: seq<Event>)
    requires c.status == Active
    ensures Own(c, es).id == c.id && (Own(c, es).status == Active <==> Close(c.id) !in es)
    decreases |es|
  {
    if es != [] {
      ActiveByOwn(c, es[..|es| - 1]);
      assert es == es[..|es| - 1] + [es[|es| - 1]];
    }
  }

  /** Over any run, a connection is in the registry and active if and only if nothing has closed it since it was
      registered. So one that is never closed is never evicted either, however old it gets. */
  lemma ActiveExactly(es: seq<Event>, i: nat, n: nat)
    requires Legal(es) && i < n <= |es| && es[i].Register?
    ensures var id, now := Run(es[..i]).nextId, Run(es[..n]).conns;
            id in now && now[id].status == Active <==> forall m :: i < m < n ==> es[m] != Close(id)
  {
    var id := Run(es[..i]).nextId;
    EntryIsOwn(es, i, n);
    ActiveByOwn(OpenedAt(es, i), es[i + 1..n]);
    hide Run, Legal, Own;
    forall m | i < m < n ensures es[i + 1..n][m - i - 1] == es[m] {}
    if Close(id) in es[i + 1..n] {
      var j :| 0 <= j < n - i - 1 && es[i + 1..n][j] == Close(id);
      assert es[i + 1 + j] == Close(id);
    }
  }

  /** What was reported for one connection. */
  function ReportedFor(es: seq<Event>, id: nat, upward: bool): nat
    decreases |es|
  {
    if es == [] then 0 else
    var e := es[|es| - 1];
    ReportedFor(es[..|es| - 1], id, upward)
    + (if e.UpdateBytes? && e.id == id then (if upward then e.up else e.down) else 0)
  }

  lemma {:induction false} ReportedAppend(a: seq<Event>, b: seq<Event>, id: nat, upward: bool)
    ensures ReportedFor(a + b, id, upward) == ReportedFor(a, id, upward) + ReportedFor(b, id, upward)
    decreases |b|
  {
    if b == [] {
      assert a + b == a;
    } else {
      ReportedAppend(a, b[..|b| - 1], id, upward);
      assert (a + b)[..|a + b| - 1] == a + b[..|b| - 1];
    }
  }

  lemma {:induction false} OwnCounts(c: Conn, es: seq<Event>)
    ensures var own := Own(c, es);
            && own.id == c.id
            && own.up == c.up + ReportedFor(es, c.id, true) && own.down == c.down + ReportedFor(es, c.id, false)
    decreases |es|
  {
    if es != [] { OwnCounts(c, es[..|es| - 1]); }
  }

  /** Over any run, whatever other connections do, the registry's counts of a connection it still has are the bytes
      reported for that connection since it was registered. */
  lemma CountsAreOwn(es: seq<Event>, i: nat, n: nat)
    requires Legal(es) && i < n <= |es| && es[i].Register?
    ensures var id, now := Run(es[..i]).nextId, Run(es[..n]).conns;
            id in now ==>
              && now[id].up == ReportedFor(es[i + 1..n], id, true)
              && now[id].down == ReportedFor(es[i + 1..n], id, false)
  {
    EntryIsOwn(es, i, n);
    OwnCounts(OpenedAt(es, i), es[i + 1..n]);
    hide Run, Own, ReportedFor;
  }

  /** The last route reported for one connection, if any was. */
  function LastRoute(es: seq<Event>, id: nat): Option<RouteType>
    decreases |es|
  {
    if es == [] then None else
    var e := es[|es| - 1];
    if e.UpdateRoute? && e.id == id then Some(e.route) else LastRoute(es[..|es| - 1], id)
  }

  lemma {:induction false} OwnIdentity(c: Conn, es: seq<Event>)
    ensures var own, route := Own(c, es), LastRoute(es, c.id);
            && own.id == c.id && own.host == c.host && own.port == c.port && own.start == c.start
            && own.isTelegram == c.isTelegram
            && own.route == (if route.Some? then route.value else c.route)
            && own.proxied == (if route.Some? then route.value != Direct else c.proxied)
    decreases |es|
  {
    if es != [] { OwnIdentity(c, es[..|es| - 1]); }
  }

  /** Over any run, the entry of a connection shows the host and port of its target where it can be split, when and as
      what it was registered, and the last route reported for it. */
  lemma ShownAsRegistered(es: seq<Event>, i: nat, n: nat)
    requires Legal(es) && i < n <= |es| && es[i].Register?
    ensures var id, now := Run(es[..i]).nextId, Run(es[..n]).conns;
            id in now ==>
              var c, e, split, route := now[id], es[i], Text.SplitTarget(es[i].target), LastRoute(es[i + 1..n], id);
              && c.id == id && c.start == e.now && c.isTelegram == e.isTelegram
              && (split.Some? ==> split.value == (c.host, c.port))
              && (split.None? ==> c.host == e.target && c.port == 0)
              && c.route == (if route.Some? then route.value else Direct)
              && c.proxied == (if route.Some? then route.value != Direct else e.proxied)
  {
    EntryIsOwn(es, i, n);
    OwnIdentity(OpenedAt(es, i), es[i + 1..n]);
    hide Run, Own, LastRoute, Text.SplitTarget;
  }

  lemma Traced(es: seq<Event>, e: Event)
    requires Legal(es) && (e.Collect? ==> Fair(Run(es).conns, e.maxClosed, e.evicted))
    ensures Run(es + [e]) == Apply(Run(es), e) && Legal(es + [e])
  {
    hide Fair, Apply;
    var more := es + [e];
    assert more[..|es|] == es;
  }

  // ---- the registry as the program writes it ----

  datatype Stats = Stats(active: nat, total: nat, proxied: nat, up: int, down: int)

  class ConnectionRegistry {
    var conns: Table
    var nextId: nat
    ghost var trace: seq<Event>

    ghost function Abstract(): State
      reads this
    {
      State(conns, nextId)
    }

    /** The registry is where a legal run of its operations leaves it. */
    ghost predicate Valid()
      reads this
    {
      Abstract() == Run(trace) && Legal(trace)
    }

    constructor ()
      ensures Valid() && Abstract() == INIT && trace == []
    {
      conns, nextId, trace := map[], 1, [];
    }

    method Register(target: string, proxied: bool, isTelegram: bool, now: nat) returns (id: nat)
      requires Valid()
      modifies this
      ensures Abstract() == Apply(old(Abstract()), Event.Register(target, proxied, isTelegram, now))
              && id == old(nextId)
      ensures Valid() && trace == old(trace) + [Event.Register(target, proxied, isTelegram, now)]
    {
      Traced(trace, Event.Register(target, proxied, isTelegram, now));
      assert Abstract() == Run(trace);
      hide Run, Legal, Text.SplitTarget;
      id := nextId;
      nextId := nextId + 1;
      var split := Text.SplitTarget(target);
      var host, port := target, 0;
      if split.Some? { host, port := split.value.0, split.value.1; }
      conns := conns[id := Conn(id, host, port, Direct, 0, 0, now, isTelegram, proxied, Active, None)];
      trace := trace + [Event.Register(target, proxied, isTelegram, now)];
    }

    /** Any one operation. */
    method Do(e: Event)
      requires Valid()
      modifies this
      ensures Valid() && old(trace) <= trace && |trace| == |old(trace)| + 1
      ensures var last := trace[|old(trace)|]; if e.Collect? then last.Collect? else last == e
    {
      match e
      case Register(target, proxied, isTelegram, now) => var id := Register(target, proxied, isTelegram, now);
      case UpdateRoute(id, route, reason) => UpdateRoute(id, route, reason);
      case UpdateBytes(id, up, down) => UpdateBytes(id, up, down);
      case Close(id) => Close(id);
      case Collect(maxClosed, _) => ghost var evicted := Gc(maxClosed);
    }

    method UpdateRoute(id: nat, route: RouteType, reason: Option<string>)
      requires Valid()
      modifies this
      ensures Abstract() == Apply(old(Abstract()), Event.UpdateRoute(id, route, reason))
      ensures Valid() && trace == old(trace) + [Event.UpdateRoute(id, route, reason)]
    {
      ghost var e := Event.UpdateRoute(id, route, reason);
      Traced(trace, e);
      assert Abstract() == Run(trace);
      hide Run, Legal;
      if id in conns {
        var c := conns[id].(route := route, proxied := route != Direct);
        if reason.Some? { c := c.(reason := reason); }
        assert c == Touched(conns[id], e);
        conns := conns[id := c];
      }
      trace := trace + [e];
    }

    method UpdateBytes(id: nat, up: nat, down: nat)
      requires Valid()
      modifies this
      ensures Abstract() == Apply(old(Abstract()), Event.UpdateBytes(id, up, down))
      ensures Valid() && trace == old(trace) + [Event.UpdateBytes(id, up, down)]
    {
      ghost var e := Event.UpdateBytes(id, up, down);
      Traced(trace, e);
      assert Abstract() == Run(trace);
      hide Run, Legal;
      if id in conns {
        var c := conns[id].(up := conns[id].up + up, down := conns[id].down + down);
        assert c == Touched(conns[id], e);
        conns := conns[id := c];
      }
      trace := trace + [e];
    }

    method Close(id: nat)
      requires Valid()
      modifies this
      ensures Abstract() == Apply(old(Abstract()), Event.Close(id))
      ensures id in old(conns) ==> id in conns
      ensures Valid() && trace == old(trace) + [Event.Close(id)]
    {
      Traced(trace, Event.Close(id));
      assert Abstract() == Run(trace);
      hide Run, Legal;
      if id in conns { conns := conns[id := conns[id].(status := Closed)]; }
      trace := trace + [Event.Close(id)];
    }

    method GetStats() returns (s: Stats)
      ensures s.total == |conns|
      ensures s.up == Total(conns, Bytes(true)) && s.down == Total(conns, Bytes(false))
      ensures s.active == Total(conns, Counts((c: Conn) => c.status == Active))
      ensures s.proxied == Total(conns, Counts((c: Conn) => c.proxied))
    {
      ghost var act, prox := Counts((c: Conn) => c.status == Active), Counts((c: Conn) => c.proxied);
      ghost var none: Table := map[];
      assert Total(none, Bytes(true)) == Total(none, Bytes(false)) == Total(none, act) == Total(none, prox) == 0;
      hide Total;
      s := Stats(0, |conns|, 0, 0, 0);
      var rest := conns;
      while rest != map[]
        invariant s.total == |conns|
        invariant s.up + Total(rest, Bytes(true)) == Total(conns, Bytes(true))
        invariant s.down + Total(rest, Bytes(false)) == Total(conns, Bytes(false))
        invariant s.active + Total(rest, act) == Total(conns, act)
        invariant s.proxied + Total(rest, prox) == Total(conns, prox)
        decreases |rest|
      {
        var id :| id in rest;
        var c := rest[id];
        TotalSplit(rest, id, Bytes(true));
        TotalSplit(rest, id, Bytes(false));
        TotalSplit(rest, id, act);
        TotalSplit(rest, id, prox);
        if c.status == Active { s := s.(active := s.active + 1); }
        if c.proxied { s := s.(proxied := s.proxied + 1); }
        s := s.(up := s.up + c.up, down := s.down + c.down);
        rest := rest - {id};
      }
    }

    /** Evict the oldest closed connections past the given number. */
    method Gc(maxClosed: nat) returns (ghost evicted: set<nat>)
      requires Valid()
      modifies this
      ensures Fair(old(conns), maxClosed, evicted)
      ensures Abstract() == Apply(old(Abstract()), Collect(maxClosed, evicted))
      ensures Valid() && trace == old(trace) + [Collect(maxClosed, evicted)]
    {
      evicted := EvictOldest(maxClosed);
      Traced(trace, Collect(maxClosed, evicted));
      hide Run, Legal, Fair;
      trace := trace + [Collect(maxClosed, evicted)];
    }

    method EvictOldest(maxClosed: nat) returns (ghost evicted: set<nat>)
      modifies this`conns
      ensures Fair(old(conns), maxClosed, evicted)
      ensures Abstract() == Apply(old(Abstract()), Collect(maxClosed, evicted))
    {
      hide Sort, Lists, Fair, Ids;
      var closed := ListClosed();
      ClosedCount(closed, conns);
      if |closed| <= maxClosed {
        NothingToEvict(conns, maxClosed);
        return {};
      }
      var a := new (nat, nat)[|closed|](i requires 0 <= i < |closed| => closed[i]);
      assert a[..] == closed;
      SortInPlace(a, Older);
      ghost var sorted := a[..];
      var toRemove := a.Length - maxClosed;
      OldestFirst(closed, conns, toRemove);
      evicted := Ids(sorted[..toRemove]);
      EvictFront(a, toRemove);
    }

    /** Remove the connections named at the front of the list. */
    method EvictFront(a: array<(nat, nat)>, n: nat)
      requires n <= a.Length
      modifies this`conns
      ensures conns == old(conns) - Ids(a[..n])
    {
      NoIds(a[..0]);
      assert conns - {} == conns;
      for i := 0 to n
        invariant conns == old(conns) - Ids(a[..i])
      {
        IdsSnoc(a[..], i);
        assert a[..][..i] == a[..i] && a[..][..i + 1] == a[..i + 1];
        hide Ids;
        conns := conns - {a[i].0};
      }
    }

    /** The closed connections and their start times, in whatever order the table gives them. */
    method ListClosed() returns (closed: seq<(nat, nat)>)
      ensures Lists(closed, conns, conns.Keys)
    {
      closed := [];
      var rest := conns.Keys;
      while rest != {}
        invariant rest <= conns.Keys && Lists(closed, conns, conns.Keys - rest)
        decreases |rest|
      {
        var id :| id in rest;
        ghost var seen := conns.Keys - rest;
        if conns[id].status == Closed {
          ListsOneMore(closed, conns, seen, id);
          closed := closed + [(id, conns[id].start)];
        }
        rest := rest - {id};
        assert conns.Keys - rest == seen + {id};
      }
      assert conns.Keys - {} == conns.Keys;
    }
  }

  function Counts(p: Conn -> bool): Conn -> int { (c: Conn) => if p(c) then 1 else 0 }

  predicate Older(a: (nat, nat), b: (nat, nat)) { a.1 <= b.1 }

  ghost function Ids(s: seq<(nat, nat)>): set<nat> { set i | 0 <= i < |s| :: s[i].0 }

  /** `closed` lists each closed connection among `seen` exactly once, with its start time. */
  ghost predicate Lists(closed: seq<(nat, nat)>, t: Table, seen: set<nat>)
  {
    && Ids(closed) == (set id | id in seen && id in t && t[id].status == Closed)
    && |Ids(closed)| == |closed|
    && (forall i :: 0 <= i < |closed| ==> closed[i].0 in t && closed[i].1 == t[closed[i].0].start)
  }

  lemma NoIds(s: seq<(nat, nat)>)
    ensures s == [] ==> Ids(s) == {}
  {
  }

  lemma NothingToEvict(t: Table, maxClosed: nat)
    requires |ClosedIds(t)| <= maxClosed
    ensures Fair(t, maxClosed, {}) && t - {} == t
  {
  }

  lemma IdsSnoc(s: seq<(nat, nat)>, i: nat)
    requires i < |s|
    ensures Ids(s[..i + 1]) == Ids(s[..i]) + {s[i].0}
  {
    forall x | x in Ids(s[..i]) + {s[i].0} ensures x in Ids(s[..i + 1]) {
      if x == s[i].0 {
        assert s[..i + 1][i].0 == x;
      } else {
        var j :| 0 <= j < i && s[..i][j].0 == x;
        assert s[..i + 1][j].0 == x;
      }
    }
  }

  lemma ListsOneMore(closed: seq<(nat, nat)>, t: Table, seen: set<nat>, id: nat)
    requires Lists(closed, t, seen) && id in t && id !in seen && t[id].status == Closed
    ensures Lists(closed + [(id, t[id].start)], t, seen + {id})
  {
    var more := closed + [(id, t[id].start)];
    IdsSnoc(more, |closed|);
    assert more[..|closed|] == closed && more[..|closed| + 1] == more;
  }

  lemma ClosedCount(closed: seq<(nat, nat)>, t: Table)
    requires Lists(closed, t, t.Keys)
    ensures |closed| == |ClosedIds(t)| && Ids(closed) == ClosedIds(t)
  {
    assert Ids(closed) == ClosedIds(t);
  }

  lemma {:induction false} IdsAtMost(s: seq<(nat, nat)>)
    ensures |Ids(s)| <= |s|
    decreases |s|
  {
    if s != [] {
      IdsAtMost(s[..|s| - 1]);
      IdsSnoc(s, |s| - 1);
      assert s[..|s|] == s;
    }
  }

  lemma IdsAppend(a: seq<(nat, nat)>, b: seq<(nat, nat)>)
    ensures Ids(a + b) == Ids(a) + Ids(b)
  {
    forall x | x in Ids(a) + Ids(b) ensures x in Ids(a + b) {
      if x in Ids(a) {
        var i :| 0 <= i < |a| && a[i].0 == x;
        assert (a + b)[i].0 == x;
      } else {
        var i :| 0 <= i < |b| && b[i].0 == x;
        assert (a + b)[|a| + i].0 == x;
      }
    }
  }

  /** The front of the sorted list of closed connections is a fair eviction. */
  lemma OldestFirst(closed: seq<(nat, nat)>, t: Table, k: nat)
    requires Lists(closed, t, t.Keys) && k <= |closed|
    ensures var sorted := Sort(closed, Older);
            && |sorted| == |closed| && Fair(t, |closed| - k, Ids(sorted[..k]))
  {
    var sorted := Sort(closed, Older);
    SortIsPermutation(closed, Older);
    SortIsLexicographic(closed, Older, (a, b) => true);
    hide Sort, Lists, Ids, ClosedIds;
    ClosedCount(closed, t);
    SameIds(closed, sorted);
    FrontSize(sorted, k);
    FrontIsOlder(closed, sorted, t, k);
  }

  /** Distinct ids stay distinct in any front part. */
  lemma FrontSize(sorted: seq<(nat, nat)>, k: nat)
    requires |Ids(sorted)| == |sorted| && k <= |sorted|
    ensures |Ids(sorted[..k])| == k && Ids(sorted[..k]) <= Ids(sorted)
            && Ids(sorted) - Ids(sorted[..k]) <= Ids(sorted[k..])
  {
    hide Ids;
    var front, back := sorted[..k], sorted[k..];
    assert sorted == front + back;
    IdsAppend(front, back);
    IdsAtMost(front);
    IdsAtMost(back);
    UnionSize(Ids(front), Ids(back));
  }

  lemma FrontIsOlder(closed: seq<(nat, nat)>, sorted: seq<(nat, nat)>, t: Table, k: nat)
    requires Lists(closed, t, t.Keys) && multiset(sorted) == multiset(closed) && k <= |sorted|
    requires forall i, j :: 0 <= i < j < |sorted| ==> Older(sorted[i], sorted[j])
    requires Ids(sorted) - Ids(sorted[..k]) <= Ids(sorted[k..])
    ensures forall a, b :: a in Ids(sorted[..k]) && b in Ids(sorted) - Ids(sorted[..k]) ==>
              a in t && b in t && t[a].start <= t[b].start
  {
    forall a, b | a in Ids(sorted[..k]) && b in Ids(sorted) - Ids(sorted[..k])
      ensures a in t && b in t && t[a].start <= t[b].start
    {
      var i :| 0 <= i < k && sorted[..k][i].0 == a;
      var j :| 0 <= j < |sorted| - k && sorted[k..][j].0 == b;
      StartListed(closed, sorted, t, i);
      StartListed(closed, sorted, t, k + j);
      assert Older(sorted[i], sorted[k + j]);
    }
  }

  lemma StartListed(closed: seq<(nat, nat)>, sorted: seq<(nat, nat)>, t: Table, i: nat)
    requires Lists(closed, t, t.Keys) && multiset(sorted) == multiset(closed) && i < |sorted|
    ensures sorted[i].0 in t && sorted[i].1 == t[sorted[i].0].start
  {
    assert sorted[i] in multiset(closed);
    var j :| 0 <= j < |closed| && closed[j] == sorted[i];
  }

  lemma SameIds(a: seq<(nat, nat)>, b: seq<(nat, nat)>)
    requires multiset(a) == multiset(b)
    ensures Ids(a) == Ids(b)
  {
    forall x | x in Ids(a) ensures x in Ids(b) {
      var i :| 0 <= i < |a| && a[i].0 == x;
      assert a[i] in multiset(b);
      var j :| 0 <= j < |b| && b[j] == a[i];
      assert b[j].0 == x;
    }
    forall x | x in Ids(b) ensures x in Ids(a) {
      var i :| 0 <= i < |b| && b[i].0 == x;
      assert b[i] in multiset(a);
      var j :| 0 <= j < |a| && a[j] == b[i];
      assert a[j].0 == x;
    }
  }

  lemma UnionSize(a: set<nat>, b: set<nat>)
    ensures |a + b| <= |a| + |b|
  {
    assert |a + b| + |a * b| == |a| + |b|;
  }
}
