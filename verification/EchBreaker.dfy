/** The relay client's circuit breaker for Encrypted Client Hello, and the one retry of a connect. */
module EchBreaker {
  import opened Wrappers

  /** A reading of the process's monotonic clock, in nanoseconds. */
  type Instant = nat

  const COOLDOWN: nat := 600_000_000_000

  const SECOND: nat := 1_000_000_000

  /** The breaker's three operations, each atomic, in the order the lock serves them to however many connects. */
  datatype Event = Ask(now: Instant) | Failed(now: Instant) | Accepted

  type Gate = Option<Instant>

  predicate Allows(g: Gate, now: Instant) { g.None? || g.value <= now }

  function Step(g: Gate, e: Event): Gate
  {
    match e
    case Ask(now) => if Allows(g, now) then None else g
    case Failed(now) => Some(now + COOLDOWN)
    case Accepted => None
  }

  function Run(es: seq<Event>): Gate
    decreases |es|
  {
    if es == [] then None else Step(Run(es[..|es| - 1]), es[|es| - 1])
  }

  /** The latest recorded failure no accepted handshake has cleared since. */
  function Outstanding(es: seq<Event>): Option<Instant>
    decreases |es|
  {
    if es == [] then None else
    match es[|es| - 1]
    case Ask(_) => Outstanding(es[..|es| - 1])
    case Failed(now) => Some(now)
    case Accepted => None
  }

  predicate Timed(e: Event) { !e.Accepted? }

  predicate Monotone(es: seq<Event>)
  {
    forall i, j :: 0 <= i < j < |es| && Timed(es[i]) && Timed(es[j]) ==> es[i].now <= es[j].now
  }

  ghost predicate Explains(es: seq<Event>, g: Gate, now: Instant)
  {
    match Outstanding(es)
    case None => g.None?
    case Some(t) => g == Some(t + COOLDOWN) || (g.None? && t + COOLDOWN <= now)
  }

  lemma {:induction false} GateExplained(es: seq<Event>, now: Instant)
    requires Monotone(es) && forall i :: 0 <= i < |es| && Timed(es[i]) ==> es[i].now <= now
    ensures Explains(es, Run(es), now)
    decreases |es|
  {
    if es != [] {
      var init, e := es[..|es| - 1], es[|es| - 1];
      var then' := if Timed(e) then e.now else now;
      forall i | 0 <= i < |init| && Timed(init[i]) ensures init[i].now <= then' {
        assert init[i] == es[i];
      }
      GateExplained(init, then');
    }
  }

  /** An ECH attempt is allowed exactly when no failure is outstanding, or the latest one is at least ten minutes
      old. */
  lemma AllowedExactly(es: seq<Event>, now: Instant)
    requires Monotone(es + [Ask(now)])
    ensures Allows(Run(es), now) <==> Outstanding(es).None? || Outstanding(es).value + 600 * SECOND <= now
  {
    var all := es + [Ask(now)];
    forall i | 0 <= i < |es| && Timed(es[i]) ensures es[i].now <= now {
      assert all[i] == es[i] && all[|es|] == Ask(now);
    }
    assert Monotone(es) by {
      forall i, j | 0 <= i < j < |es| && Timed(es[i]) && Timed(es[j]) ensures es[i].now <= es[j].now {
        assert all[i] == es[i] && all[j] == es[j];
      }
    }
    GateExplained(es, now);
  }

  /** An attempt allowed after a failure comes at least ten minutes after it, unless something was accepted in
      between. */
  lemma QuietAfterFailure(es: seq<Event>, i: nat, j: nat)
    requires Monotone(es) && i < j < |es| && es[i].Failed? && es[j].Ask?
    requires forall m :: i < m < j ==> !es[m].Accepted?
    requires Allows(Run(es[..j]), es[j].now)
    ensures es[i].now + 600 * SECOND <= es[j].now
  {
    assert es[..j] + [Ask(es[j].now)] == es[..j + 1];
    AllowedExactly(es[..j], es[j].now);
    OutstandingSince(es, i, j);
  }

  lemma {:induction false} OutstandingSince(es: seq<Event>, i: nat, j: nat)
    requires Monotone(es) && i < j <= |es| && es[i].Failed?
    requires forall m :: i < m < j ==> !es[m].Accepted?
    ensures Outstanding(es[..j]).Some? && Outstanding(es[..j]).value >= es[i].now
    decreases j
  {
    assert es[..j][..j - 1] == es[..j - 1];
    if j > i + 1 { OutstandingSince(es, i, j - 1); }
  }

  // ---- as the program writes it ----

  class Breaker {
    var disabledUntil: Gate

    constructor ()
      ensures disabledUntil == Run([])
    {
      disabledUntil := None;
    }

    method ShouldAttempt(now: Instant) returns (ok: bool)
      modifies this
      ensures ok == Allows(old(disabledUntil), now) && disabledUntil == Step(old(disabledUntil), Ask(now))
    {
      match disabledUntil
      case Some(until) =>
        if until > now { return false; }
        disabledUntil := None;
        return true;
      case None => return true;
    }

    method RecordFailure(now: Instant)
      modifies this
      ensures disabledUntil == Step(old(disabledUntil), Failed(now))
    {
      disabledUntil := Some(now + COOLDOWN);
    }

    method Clear()
      modifies this
      ensures disabledUntil == Step(old(disabledUntil), Accepted)
    {
      disabledUntil := None;
    }
  }

  /** How one attempt to connect ends: name lookup, TCP, server name and TLS handshake together. */
  datatype Attempt = Broke | Done(echAccepted: bool)

  /** What a connect finds: whether an ECH configuration is published and usable, how its attempts end, and when. */
  datatype World = World(published: bool, enables: bool, first: Attempt, second: Attempt,
                         asked: Instant, broke: Instant)

  /** One connect to the relay. `tried` lists its attempts, true where ECH was configured; `ops` what it did to
      the breaker. */
  method ConnectRelay(b: Breaker, w: World) returns (ok: bool, tried: seq<bool>, ops: seq<Event>)
    modifies b
    ensures b.disabledUntil == Applied(old(b.disabledUntil), ops)
    ensures var ech := Allows(old(b.disabledUntil), w.asked) && w.published;
            && (tried == [] <==> ech && !w.enables)
            && (tried != [] ==> tried[0] == ech)
    ensures |tried| <= 2 && (|tried| == 2 <==> tried != [] && tried[0] && w.first.Broke?)
    ensures |tried| == 2 ==> tried == [true, false]
    ensures true in tried ==> Allows(old(b.disabledUntil), w.asked) && w.published
    ensures forall t :: Failed(t) in ops <==> t == w.broke && tried != [] && tried[0] && w.first.Broke?
    ensures |ops| >= 1 && ops[0] == Ask(w.asked) && forall i :: 0 < i < |ops| ==> !ops[i].Ask?
    ensures Accepted in ops <==> tried != [] && tried[0] && w.first == Done(true)
    ensures ok <==> tried != [] && (if |tried| == 1 then w.first.Done? else w.second.Done?)
  {
    var attempt := b.ShouldAttempt(w.asked);
    ops := [Ask(w.asked)];
    ghost var g0 := old(b.disabledUntil);
    assert Applied(g0, ops) == Step(g0, Ask(w.asked)) by { assert ops[..0] == []; }
    var configured := false;
    if attempt && w.published {
      if !w.enables { return false, [], ops; }
      configured := true;
    }
    tried := [configured];
    match w.first
    case Done(accepted) =>
      if configured && accepted {
        b.Clear();
        AppliedSnoc(g0, ops, Accepted);
        ops := ops + [Accepted];
      }
      return true, tried, ops;
    case Broke =>
      if !configured { return false, tried, ops; }
      b.RecordFailure(w.broke);
      AppliedSnoc(g0, ops, Failed(w.broke));
      ops := ops + [Failed(w.broke)];
      assert ops[1] == Failed(w.broke);
      tried := tried + [false];
      return w.second.Done?, tried, ops;
  }

  function Applied(g: Gate, ops: seq<Event>): Gate
    decreases |ops|
  {
    if ops == [] then g else Step(Applied(g, ops[..|ops| - 1]), ops[|ops| - 1])
  }

  lemma AppliedSnoc(g: Gate, ops: seq<Event>, e: Event)
    ensures Applied(g, ops + [e]) == Step(Applied(g, ops), e)
  {
    assert (ops + [e])[..|ops|] == ops;
  }
}
