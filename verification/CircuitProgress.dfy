/** Stop-and-wait over any number of hops makes progress: every answer the initiator waits for can still come. */
module CircuitProgress {
  import opened Sequences
  import opened Wire
  import opened Circuit
  import opened OnionRouter

  /** Steps the bytes upstream still have ahead of them: one for each stream to cross and one to be read. */
  function Ahead(c: seq<Bytes>): nat { if c == [] then 0 else |c[0]| * |c| + Ahead(c[1..]) }

  /** Streams the bytes downstream still have to cross. */
  function Behind(c: seq<Bytes>): nat
    decreases |c|
  {
    if c == [] then 0 else Behind(c[..|c| - 1]) + |c[|c| - 1]| * (|c| - 1)
  }

  /** What is left to happen before the initiator can read the answer of hop `k`. */
  ghost function Measure(net: Net, k: nat): nat
    requires k < |net.hops|
  {
    Ahead(net.up) + Behind(net.down) + if net.hops[k].route == Reading then k + 1 else 0
  }

  ghost predicate AllAlive(net: Net) { forall i :: 0 <= i < |net.hops| ==> net.hops[i].alive }

  lemma {:induction false} AheadMove(c: seq<Bytes>, i: nat)
    requires i + 1 < |c| && c[i] != []
    ensures Ahead(c[i := c[i][1..]][i + 1 := c[i + 1] + c[i][..1]]) == Ahead(c) - 1
  {
    var d := c[i := c[i][1..]][i + 1 := c[i + 1] + c[i][..1]];
    var n := |c|;
    if i == 0 {
      assert d[1..][1..] == c[1..][1..];
      assert Ahead(c) == |c[0]| * n + (|c[1]| * (n - 1) + Ahead(c[1..][1..]));
      assert Ahead(d) == (|c[0]| - 1) * n + ((|c[1]| + 1) * (n - 1) + Ahead(c[1..][1..]));
      OneLess(|c[0]|, n);
      OneMore(|c[1]|, n - 1);
    } else {
      AheadMove(c[1..], i - 1);
      assert d[1..] == c[1..][i - 1 := c[i][1..]][i := c[i + 1] + c[i][..1]];
    }
  }

  lemma {:induction false} AheadTakeLast(c: seq<Bytes>)
    requires c != [] && c[|c| - 1] != []
    ensures Ahead(c[|c| - 1 := c[|c| - 1][1..]]) == Ahead(c) - 1
  {
    var d := c[|c| - 1 := c[|c| - 1][1..]];
    if |c| > 1 {
      AheadTakeLast(c[1..]);
      assert d[1..] == c[1..][|c| - 2 := c[|c| - 1][1..]];
    }
  }

  lemma {:induction false} BehindMove(c: seq<Bytes>, i: nat)
    requires i + 1 < |c| && c[i + 1] != []
    ensures Behind(c[i := c[i] + c[i + 1][..1]][i + 1 := c[i + 1][1..]]) == Behind(c) - 1
    decreases |c|
  {
    var n := |c|;
    var d := c[i := c[i] + c[i + 1][..1]][i + 1 := c[i + 1][1..]];
    var init := c[..n - 1];
    if i + 2 == n {
      assert d[..n - 1][..n - 2] == init[..n - 2];
      assert Behind(c) == (Behind(init[..n - 2]) + |c[i]| * (n - 2)) + |c[i + 1]| * (n - 1);
      assert Behind(d) == (Behind(init[..n - 2]) + (|c[i]| + 1) * (n - 2)) + (|c[i + 1]| - 1) * (n - 1);
      OneMore(|c[i]|, n - 2);
      OneLess(|c[i + 1]|, n - 1);
    } else {
      BehindMove(init, i);
      assert d[..n - 1] == init[i := init[i] + init[i + 1][..1]][i + 1 := init[i + 1][1..]];
    }
  }

  lemma OneLess(a: nat, n: int)
    ensures (a - 1) * n == a * n - n
  {
  }

  lemma OneMore(a: nat, n: int)
    ensures (a + 1) * n == a * n + n
  {
  }

  lemma {:induction false} NothingAhead(c: seq<Bytes>)
    requires forall i :: 0 <= i < |c| ==> c[i] == []
    ensures Ahead(c) == 0
  {
    if c != [] { NothingAhead(c[1..]); }
  }

  lemma {:induction false} NothingBehind(c: seq<Bytes>)
    requires forall i :: 0 <= i < |c| ==> c[i] == []
    ensures Behind(c) == 0
    decreases |c|
  {
    if c != [] { NothingBehind(c[..|c| - 1]); }
  }

  /** Deciding puts one byte `k` streams away in place of the whole undecided frame. */
  lemma DecisionProgresses(net: Net, k: nat, r: Route)
    requires Ready(net, k) && |net.hops| == k + 1 && net.hops[k].route == Reading && r != Reading && |Answer(r)| == 1
    requires (forall i :: 0 <= i <= k ==> net.up[i] == []) && (forall i :: 0 <= i <= k ==> net.down[i] == [])
    ensures Measure(Settle(net, k, r), k) < Measure(net, k)
  {
    var net' := Settle(net, k, r);
    NothingAhead(net.up);
    NothingAhead(net'.up);
    NothingBehind(net.down[..k]);
    var answered := net.down[k := net.down[k] + Answer(r)];
    assert answered[..k] == net.down[..k];
    assert Behind(answered) == 0 + 1 * k;
    if r.Next? { assert net'.down[..k + 1] == answered; }
  }

  lemma NonemptyDown(c: seq<Bytes>) returns (i: nat)
    requires c != [] && c[0] == [] && Downstream(c) != []
    ensures 0 < i < |c| && c[i] != []
  {
    if c[1..] != [] && c[1] == [] {
      i := NonemptyDown(c[1..]);
      i := i + 1;
    } else {
      i := 1;
    }
  }

  lemma NonemptyUp(c: seq<Bytes>) returns (i: nat)
    requires Upstream(c) != []
    ensures i < |c| && c[i] != []
  {
    if c[0] == [] {
      i := NonemptyUp(c[1..]);
      i := i + 1;
    } else {
      i := 0;
    }
  }

  /** A handler's own move: it reads, decides or pipes. Crashes and bytes from the target are not. */
  predicate Handling(mv: Move) { mv.ReadByte? || mv.Decide? || mv.PipeUp? || mv.PipeDown? }

  // ---- every move of a handler is progress ----

  /** Whatever a handler does while the circuit is being built, less is left to do. */
  lemma HandlingShrinks(peers: set<Bytes>, net: Net, legs: seq<Leg>, k: nat, pending: Bytes, mv: Move)
    requires Routed(legs) && Framed(peers, legs) && Building(net, legs, k, pending)
    requires Handling(mv) && Step(peers, net, mv) != net
    ensures k < |Step(peers, net, mv).hops| && Measure(Step(peers, net, mv), k) < Measure(net, k)
  {
    if InFlight(net, legs, k, pending) {
      FlightShrinks(peers, net, legs, k, pending, mv);
    } else {
      AnswerShrinks(peers, net, legs, k, mv);
    }
  }

  lemma FlightShrinks(peers: set<Bytes>, net: Net, legs: seq<Leg>, k: nat, pending: Bytes, mv: Move)
    requires Routed(legs) && Framed(peers, legs) && InFlight(net, legs, k, pending)
    requires Handling(mv) && Step(peers, net, mv) != net
    ensures k < |Step(peers, net, mv).hops| && Measure(Step(peers, net, mv), k) < Measure(net, k)
  {
    EmptyChannels(net.down);
    RouteInFlight(net, legs, k, pending, mv.i);
    match mv
    case ReadByte(i) =>
      if i < k { SettledIdle(peers, net, legs, k, i, true); } else { AheadTakeLast(net.up); }
    case Decide(i, c) =>
      if i < k { SettledIdle(peers, net, legs, k, i, c); } else { DecidingShrinks(peers, net, legs, k, pending, c); }
    case PipeUp(i) => AheadMove(net.up, i);
    case PipeDown(_) =>
  }

  lemma DecidingShrinks(peers: set<Bytes>, net: Net, legs: seq<Leg>, k: nat, pending: Bytes, connects: bool)
    requires Routed(legs) && Framed(peers, legs) && InFlight(net, legs, k, pending) && Ready(net, k)
    requires DecideStep(peers, net, k, connects) != net
    ensures Measure(DecideStep(peers, net, k, connects), k) < Measure(net, k)
  {
    assert FramedLeg(peers, legs[k], k) && RoutedLeg(legs, k);
    CompleteBuffer(peers, net, legs, k, pending);
    EmptyChannels(net.up);
    EmptyChannels(net.down);
    var r := if connects then legs[k].route else Refused;
    assert DecideStep(peers, net, k, connects) == Settle(net, k, r);
    DecisionProgresses(net, k, r);
  }

  lemma AnswerShrinks(peers: set<Bytes>, net: Net, legs: seq<Leg>, k: nat, mv: Move)
    requires Routed(legs) && (Accepted(net, legs, k) || Rejected(net, legs, k, [0x01]))
    requires Handling(mv) && Step(peers, net, mv) != net
    ensures Step(peers, net, mv).hops == net.hops && Measure(Step(peers, net, mv), k) < Measure(net, k)
  {
    EmptyChannels(net.up);
    var settled := if Accepted(net, legs, k) then k + 1 else k;
    OnlyPipesDown(peers, net, legs, k, settled, mv);
    hide Accepted, Rejected, Routed;
    BehindMove(net.down, mv.i);
  }

  /** Once hop `k` has answered, handlers only bring bytes back. */
  lemma OnlyPipesDown(peers: set<Bytes>, net: Net, legs: seq<Leg>, k: nat, settled: nat, mv: Move)
    requires if Accepted(net, legs, k) then settled == k + 1 else Rejected(net, legs, k, [0x01]) && settled == k
    requires Routed(legs) && Handling(mv) && Step(peers, net, mv) != net
    requires forall i :: 0 <= i < |net.up| ==> net.up[i] == []
    ensures mv.PipeDown? && mv.i + 1 < |net.down| && net.down[mv.i + 1] != [] && k < |net.hops|
    ensures Ready(net, mv.i) && net.hops[mv.i].route.Next? && net.hops[mv.i].route.handler == mv.i + 1
  {
    if mv.i < settled {
      SettledIdle(peers, net, legs, settled, mv.i, mv.Decide? && mv.connects);
    }
  }

  /** How many of these moves change anything. */
  ghost function Effective(peers: set<Bytes>, net: Net, moves: seq<Move>): nat
    requires Shape(net)
    decreases |moves|
  {
    if moves == [] then 0 else
    (if Step(peers, net, moves[0]) != net then 1 else 0) + Effective(peers, Step(peers, net, moves[0]), moves[1..])
  }

  /** No schedule keeps the handlers busy for ever. */
  lemma {:induction false} SchedulesEnd(peers: set<Bytes>, net: Net, legs: seq<Leg>, k: nat, moves: seq<Move>)
    requires Routed(legs) && Framed(peers, legs) && Building(net, legs, k, [])
    requires forall i :: 0 <= i < |moves| ==> Handling(moves[i])
    ensures k < |net.hops| && Effective(peers, net, moves) <= Measure(net, k)
    decreases |moves|
  {
    if moves != [] {
      var next := Step(peers, net, moves[0]);
      if next != net { HandlingShrinks(peers, net, legs, k, [], moves[0]); }
      StepKeepsBuilding(peers, net, legs, k, [], moves[0]);
      hide InFlight, Accepted, Rejected, Step, Routed, Framed, Measure;
      SchedulesEnd(peers, next, legs, k, moves[1..]);
    }
  }

  // ---- until the answer is there, some handler can move ----

  /** While the initiator waits, a handler of hops all alive has a move that changes something, whichever way the
      connecting goes. */
  lemma SomethingMoves(peers: set<Bytes>, net: Net, legs: seq<Leg>, k: nat, connects: bool) returns (mv: Move)
    requires Routed(legs) && Framed(peers, legs) && Building(net, legs, k, []) && AllAlive(net) && net.down[0] == []
    ensures Handling(mv) && Step(peers, net, mv) != net && (mv.Decide? ==> mv.connects == connects)
  {
    if InFlight(net, legs, k, []) {
      mv := FlightMoves(peers, net, legs, k, connects);
    } else {
      mv := AnswerMoves(peers, net, legs, k);
    }
  }

  lemma AnswerMoves(peers: set<Bytes>, net: Net, legs: seq<Leg>, k: nat) returns (mv: Move)
    requires Routed(legs) && (Accepted(net, legs, k) || Rejected(net, legs, k, [0x01])) && AllAlive(net)
    requires net.down[0] == []
    ensures mv.PipeDown? && Step(peers, net, mv) != net
  {
    var settled := if Accepted(net, legs, k) then k + 1 else k;
    assert Downstream(net.down) != [];
    var i := NonemptyDown(net.down);
    SettledIdle(peers, net, legs, settled, i - 1, true);
    mv := PipeDown(i - 1);
    assert |Step(peers, net, mv).down[i]| == |net.down[i]| - 1;
  }

  lemma FlightMoves(peers: set<Bytes>, net: Net, legs: seq<Leg>, k: nat, connects: bool) returns (mv: Move)
    requires Routed(legs) && Framed(peers, legs) && InFlight(net, legs, k, []) && AllAlive(net)
    ensures Handling(mv) && Step(peers, net, mv) != net && (mv.Decide? ==> mv.connects == connects)
  {
    var f, buf := legs[k].frame, net.hops[k].buf;
    assert FramedLeg(peers, legs[k], k) && RoutedLeg(legs, k);
    if Wanted(buf) == 0 {
      CompleteBuffer(peers, net, legs, k, []);
      mv := Decide(k, connects);
      assert Step(peers, net, mv).hops[k].route != Reading;
    } else {
      assert buf + Upstream(net.up) == f;
      assert buf == f[..|buf|];
      assert Upstream(net.up) != [] by { assert |buf| == |f| ==> buf == f; }
      var i := NonemptyUp(net.up);
      RouteInFlight(net, legs, k, [], i);
      mv := if i == k then ReadByte(k) else PipeUp(i);
      assert |Step(peers, net, mv).up[i]| == |net.up[i]| - 1;
    }
  }

  /** Where no handler can move any more, the initiator has its answer. With `SchedulesEnd`, every schedule
      that goes on while it can brings it. */
  lemma StillMeansAnswered(peers: set<Bytes>, net: Net, legs: seq<Leg>, k: nat)
    requires Routed(legs) && Framed(peers, legs) && Building(net, legs, k, []) && AllAlive(net)
    requires forall mv :: Handling(mv) ==> Step(peers, net, mv) == net
    ensures net.down != [] && net.down[0] != []
  {
    if net.down[0] == [] {
      var mv := SomethingMoves(peers, net, legs, k, true);
      assert false;
    }
  }

  // ---- to the answer, either way ----

  /** Frame `k` is out, or answered as `connects` says. */
  ghost predicate Heading(net: Net, legs: seq<Leg>, k: nat, connects: bool)
  {
    InFlight(net, legs, k, []) || Answers(net, legs, k, connects)
  }

  ghost predicate Answers(net: Net, legs: seq<Leg>, k: nat, connects: bool)
  {
    if connects then Accepted(net, legs, k) else Rejected(net, legs, k, [0x01])
  }

  lemma StaysHeading(peers: set<Bytes>, net: Net, legs: seq<Leg>, k: nat, connects: bool, mv: Move)
    requires Routed(legs) && Framed(peers, legs) && Heading(net, legs, k, connects) && AllAlive(net)
    requires Handling(mv) && (mv.Decide? ==> mv.connects == connects)
    ensures Heading(Step(peers, net, mv), legs, k, connects) && AllAlive(Step(peers, net, mv))
  {
    HandlingKeepsAlive(peers, net, mv);
    hide AllAlive, Step, InFlight, Accepted, Rejected, Routed, Framed;
    StepKeepsBuilding(peers, net, legs, k, [], mv);
    if InFlight(net, legs, k, []) {
      DecidesAsTold(peers, net, legs, k, connects, mv);
    } else {
      StaysAnswered(peers, net, legs, k, connects, mv);
    }
  }

  lemma HandlingKeepsAlive(peers: set<Bytes>, net: Net, mv: Move)
    requires Shape(net) && AllAlive(net) && Handling(mv)
    ensures AllAlive(Step(peers, net, mv))
  {
    hide RouteFor, Wanted, Body;
  }

  lemma StaysAnswered(peers: set<Bytes>, net: Net, legs: seq<Leg>, k: nat, connects: bool, mv: Move)
    requires Routed(legs) && Answers(net, legs, k, connects)
    ensures Answers(Step(peers, net, mv), legs, k, connects)
  {
    if Ready(net, mv.i) {
      hide Accepted, Rejected, Routed;
      if connects { StepAccepted(peers, net, legs, k, mv); } else { StepRejected(peers, net, legs, k, [0x01], mv); }
    }
  }

  lemma DecidesAsTold(peers: set<Bytes>, net: Net, legs: seq<Leg>, k: nat, connects: bool, mv: Move)
    requires Routed(legs) && InFlight(net, legs, k, []) && (mv.Decide? ==> mv.connects == connects)
    ensures Accepted(Step(peers, net, mv), legs, k) ==> connects
    ensures Rejected(Step(peers, net, mv), legs, k, [0x01]) ==> !connects
  {
    assert RoutedLeg(legs, k);
    var next := Step(peers, net, mv);
    if Accepted(next, legs, k) { assert Settled(next.hops[k], legs[k]); }
  }

  /** While the initiator waits and no hop has died, some schedule brings it the answer, and either answer: over any
      number of hops and from any reachable arrangement of the bytes. */
  lemma {:induction false} AnswerComes(peers: set<Bytes>, net: Net, legs: seq<Leg>, k: nat, connects: bool)
    returns (moves: seq<Move>)
    requires Routed(legs) && Framed(peers, legs) && Heading(net, legs, k, connects) && AllAlive(net)
    ensures var after := Run(peers, net, moves);
            Answers(after, legs, k, connects) && AllAlive(after) && after.down != [] && after.down[0] != []
    decreases Measure(net, k)
  {
    if net.down[0] != [] {
      if InFlight(net, legs, k, []) { NoEarlyAnswer(net, legs, k, []); }
      return [];
    }
    var mv := SomethingMoves(peers, net, legs, k, connects);
    HandlingShrinks(peers, net, legs, k, [], mv);
    StaysHeading(peers, net, legs, k, connects, mv);
    hide InFlight, Accepted, Rejected, Step, Routed, Framed, Measure, Heading, Answers;
    var rest := AnswerComes(peers, Step(peers, net, mv), legs, k, connects);
    moves := [mv] + rest;
    assert moves[1..] == rest;
  }

  // ---- a circuit can be built ----

  ghost function Opening(first: Bytes): Session
  {
    Session(Net([Hop(first, [], Reading, true)], [[]], [[]], [], []), [], [])
  }

  ghost function Networks(moves: seq<Move>): seq<Use> { Map(moves, (mv: Move) => Network(mv)) }

  lemma {:induction false} UseNetworks(peers: set<Bytes>, s: Session, moves: seq<Move>)
    requires Shape(s.net) && s.net.hops != []
    ensures UseAll(peers, s, Networks(moves)) == s.(net := Run(peers, s.net, moves))
    decreases |moves|
  {
    hide Step;
    if moves != [] {
      assert Networks(moves)[1..] == Networks(moves[1..]);
      UseNetworks(peers, s.(net := Step(peers, s.net, moves[0])), moves[1..]);
    }
  }

  lemma {:induction false} UseAppend(peers: set<Bytes>, s: Session, a: seq<Use>, b: seq<Use>)
    requires Shape(s.net) && s.net.hops != []
    ensures UseAll(peers, s, a + b) == UseAll(peers, UseAll(peers, s, a), b)
    decreases |a|
  {
    hide Use1;
    if a == [] {
      assert a + b == b;
    } else {
      assert (a + b)[1..] == a[1..] + b;
      UseAppend(peers, Use1(peers, s, a[0]), a[1..], b);
    }
  }

  /** Where the circuit stands once `k` answers have been taken, all of them good. */
  ghost predicate Reached(s: Session, legs: seq<Leg>, k: nat)
  {
    && AllAlive(s.net) && s.read == Zeros(k)
    && (if k < |legs| then InFlight(s.net, legs, k, legs[k].frame) else k == |legs| && Established(s.net, legs, [], []))
  }

  lemma ReachedShape(s: Session, legs: seq<Leg>, k: nat)
    requires Reached(s, legs, k) && legs != []
    ensures Shape(s.net) && s.net.hops != []
  {
  }

  /** One frame written, carried, accepted, and its answer read. */
  lemma OneLeg(peers: set<Bytes>, legs: seq<Leg>, s: Session, k: nat) returns (us: seq<Use>)
    requires Routed(legs) && Framed(peers, legs) && k < |legs| && Reached(s, legs, k)
    ensures Shape(s.net) && s.net.hops != [] && Reached(UseAll(peers, s, us), legs, k + 1)
  {
    var frame := legs[k].frame;
    assert frame + [] == frame;
    WriteIntoFlight(s.net, legs, k, frame, []);
    var s1 := Use1(peers, s, Write(frame));
    var moves := AnswerComes(peers, s1.net, legs, k, true);
    var s2 := s1.(net := Run(peers, s1.net, moves));
    ReadAnswer(peers, legs, s2, k);
    us := [Write(frame)] + Networks(moves) + [Read];
    hide Run, Accepted, InFlight, Reached, Routed, Framed;
    UseNetworks(peers, s1, moves);
    UseAppend(peers, s, [Write(frame)], Networks(moves));
    UseAppend(peers, s, [Write(frame)] + Networks(moves), [Read]);
    assert UseAll(peers, s, [Write(frame)]) == s1;
    assert UseAll(peers, s2, [Read]) == Use1(peers, s2, Read);
  }

  lemma ReadAnswer(peers: set<Bytes>, legs: seq<Leg>, s: Session, k: nat)
    requires k < |legs| && Accepted(s.net, legs, k) && AllAlive(s.net) && s.net.down[0] != [] && s.read == Zeros(k)
    ensures Reached(Use1(peers, s, Read), legs, k + 1)
  {
    TakeAccept(s.net, legs, k);
    hide InFlight, Established, Accepted;
    assert Zeros(k) + s.net.down[0][..1] == Zeros(k + 1);
    assert Use1(peers, s, Read).net == TakeAnswer(s.net);
  }

  lemma {:induction false} LegsSucceed(peers: set<Bytes>, legs: seq<Leg>, s: Session, k: nat) returns (us: seq<Use>)
    requires Routed(legs) && Framed(peers, legs) && k <= |legs| && legs != [] && Reached(s, legs, k)
    ensures Shape(s.net) && s.net.hops != [] && Reached(UseAll(peers, s, us), legs, |legs|)
    decreases |legs| - k
  {
    hide Reached, Routed, Framed, Use1;
    ReachedShape(s, legs, k);
    if k == |legs| { return []; }
    var one := OneLeg(peers, legs, s, k);
    var rest := LegsSucceed(peers, legs, UseAll(peers, s, one), k + 1);
    UseAppend(peers, s, one, rest);
    us := one + rest;
  }

  lemma OpenedReaches(legs: seq<Leg>)
    requires legs != []
    ensures Reached(Opening(legs[0].peer), legs, 0)
  {
    StartsInFlight(legs, Opening(legs[0].peer).net);
    NoZeros();
  }

  /** Building can succeed: for every path of known peers and every target within reach there are writes, moves of the
      network and reads that take the opened stream to the whole circuit, one good answer a hop. */
  lemma CircuitCanBeBuilt(peers: set<Bytes>, path: seq<Bytes>, target: Bytes) returns (us: seq<Use>)
    requires WellPosed(peers, path, target)
    ensures var s := UseAll(peers, Opening(path[0]), us);
            Established(s.net, Legs(path, target), [], []) && s.read == Zeros(|path|)
  {
    var legs := Legs(path, target);
    LegsAreProper(peers, path, target);
    LegAt(path, target, 0);
    assert legs != [] && legs[0].peer == path[0];
    OpenedReaches(legs);
    assert Reached(Opening(path[0]), legs, 0);
    hide *;
    assert |legs| == |path|;
    us := LegsSucceed(peers, legs, Opening(path[0]), 0);
  }
}
