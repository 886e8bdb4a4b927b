/**
 The network under a multi-hop circuit: one tunnel handler per contacted hop, and a FIFO byte channel
 in each direction of every tunnel stream. Channel `i` joins handler `i` to the party before it
 (channel 0 to the initiator).
 */
module Circuit {
  import opened Sequences
  import opened Wire

  datatype Route =
    | Reading                            // still reading its header
    | Next(peer: Bytes, handler: nat)    // piping to another handler
    | Exit(addr: Bytes)                  // piping to a TCP connection
    | Refused                            // answered 0x01 and stopped
    | Aborted                            // header was not text, or named no peer: stopped without an answer

  datatype Hop = Hop(peer: Bytes, buf: Bytes, route: Route, alive: bool)

  /** `delivered` is what has reached the TCP target, `sent` what the target has sent back. */
  datatype Net = Net(hops: seq<Hop>, up: seq<Bytes>, down: seq<Bytes>, delivered: Bytes, sent: Bytes)

  /** What a scheduler may let happen next: the handlers' own moves, the target sending a byte, a handler dying. */
  datatype Move =
    | ReadByte(i: nat)
    | Decide(i: nat, connects: bool)
    | PipeUp(i: nat)
    | PipeDown(i: nat)
    | Emit(i: nat, b: byte)
    | Crash(i: nat)

  predicate Shape(net: Net) { |net.up| == |net.hops| && |net.down| == |net.hops| }

  function RouteFor(peers: set<Bytes>, text: Bytes, connects: bool, next: nat): Route
  {
    if !ValidUtf8(text) then Aborted
    else if StartsWith(text, PEER_PREFIX) then
      if text[|PEER_PREFIX|..] !in peers then Aborted
      else if connects then Next(text[|PEER_PREFIX|..], next) else Refused
    else if connects then Exit(text) else Refused
  }

  function Answer(r: Route): Bytes
  {
    match r
    case Next(_, _) => [0x00]
    case Exit(_) => [0x00]
    case Refused => [0x01]
    case _ => []
  }

  predicate Ready(net: Net, i: nat) { Shape(net) && i < |net.hops| && net.hops[i].alive }

  /** The header's two `read_exact` calls take one byte at a time and stop where the header ends. */
  function ReadStep(net: Net, i: nat): Net
    requires Ready(net, i)
  {
    var h := net.hops[i];
    if h.route.Reading? && Wanted(h.buf) > 0 && net.up[i] != [] then
      net.(hops := net.hops[i := h.(buf := h.buf + net.up[i][..1])], up := net.up[i := net.up[i][1..]])
    else net
  }

  /** A complete header decides where the handler pipes to; a handler at a next hop starts when its stream opens. */
  function DecideStep(peers: set<Bytes>, net: Net, i: nat, connects: bool): Net
    requires Ready(net, i)
  {
    var h := net.hops[i];
    if h.route.Reading? && |h.buf| >= 2 && Wanted(h.buf) == 0 then
      Settle(net, i, RouteFor(peers, Body(h.buf), connects, |net.hops|))
    else net
  }

  function Settle(net: Net, i: nat, r: Route): Net
    requires Ready(net, i)
  {
    var net' := net.(hops := net.hops[i := net.hops[i].(route := r)], down := net.down[i := net.down[i] + Answer(r)]);
    if r.Next? then
      net'.(hops := net'.hops + [Hop(r.peer, [], Reading, true)], up := net'.up + [[]], down := net'.down + [[]])
    else net'
  }

  function PipeUpStep(net: Net, i: nat): Net
    requires Ready(net, i)
  {
    var r := net.hops[i].route;
    if net.up[i] == [] then net
    else if r.Exit? then net.(up := net.up[i := net.up[i][1..]], delivered := net.delivered + net.up[i][..1])
    else if r.Next? && i < r.handler < |net.hops| then
      net.(up := net.up[i := net.up[i][1..]][r.handler := net.up[r.handler] + net.up[i][..1]])
    else net
  }

  function PipeDownStep(net: Net, i: nat): Net
    requires Ready(net, i)
  {
    var r := net.hops[i].route;
    if r.Next? && i < r.handler < |net.hops| && net.down[r.handler] != [] then
      net.(down := net.down[i := net.down[i] + net.down[r.handler][..1]][r.handler := net.down[r.handler][1..]])
    else net
  }

  function EmitStep(net: Net, i: nat, b: byte): Net
    requires Ready(net, i)
  {
    if net.hops[i].route.Exit? then net.(down := net.down[i := net.down[i] + [b]], sent := net.sent + [b]) else net
  }

  function CrashStep(net: Net, i: nat): Net
    requires Ready(net, i)
  {
    net.(hops := net.hops[i := net.hops[i].(alive := false)])
  }

  /** One move of the network. A move that is not possible changes nothing. */
  function Step(peers: set<Bytes>, net: Net, mv: Move): (r: Net)
    requires Shape(net)
    ensures Shape(r) && |r.hops| >= |net.hops|
  {
    if !Ready(net, mv.i) then net else
    match mv
    case ReadByte(i) => ReadStep(net, i)
    case Decide(i, connects) => DecideStep(peers, net, i, connects)
    case PipeUp(i) => PipeUpStep(net, i)
    case PipeDown(i) => PipeDownStep(net, i)
    case Emit(i, b) => EmitStep(net, i, b)
    case Crash(i) => CrashStep(net, i)
  }

  function Run(peers: set<Bytes>, net: Net, moves: seq<Move>): (r: Net)
    requires Shape(net)
    ensures Shape(r) && |r.hops| >= |net.hops|
    decreases |moves|
  {
    if moves == [] then net else Run(peers, Step(peers, net, moves[0]), moves[1..])
  }

  // ---- channels read as one stream ----

  /** Everything on its way to the far end, oldest byte first. */
  ghost function Upstream(c: seq<Bytes>): Bytes { if c == [] then [] else Upstream(c[1..]) + c[0] }

  /** Everything on its way back to the initiator, oldest byte first. */
  ghost function Downstream(c: seq<Bytes>): Bytes { if c == [] then [] else c[0] + Downstream(c[1..]) }

  lemma {:induction false} UpstreamMove(c: seq<Bytes>, i: nat)
    requires i + 1 < |c| && c[i] != []
    ensures Upstream(c[i := c[i][1..]][i + 1 := c[i + 1] + c[i][..1]]) == Upstream(c)
  {
    var d := c[i := c[i][1..]][i + 1 := c[i + 1] + c[i][..1]];
    if i == 0 {
      assert d[1..][1..] == c[1..][1..];
      calc {
        Upstream(d);
        (Upstream(c[1..][1..]) + (c[1] + c[0][..1])) + c[0][1..];
        { assert c[0] == c[0][..1] + c[0][1..]; }
        (Upstream(c[1..][1..]) + c[1]) + c[0];
        Upstream(c);
      }
    } else {
      UpstreamMove(c[1..], i - 1);
      assert d[1..] == c[1..][i - 1 := c[i][1..]][i := c[i + 1] + c[i][..1]];
    }
  }

  lemma {:induction false} DownstreamMove(c: seq<Bytes>, i: nat)
    requires i + 1 < |c| && c[i + 1] != []
    ensures Downstream(c[i := c[i] + c[i + 1][..1]][i + 1 := c[i + 1][1..]]) == Downstream(c)
  {
    var d := c[i := c[i] + c[i + 1][..1]][i + 1 := c[i + 1][1..]];
    if i == 0 {
      assert d[1..][1..] == c[1..][1..];
      calc {
        Downstream(d);
        (c[0] + c[1][..1]) + (c[1][1..] + Downstream(c[1..][1..]));
        { assert c[1] == c[1][..1] + c[1][1..]; }
        c[0] + (c[1] + Downstream(c[1..][1..]));
        Downstream(c);
      }
    } else {
      DownstreamMove(c[1..], i - 1);
      assert d[1..] == c[1..][i - 1 := c[i] + c[i + 1][..1]][i := c[i + 1][1..]];
    }
  }

  /** Taking a byte out at the far end takes the oldest byte of the whole stream. */
  lemma {:induction false} UpstreamTakeLast(c: seq<Bytes>)
    requires c != [] && c[|c| - 1] != []
    ensures c[|c| - 1][..1] + Upstream(c[|c| - 1 := c[|c| - 1][1..]]) == Upstream(c)
  {
    var b, d := c[|c| - 1][..1], c[|c| - 1 := c[|c| - 1][1..]];
    if |c| == 1 {
      assert Upstream(c) == c[0] && Upstream(d) == d[0];
    } else {
      UpstreamTakeLast(c[1..]);
      assert Upstream(c) == Upstream(c[1..]) + c[0] && Upstream(d) == Upstream(d[1..]) + d[0];
      hide Upstream;
      assert d[1..] == c[1..][|c| - 2 := c[|c| - 1][1..]];
      Assoc(b, Upstream(d[1..]), c[0]);
    }
  }

  lemma {:induction false} DownstreamAppendLast(c: seq<Bytes>, b: Bytes)
    requires c != []
    ensures Downstream(c[|c| - 1 := c[|c| - 1] + b]) == Downstream(c) + b
  {
    var d := c[|c| - 1 := c[|c| - 1] + b];
    if |c| == 1 {
      assert d == [c[0] + b];
    } else {
      DownstreamAppendLast(c[1..], b);
      assert Downstream(c) == c[0] + Downstream(c[1..]) && Downstream(d) == d[0] + Downstream(d[1..]);
      hide Downstream;
      assert d[1..] == c[1..][|c| - 2 := c[|c| - 1] + b];
      Assoc(c[0], Downstream(c[1..]), b);
    }
  }

  lemma {:induction false} AppendEmptyChannel(c: seq<Bytes>)
    ensures Upstream(c + [[]]) == Upstream(c) && Downstream(c + [[]]) == Downstream(c)
  {
    if c == [] {
    } else {
      AppendEmptyChannel(c[1..]);
      assert (c + [[]])[1..] == c[1..] + [[]];
    }
  }

  lemma {:induction false} EmptyChannels(c: seq<Bytes>)
    ensures Upstream(c) == [] ==> forall i :: 0 <= i < |c| ==> c[i] == []
    ensures Downstream(c) == [] ==> forall i :: 0 <= i < |c| ==> c[i] == []
  {
    if c != [] {
      EmptyChannels(c[1..]);
      assert forall i :: 0 < i < |c| ==> c[i] == c[1..][i - 1];
    }
  }

  // ---- the circuit being built ----

  /** The circuits the claim is about: every hop a known peer, the target text within the protocol's reach. */
  ghost predicate WellPosed(peers: set<Bytes>, path: seq<Bytes>, target: Bytes)
  {
    && path != []
    && (forall p :: p in peers ==> Ascii(p) && |PEER_PREFIX| + |p| <= 0xFFFF)
    && (forall j :: 0 <= j < |path| ==> path[j] in peers)
    && ValidUtf8(target) && |target| <= 0xFFFF && !StartsWith(target, PEER_PREFIX)
  }

  /** What the initiator tells hop `k`. */
  function Text(path: seq<Bytes>, target: Bytes, k: nat): Bytes
    requires k < |path|
  {
    if k + 1 < |path| then PEER_PREFIX + path[k + 1] else target
  }

  /** What the circuit wants of one hop: who it is, the frame it is to read, and where it is to pipe. */
  datatype Leg = Leg(peer: Bytes, frame: Bytes, route: Route)

  function Legs(path: seq<Bytes>, target: Bytes): (legs: seq<Leg>)
    ensures |legs| == |path|
  {
    seq(|path|, k requires 0 <= k < |path| =>
      Leg(path[k], Frame(Text(path, target, k)), if k + 1 < |path| then Next(path[k + 1], k + 1) else Exit(target)))
  }

  /** Each leg leads to the next leg's peer, and the last one out. */
  ghost predicate Routed(legs: seq<Leg>) { forall k :: 0 <= k < |legs| ==> RoutedLeg(legs, k) }

  ghost predicate RoutedLeg(legs: seq<Leg>, k: nat)
    requires k < |legs|
  {
    if k + 1 < |legs| then legs[k].route == Next(legs[k + 1].peer, k + 1) else legs[k].route.Exit?
  }

  /** Each leg's frame is cut off exactly where it ends and makes its hop route as the leg wants. */
  ghost predicate Framed(peers: set<Bytes>, legs: seq<Leg>)
  {
    forall k :: 0 <= k < |legs| ==> FramedLeg(peers, legs[k], k)
  }

  ghost predicate FramedLeg(peers: set<Bytes>, leg: Leg, k: nat)
  {
    && |leg.frame| >= 2 && Wanted(leg.frame) == 0
    && (forall m :: 0 <= m < |leg.frame| ==> Wanted(leg.frame[..m]) > 0)
    && RouteFor(peers, Body(leg.frame), true, k + 1) == leg.route
    && RouteFor(peers, Body(leg.frame), false, k + 1) == Refused
  }

  /** The first `k` hops have each read exactly their own frame and pipe onwards as planned,
      and every contacted hop is the path's. */
  ghost predicate Chained(net: Net, legs: seq<Leg>, k: nat)
  {
    && Shape(net) && k <= |net.hops| <= |legs|
    && (forall j :: 0 <= j < |net.hops| ==> net.hops[j].peer == legs[j].peer)
    && (forall j :: 0 <= j < k ==> Settled(net.hops[j], legs[j]))
  }

  ghost predicate Settled(h: Hop, leg: Leg) { h.buf == leg.frame && h.route == leg.route }

  /** Frame `k` is on its way to hop `k`; `pending` is the part not yet written. */
  ghost predicate InFlight(net: Net, legs: seq<Leg>, k: nat, pending: Bytes)
  {
    && k < |legs| && Chained(net, legs, k) && |net.hops| == k + 1
    && net.hops[k].route == Reading
    && net.hops[k].buf + Upstream(net.up) + pending == legs[k].frame
    && Downstream(net.down) == [] && net.delivered == [] && net.sent == []
  }

  /** Hop `k` has connected onwards and its one-byte answer has not reached the initiator. */
  ghost predicate Accepted(net: Net, legs: seq<Leg>, k: nat)
  {
    && k < |legs| && Chained(net, legs, k + 1)
    && |net.hops| == (if k + 1 < |legs| then k + 2 else k + 1)
    && (k + 1 < |legs| ==> net.hops[k + 1].buf == [] && net.hops[k + 1].route == Reading && net.sent == [])
    && Upstream(net.up) == [] && Downstream(net.down) == [0x00] + net.sent && net.delivered == []
  }

  /** Hop `k` could not connect; `answer` is its answer, on its way or already read. */
  ghost predicate Rejected(net: Net, legs: seq<Leg>, k: nat, answer: Bytes)
  {
    && k < |legs| && Chained(net, legs, k) && |net.hops| == k + 1
    && net.hops[k].buf == legs[k].frame && net.hops[k].route == Refused
    && Upstream(net.up) == [] && Downstream(net.down) == answer && net.delivered == [] && net.sent == []
  }

  ghost predicate Building(net: Net, legs: seq<Leg>, k: nat, pending: Bytes)
  {
    || InFlight(net, legs, k, pending)
    || (pending == [] && (Accepted(net, legs, k) || Rejected(net, legs, k, [0x01])))
  }

  /** Every hop pipes to the next and the last to the target. `wrote` and `read` are what the initiator has
      written into and read out of the circuit since; everything else in the channels is theirs. */
  ghost predicate Established(net: Net, legs: seq<Leg>, wrote: Bytes, read: Bytes)
  {
    && Chained(net, legs, |legs|)
    && net.delivered + Upstream(net.up) == wrote
    && read + Downstream(net.down) == net.sent
  }

  lemma LegsAreProper(peers: set<Bytes>, path: seq<Bytes>, target: Bytes)
    requires WellPosed(peers, path, target)
    ensures Routed(Legs(path, target)) && Framed(peers, Legs(path, target))
  {
    hide FramedLeg, Legs;
    forall k: nat | k < |path| ensures FramedLeg(peers, Legs(path, target)[k], k) {
      LegIsFramed(peers, path, target, k);
    }
    forall k: nat | k < |path| ensures RoutedLeg(Legs(path, target), k) {
      LegAt(path, target, k);
      if k + 1 < |path| { LegAt(path, target, k + 1); }
    }
  }

  lemma LegIsFramed(peers: set<Bytes>, path: seq<Bytes>, target: Bytes, k: nat)
    requires WellPosed(peers, path, target) && k < |path|
    ensures FramedLeg(peers, Legs(path, target)[k], k)
  {
    hide RouteFor, FramedLeg, Frame, ValidUtf8, StartsWith;
    LegAt(path, target, k);
    if k + 1 < |path| {
      assert path[k + 1] in peers;
      PeerText(peers, path[k + 1], k + 1);
      FrameFits(peers, PEER_PREFIX + path[k + 1], Legs(path, target)[k], k);
    } else {
      TargetText(peers, target, k + 1);
      FrameFits(peers, target, Legs(path, target)[k], k);
    }
  }

  lemma FrameFits(peers: set<Bytes>, text: Bytes, leg: Leg, k: nat)
    requires |text| <= 0xFFFF && leg.frame == Frame(text)
    requires RouteFor(peers, text, true, k + 1) == leg.route && RouteFor(peers, text, false, k + 1) == Refused
    ensures FramedLeg(peers, leg, k)
  {
    FrameCutsExactly(text);
  }

  lemma LegAt(path: seq<Bytes>, target: Bytes, k: nat)
    requires k < |path|
    ensures var leg := Legs(path, target)[k];
            && leg.peer == path[k]
            && (k + 1 < |path| ==>
                  leg.frame == Frame(PEER_PREFIX + path[k + 1]) && leg.route == Next(path[k + 1], k + 1))
            && (k + 1 == |path| ==> leg.frame == Frame(target) && leg.route == Exit(target))
  {
  }

  lemma TargetText(peers: set<Bytes>, target: Bytes, n: nat)
    requires ValidUtf8(target) && !StartsWith(target, PEER_PREFIX)
    ensures RouteFor(peers, target, true, n) == Exit(target) && RouteFor(peers, target, false, n) == Refused
  {
  }

  lemma PeerText(peers: set<Bytes>, p: Bytes, n: nat)
    requires p in peers && Ascii(p)
    ensures RouteFor(peers, PEER_PREFIX + p, true, n) == Next(p, n)
    ensures RouteFor(peers, PEER_PREFIX + p, false, n) == Refused
  {
    var text := PEER_PREFIX + p;
    AsciiIsUtf8(text);
    assert text[|PEER_PREFIX|..] == p;
    assert text[..|PEER_PREFIX|] == PEER_PREFIX;
  }

  /** A final target reaches the last hop as itself exactly when it does not read as a peer. */
  lemma ExitExactly(peers: set<Bytes>, target: Bytes, n: nat)
    requires ValidUtf8(target)
    ensures RouteFor(peers, target, true, n) == Exit(target) <==> !StartsWith(target, PEER_PREFIX)
  {
  }

  lemma ReadKeepsFlight(net: Net, legs: seq<Leg>, k: nat, pending: Bytes)
    requires InFlight(net, legs, k, pending) && Ready(net, k)
    ensures InFlight(ReadStep(net, k), legs, k, pending)
  {
    var net' := ReadStep(net, k);
    if net' != net {
      UpstreamTakeLast(net.up);
      var buf, b, rest := net.hops[k].buf, net.up[k][..1], Upstream(net'.up);
      Assoc(buf, b, rest);
      assert Chained(net', legs, k);
    }
  }

  /** The hop's buffer is a prefix of frame `k`, so it is complete only when it is all of it. */
  lemma CompleteBuffer(peers: set<Bytes>, net: Net, legs: seq<Leg>, k: nat, pending: Bytes)
    requires InFlight(net, legs, k, pending) && FramedLeg(peers, legs[k], k)
    requires Wanted(net.hops[k].buf) == 0
    ensures net.hops[k].buf == legs[k].frame && Upstream(net.up) == [] && pending == []
  {
    var f, buf := legs[k].frame, net.hops[k].buf;
    var rest := Upstream(net.up) + pending;
    Assoc(buf, Upstream(net.up), pending);
    assert f == buf + rest;
    assert buf == f[..|buf|];
    assert |rest| == 0;
  }

  lemma DecideAnswers(peers: set<Bytes>, net: Net, legs: seq<Leg>, k: nat, pending: Bytes, connects: bool)
    requires Framed(peers, legs) && Routed(legs) && InFlight(net, legs, k, pending) && Ready(net, k)
    ensures Building(DecideStep(peers, net, k, connects), legs, k, pending)
  {
    var h := net.hops[k];
    if |h.buf| >= 2 && Wanted(h.buf) == 0 {
      assert FramedLeg(peers, legs[k], k);
      CompleteBuffer(peers, net, legs, k, pending);
      if connects { AcceptAnswers(net, legs, k); } else { RejectAnswers(net, legs, k); }
    }
  }

  lemma AcceptAnswers(net: Net, legs: seq<Leg>, k: nat)
    requires Routed(legs) && InFlight(net, legs, k, []) && Ready(net, k) && net.hops[k].buf == legs[k].frame
    requires Upstream(net.up) == []
    ensures Accepted(Settle(net, k, legs[k].route), legs, k)
  {
    assert RoutedLeg(legs, k);
    var r := legs[k].route;
    var h := net.hops[k].(route := r);
    var net1 := net.(hops := net.hops[k := h], down := net.down[k := net.down[k] + [0x00]]);
    AnswerTravels(net.down, k, [0x00]);
    SettleOne(net, net1, legs, k);
    if k + 1 < |legs| { ContactNext(net1, legs, k); }
  }

  lemma SettleOne(net: Net, net1: Net, legs: seq<Leg>, k: nat)
    requires k < |legs| && Chained(net, legs, k) && |net.hops| == k + 1 && net.hops[k].buf == legs[k].frame
    requires Shape(net1) && net1.hops == net.hops[k := net.hops[k].(route := legs[k].route)]
    ensures Chained(net1, legs, k + 1)
  {
    forall j | 0 <= j < k + 1 ensures Settled(net1.hops[j], legs[j]) {
      if j < k { assert Settled(net.hops[j], legs[j]); }
    }
  }

  lemma ContactNext(net1: Net, legs: seq<Leg>, k: nat)
    requires k + 1 < |legs| && Chained(net1, legs, k + 1) && |net1.hops| == k + 1
    ensures var net2 := net1.(hops := net1.hops + [Hop(legs[k + 1].peer, [], Reading, true)],
                              up := net1.up + [[]], down := net1.down + [[]]);
            Chained(net2, legs, k + 1) && Upstream(net2.up) == Upstream(net1.up)
  {
    AppendEmptyChannel(net1.up);
    var hops2 := net1.hops + [Hop(legs[k + 1].peer, [], Reading, true)];
    forall j | 0 <= j < k + 1 ensures Settled(hops2[j], legs[j]) {
      assert Settled(net1.hops[j], legs[j]);
    }
  }

  lemma AnswerTravels(down: seq<Bytes>, k: nat, b: Bytes)
    requires |down| == k + 1 && Downstream(down) == []
    ensures Downstream(down[k := down[k] + b]) == b
    ensures Downstream(down[k := down[k] + b] + [[]]) == b
  {
    DownstreamAppendLast(down, b);
    AppendEmptyChannel(down[k := down[k] + b]);
  }

  lemma RejectAnswers(net: Net, legs: seq<Leg>, k: nat)
    requires InFlight(net, legs, k, []) && Ready(net, k) && net.hops[k].buf == legs[k].frame
    requires Upstream(net.up) == []
    ensures Rejected(Settle(net, k, Refused), legs, k, [0x01])
  {
    AnswerTravels(net.down, k, [0x01]);
  }

  /** No move of any handler, no byte from the target and no crash disturbs a circuit under construction. */
  lemma StepKeepsBuilding(peers: set<Bytes>, net: Net, legs: seq<Leg>, k: nat, pending: Bytes, mv: Move)
    requires Framed(peers, legs) && Routed(legs) && Building(net, legs, k, pending)
    ensures Building(Step(peers, net, mv), legs, k, pending)
  {
    if Ready(net, mv.i) {
      if InFlight(net, legs, k, pending) {
        StepInFlight(peers, net, legs, k, pending, mv);
      } else {
        StepAnswered(peers, net, legs, k, mv);
      }
    }
  }

  lemma StepInFlight(peers: set<Bytes>, net: Net, legs: seq<Leg>, k: nat, pending: Bytes, mv: Move)
    requires Framed(peers, legs) && Routed(legs) && InFlight(net, legs, k, pending) && Ready(net, mv.i)
    ensures Building(Step(peers, net, mv), legs, k, pending)
  {
    if mv.Decide? && mv.i == k {
      assert Step(peers, net, mv) == DecideStep(peers, net, k, mv.connects);
      DecideAnswers(peers, net, legs, k, pending, mv.connects);
    } else {
      RouteInFlight(net, legs, k, pending, mv.i);
      UndecidedKeepsFlight(peers, net, legs, k, pending, mv);
    }
  }

  lemma RouteInFlight(net: Net, legs: seq<Leg>, k: nat, pending: Bytes, i: nat)
    requires Routed(legs) && InFlight(net, legs, k, pending) && i <= k
    ensures net.hops[i].route == if i < k then Next(legs[i + 1].peer, i + 1) else Reading
  {
    assert RoutedLeg(legs, i);
    assert i < k ==> Settled(net.hops[i], legs[i]);
  }

  lemma UndecidedKeepsFlight(peers: set<Bytes>, net: Net, legs: seq<Leg>, k: nat, pending: Bytes, mv: Move)
    requires InFlight(net, legs, k, pending) && Ready(net, mv.i) && !(mv.Decide? && mv.i == k)
    requires net.hops[mv.i].route == if mv.i < k then Next(legs[mv.i + 1].peer, mv.i + 1) else Reading
    ensures InFlight(Step(peers, net, mv), legs, k, pending)
  {
    EmptyChannels(net.down);
    match mv
    case ReadByte(i) => if i == k { ReadKeepsFlight(net, legs, k, pending); } else { assert ReadStep(net, i) == net; }
    case Decide(i, c) => assert DecideStep(peers, net, i, c) == net;
    case PipeUp(i) => PipeKeepsFlight(net, legs, k, pending, i);
    case PipeDown(i) => assert PipeDownStep(net, i) == net;
    case Emit(i, b) => assert EmitStep(net, i, b) == net;
    case Crash(i) => CrashKeepsFlight(net, legs, k, pending, i);
  }

  lemma PipeKeepsFlight(net: Net, legs: seq<Leg>, k: nat, pending: Bytes, i: nat)
    requires InFlight(net, legs, k, pending) && Ready(net, i)
    requires net.hops[i].route == if i < k then Next(legs[i + 1].peer, i + 1) else Reading
    ensures InFlight(PipeUpStep(net, i), legs, k, pending)
  {
    if i < k && net.up[i] != [] {
      UpstreamMove(net.up, i);
      assert Chained(PipeUpStep(net, i), legs, k);
    }
  }

  /** What the channels carry and who is alive do not matter to the chain. */
  lemma ChainKept(net: Net, net': Net, legs: seq<Leg>, k: nat)
    requires Chained(net, legs, k) && Shape(net') && |net'.hops| == |net.hops|
    requires forall j :: 0 <= j < |net.hops| ==> net'.hops[j] == net.hops[j].(alive := net'.hops[j].alive)
    ensures Chained(net', legs, k)
  {
    forall j | 0 <= j < k ensures Settled(net'.hops[j], legs[j]) {
      assert Settled(net.hops[j], legs[j]);
    }
  }

  lemma CrashKeepsFlight(net: Net, legs: seq<Leg>, k: nat, pending: Bytes, i: nat)
    requires InFlight(net, legs, k, pending) && Ready(net, i)
    ensures InFlight(CrashStep(net, i), legs, k, pending)
  {
    ChainKept(net, CrashStep(net, i), legs, k);
  }

  lemma StepAnswered(peers: set<Bytes>, net: Net, legs: seq<Leg>, k: nat, mv: Move)
    requires Routed(legs) && Ready(net, mv.i)
    requires Accepted(net, legs, k) || Rejected(net, legs, k, [0x01])
    ensures Accepted(Step(peers, net, mv), legs, k) || Rejected(Step(peers, net, mv), legs, k, [0x01])
  {
    if Accepted(net, legs, k) {
      StepAccepted(peers, net, legs, k, mv);
    } else {
      StepRejected(peers, net, legs, k, [0x01], mv);
    }
  }

  /** A settled hop has nothing left to read or decide. */
  lemma SettledIdle(peers: set<Bytes>, net: Net, legs: seq<Leg>, k: nat, i: nat, c: bool)
    requires Routed(legs) && Chained(net, legs, k) && i < k && Ready(net, i)
    ensures ReadStep(net, i) == net && DecideStep(peers, net, i, c) == net
    ensures net.hops[i].route == legs[i].route && RoutedLeg(legs, i)
  {
    assert RoutedLeg(legs, i);
    assert Settled(net.hops[i], legs[i]);
  }

  lemma StepAccepted(peers: set<Bytes>, net: Net, legs: seq<Leg>, k: nat, mv: Move)
    requires Routed(legs) && Ready(net, mv.i) && Accepted(net, legs, k)
    ensures Accepted(Step(peers, net, mv), legs, k)
  {
    var i, net' := mv.i, Step(peers, net, mv);
    EmptyChannels(net.up);
    if i <= k { SettledIdle(peers, net, legs, k + 1, i, mv.Decide? && mv.connects); }
    if net' != net {
      ChainKept(net, net', legs, k + 1);
      match mv {
        case PipeDown(_) => DownstreamMove(net.down, i);
        case Emit(_, b) => EmitAnswered(net, i, b);
        case Crash(_) =>
      }
    }
  }

  lemma EmitAnswered(net: Net, i: nat, b: byte)
    requires Shape(net) && i + 1 == |net.down| && Downstream(net.down) == [0x00] + net.sent
    ensures Downstream(net.down[i := net.down[i] + [b]]) == [0x00] + (net.sent + [b])
  {
    DownstreamAppendLast(net.down, [b]);
  }

  lemma StepRejected(peers: set<Bytes>, net: Net, legs: seq<Leg>, k: nat, answer: Bytes, mv: Move)
    requires Routed(legs) && Ready(net, mv.i) && Rejected(net, legs, k, answer)
    ensures Rejected(Step(peers, net, mv), legs, k, answer)
  {
    EmptyChannels(net.up);
    var i, net' := mv.i, Step(peers, net, mv);
    if i < k { SettledIdle(peers, net, legs, k, i, mv.Decide? && mv.connects); }
    if net' != net {
      ChainKept(net, net', legs, k);
      match mv {
        case PipeDown(_) => DownstreamMove(net.down, i);
        case Crash(_) =>
      }
    }
  }

  lemma {:induction false} RunKeepsBuilding(peers: set<Bytes>, net: Net, legs: seq<Leg>, k: nat, pending: Bytes,
                                            moves: seq<Move>)
    requires Framed(peers, legs) && Routed(legs) && Building(net, legs, k, pending)
    ensures Building(Run(peers, net, moves), legs, k, pending)
    decreases |moves|
  {
    if moves != [] {
      StepKeepsBuilding(peers, net, legs, k, pending, moves[0]);
      RunKeepsBuilding(peers, Step(peers, net, moves[0]), legs, k, pending, moves[1..]);
    }
  }

  /** Once a hop has refused, no schedule makes any further hop be contacted. */
  lemma {:induction false} RefusalIsFinal(peers: set<Bytes>, net: Net, legs: seq<Leg>, k: nat, moves: seq<Move>)
    requires Routed(legs) && Rejected(net, legs, k, [])
    ensures Rejected(Run(peers, net, moves), legs, k, [])
    decreases |moves|
  {
    if moves != [] {
      if Ready(net, moves[0].i) { StepRejected(peers, net, legs, k, [], moves[0]); }
      RefusalIsFinal(peers, Step(peers, net, moves[0]), legs, k, moves[1..]);
    }
  }

  /** The initiator taking the next answer off its stream. */
  function TakeAnswer(net: Net): Net
    requires Shape(net) && net.hops != [] && net.down[0] != []
  {
    net.(down := net.down[0 := net.down[0][1..]])
  }

  lemma TakeFirst(c: seq<Bytes>)
    requires c != [] && c[0] != []
    ensures Downstream(c) == [c[0][0]] + Downstream(c[0 := c[0][1..]])
  {
    assert c[0 := c[0][1..]][1..] == c[1..];
    assert c[0] == [c[0][0]] + c[0][1..];
    Assoc([c[0][0]], c[0][1..], Downstream(c[1..]));
  }

  lemma TakeAccept(net: Net, legs: seq<Leg>, k: nat)
    requires Accepted(net, legs, k) && net.down[0] != []
    ensures net.down[0][0] == 0x00
    ensures k + 1 < |legs| ==> InFlight(TakeAnswer(net), legs, k + 1, legs[k + 1].frame)
    ensures k + 1 == |legs| ==> Established(TakeAnswer(net), legs, [], [])
  {
    var net' := TakeAnswer(net);
    TakeFirst(net.down);
    assert [0x00] + net.sent == [net.down[0][0]] + Downstream(net'.down);
    assert Downstream(net'.down) == ([0x00] + net.sent)[1..];
    assert ([0x00] + net.sent)[0] == 0x00;
    ChainKept(net, net', legs, k + 1);
  }

  lemma TakeReject(net: Net, legs: seq<Leg>, k: nat)
    requires Rejected(net, legs, k, [0x01]) && net.down[0] != []
    ensures net.down[0][0] == 0x01
    ensures Rejected(TakeAnswer(net), legs, k, [])
  {
    var net' := TakeAnswer(net);
    TakeFirst(net.down);
    assert [0x01 as byte] == [net.down[0][0]] + Downstream(net'.down);
    assert Downstream(net'.down) == [0x01 as byte][1..];
    assert [0x01 as byte][0] == 0x01;
    ChainKept(net, net', legs, k);
  }

  lemma NoEarlyAnswer(net: Net, legs: seq<Leg>, k: nat, pending: Bytes)
    requires InFlight(net, legs, k, pending)
    ensures net.down[0] == []
  {
    EmptyChannels(net.down);
  }

  // ---- the established circuit as a byte channel ----

  /** What may happen to an established circuit: the network moves, or the initiator writes or reads. */
  datatype Use = Network(mv: Move) | Write(bytes: Bytes) | Read

  datatype Session = Session(net: Net, wrote: Bytes, read: Bytes)

  function Use1(peers: set<Bytes>, s: Session, u: Use): (r: Session)
    requires Shape(s.net) && s.net.hops != []
    ensures Shape(r.net) && r.net.hops != []
  {
    match u
    case Network(mv) => s.(net := Step(peers, s.net, mv))
    case Write(bs) => s.(net := s.net.(up := s.net.up[0 := s.net.up[0] + bs]), wrote := s.wrote + bs)
    case Read =>
      if s.net.down[0] == [] then s
      else s.(net := s.net.(down := s.net.down[0 := s.net.down[0][1..]]), read := s.read + s.net.down[0][..1])
  }

  function UseAll(peers: set<Bytes>, s: Session, us: seq<Use>): (r: Session)
    requires Shape(s.net) && s.net.hops != []
    ensures Shape(r.net) && r.net.hops != []
    decreases |us|
  {
    if us == [] then s else UseAll(peers, Use1(peers, s, us[0]), us[1..])
  }

  lemma UseKeepsEstablished(peers: set<Bytes>, s: Session, legs: seq<Leg>, u: Use)
    requires Routed(legs) && legs != [] && Established(s.net, legs, s.wrote, s.read)
    ensures var s' := Use1(peers, s, u); Established(s'.net, legs, s'.wrote, s'.read)
  {
    match u
    case Network(mv) => if Ready(s.net, mv.i) { MoveKeepsEstablished(peers, s.net, legs, s.wrote, s.read, mv); }
    case Write(bs) =>
      var up := s.net.up;
      assert up[0 := up[0] + bs][1..] == up[1..];
      Assoc(Upstream(up[1..]), up[0], bs);
      Assoc(s.net.delivered, Upstream(up), bs);
    case Read =>
      var down := s.net.down;
      if down[0] != [] {
        assert down[0 := down[0][1..]][1..] == down[1..];
        assert down[0] == down[0][..1] + down[0][1..];
        Assoc(down[0][..1], down[0][1..], Downstream(down[1..]));
        Assoc(s.read, down[0][..1], down[0][1..] + Downstream(down[1..]));
      }
  }

  lemma MoveKeepsEstablished(peers: set<Bytes>, net: Net, legs: seq<Leg>, wrote: Bytes, read: Bytes, mv: Move)
    requires Routed(legs) && Established(net, legs, wrote, read) && Ready(net, mv.i)
    ensures Established(Step(peers, net, mv), legs, wrote, read)
  {
    var i, net' := mv.i, Step(peers, net, mv);
    SettledIdle(peers, net, legs, |legs|, i, mv.Decide? && mv.connects);
    if net' != net {
      ChainKept(net, net', legs, |legs|);
      match mv {
        case PipeUp(_) =>
          if i + 1 == |legs| {
            UpstreamTakeLast(net.up);
            Assoc(net.delivered, net.up[i][..1], Upstream(net'.up));
          } else {
            UpstreamMove(net.up, i);
          }
        case PipeDown(_) => DownstreamMove(net.down, i);
        case Emit(_, b) =>
          DownstreamAppendLast(net.down, [b]);
          Assoc(read, Downstream(net.down), [b]);
        case Crash(_) =>
      }
    }
  }

  /** Whatever happens to an established circuit, the target has received a prefix of what the initiator wrote
      and the initiator a prefix of what the target sent: in order, nothing added, nothing repeated. */
  lemma {:induction false} CircuitIsByteChannel(peers: set<Bytes>, s: Session, legs: seq<Leg>, us: seq<Use>)
    requires Routed(legs) && legs != [] && Established(s.net, legs, s.wrote, s.read)
    ensures var s' := UseAll(peers, s, us);
            && Established(s'.net, legs, s'.wrote, s'.read)
            && s'.net.delivered <= s'.wrote && s'.read <= s'.net.sent
    decreases |us|
  {
    if us != [] {
      UseKeepsEstablished(peers, s, legs, us[0]);
      CircuitIsByteChannel(peers, Use1(peers, s, us[0]), legs, us[1..]);
    }
  }
}
