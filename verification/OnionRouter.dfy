/** The initiator: building a circuit over one tunnel stream, whatever the network does meanwhile. */
module OnionRouter {
  import opened Sequences
  import opened Wrappers
  import opened Wire
  import opened Circuit

  datatype Outcome =
    | Built
    | EmptyPath
    | OpenFailed
    | IoError
    | HopRejected(hop: Bytes, next: Bytes)
    | FinalRejected(target: Bytes)

  ghost function Zeros(n: nat): Bytes { seq(n, _ => 0x00) }

  /** What becomes of one operation on the stream: what the network does meanwhile, whether the operation fails, and how
      much of a failing write was written all the same. */
  datatype Turn = Turn(during: seq<Move>, fails: bool, written: nat)

  /** The stream the initiator holds. `turns` says what becomes of its operations, one after the other; `ops` counts
      them, `got` is every byte read, and `broke` says whether any operation failed or found its stream ended. */
  class TunnelStream {
    const peers: set<Bytes>
    const turns: nat -> Turn
    var net: Net
    var got: Bytes
    var ops: nat
    ghost var broke: bool

    constructor (peers: set<Bytes>, turns: nat -> Turn, first: Bytes)
      ensures this.peers == peers && this.turns == turns && got == [] && ops == 0 && !broke
      ensures net == Net([Hop(first, [], Reading, true)], [[]], [[]], [], [])
    {
      this.peers, this.turns := peers, turns;
      net := Net([Hop(first, [], Reading, true)], [[]], [[]], [], []);
      got, ops, broke := [], 0, false;
    }

    /** `write_all`: on failure any part of the bytes may have been written. */
    method WriteAll(bs: Bytes) returns (ok: bool, written: nat)
      requires Shape(net) && net.hops != []
      modifies this`net, this`ops, this`broke
      ensures ok == !turns(old(ops)).fails && broke == (old(broke) || !ok) && ops == old(ops) + 1
      ensures written <= |bs| && (ok ==> written == |bs|)
      ensures var sent := old(net).(up := old(net).up[0 := old(net).up[0] + bs[..written]]);
              net == Run(peers, sent, turns(old(ops)).during)
    {
      var t := turns(ops);
      ok := !t.fails;
      written := if ok || t.written > |bs| then |bs| else t.written;
      net := net.(up := net.up[0 := net.up[0] + bs[..written]]);
      net := Run(peers, net, t.during);
      ops, broke := ops + 1, broke || !ok;
    }

    /** `read_exact` of one byte. */
    method ReadOne() returns (b: Option<byte>)
      requires Shape(net) && net.hops != []
      modifies this
      ensures broke == (old(broke) || b.None?) && ops == old(ops) + 1
      ensures var t, before := turns(old(ops)), Run(peers, old(net), turns(old(ops)).during);
              && (b.None? <==> t.fails || before.down[0] == [])
              && (b.None? ==> net == before && got == old(got))
              && (b.Some? ==>
                    b.value == before.down[0][0] && net == TakeAnswer(before) && got == old(got) + [b.value])
    {
      var t := turns(ops);
      net := Run(peers, net, t.during);
      ops := ops + 1;
      if t.fails || net.down[0] == [] {
        broke := true;
        return None;
      }
      b := Some(net.down[0][0]);
      got := got + [net.down[0][0]];
      net := TakeAnswer(net);
    }

    /** Name the next party to the hop at the far end, and wait for its one-byte answer. */
    method Ask(text: Bytes, ghost legs: seq<Leg>, ghost k: nat)
      returns (answer: Option<byte>, ghost pending: Bytes)
      requires Routed(legs) && Framed(peers, legs) && k < |legs| && legs[k].frame == Frame(text)
      requires InFlight(net, legs, k, legs[k].frame)
      modifies this
      ensures broke == (old(broke) || answer.None?)
      ensures match answer
              case None => got == old(got) && Building(net, legs, k, pending)
              case Some(b) =>
                && got == old(got) + [b]
                && (b == 0x00 ==> if k + 1 < |legs| then InFlight(net, legs, k + 1, legs[k + 1].frame)
                     else Established(net, legs, [], []))
                && (b != 0x00 ==> b == 0x01 && Rejected(net, legs, k, []))
    {
      hide InFlight, Accepted, Rejected, Established, Routed, Framed, Run;
      BuildingShape(net, legs, k, legs[k].frame);
      var head := LengthBytes(|text|);
      ghost var during := turns(ops).during;
      var ok, n := WriteAll(head);
      WriteKeepsBuilding(peers, old(net), legs, k, head, text, n, during);
      if !ok { return None, head[n..] + text; }
      ghost var halfway := net;
      assert head[n..] + text == text;
      BuildingShape(net, legs, k, text);

      assert text + [] == text;
      during := turns(ops).during;
      ok, n := WriteAll(text);
      WriteKeepsBuilding(peers, halfway, legs, k, text, [], n, during);
      if !ok { return None, text[n..] + []; }
      ghost var asked := net;
      assert text[n..] + [] == [];
      BuildingShape(net, legs, k, []);

      during := turns(ops).during;
      answer := ReadOne();
      pending := [];
      RunKeepsBuilding(peers, asked, legs, k, [], during);
      if answer.Some? { AnswerArrives(Run(peers, asked, during), legs, k); }
    }
  }

  ghost function WriteTo(net: Net, bs: Bytes): Net
    requires Shape(net) && net.hops != []
  {
    net.(up := net.up[0 := net.up[0] + bs])
  }

  lemma WriteIntoFlight(net: Net, legs: seq<Leg>, k: nat, now: Bytes, later: Bytes)
    requires InFlight(net, legs, k, now + later)
    ensures InFlight(WriteTo(net, now), legs, k, later)
  {
    var up := net.up;
    assert up[0 := up[0] + now][1..] == up[1..];
    Assoc(Upstream(up[1..]), up[0], now);
    var buf := net.hops[k].buf;
    assert buf + (Upstream(up) + now) + later == buf + Upstream(up) + (now + later);
    ChainKept(net, WriteTo(net, now), legs, k);
  }

  /** Writing the next part of a frame, or nothing at all when the frame is already out. */
  lemma WriteKeepsBuilding(peers: set<Bytes>, net: Net, legs: seq<Leg>, k: nat, bs: Bytes, later: Bytes, n: nat,
                           during: seq<Move>)
    requires Routed(legs) && Framed(peers, legs) && Building(net, legs, k, bs + later) && n <= |bs|
    ensures Building(Run(peers, WriteTo(net, bs[..n]), during), legs, k, bs[n..] + later)
  {
    var now, rest := bs[..n], bs[n..] + later;
    assert now + rest == bs + later;
    if InFlight(net, legs, k, bs + later) {
      WriteIntoFlight(net, legs, k, now, rest);
    } else {
      assert bs == [] && later == [];
      assert WriteTo(net, now).up == net.up;
    }
    RunKeepsBuilding(peers, WriteTo(net, now), legs, k, rest, during);
  }

  lemma BuildingShape(net: Net, legs: seq<Leg>, k: nat, pending: Bytes)
    requires Building(net, legs, k, pending)
    ensures Shape(net) && net.hops != []
  {
  }

  lemma AnswerArrives(before: Net, legs: seq<Leg>, k: nat)
    requires Building(before, legs, k, []) && before.down[0] != []
    ensures var b := before.down[0][0];
            && (b == 0x00 ==> if k + 1 < |legs| then InFlight(TakeAnswer(before), legs, k + 1, legs[k + 1].frame)
                                                else Established(TakeAnswer(before), legs, [], []))
            && (b != 0x00 ==> b == 0x01 && Rejected(TakeAnswer(before), legs, k, []))
  {
    if InFlight(before, legs, k, []) {
      NoEarlyAnswer(before, legs, k, []);
    } else if Accepted(before, legs, k) {
      TakeAccept(before, legs, k);
    } else {
      TakeReject(before, legs, k);
    }
  }

  lemma StartsInFlight(legs: seq<Leg>, net: Net)
    requires legs != [] && net == Net([Hop(legs[0].peer, [], Reading, true)], [[]], [[]], [], [])
    ensures InFlight(net, legs, 0, legs[0].frame)
  {
    assert [] + Upstream(net.up) + legs[0].frame == legs[0].frame;
  }

  /** What each outcome of building a circuit tells the caller about the network it leaves behind. */
  ghost predicate Explained(r: Outcome, net: Net, got: Bytes, path: seq<Bytes>, target: Bytes)
  {
    var legs := Legs(path, target);
    match r
    case EmptyPath => path == []
    case OpenFailed => path != []
    case Built => Established(net, legs, [], []) && got == Zeros(|path|)
    case HopRejected(_, _) => exists k: nat :: RefusedAt(r, net, got, path, target, k)
    case FinalRejected(t) =>
      && path != [] && t == target
      && Rejected(net, legs, |path| - 1, []) && got == Zeros(|path| - 1) + [0x01]
    case IoError => exists k: nat, pending :: Building(net, legs, k, pending) && got == Zeros(k)
  }

  ghost predicate RefusedAt(r: Outcome, net: Net, got: Bytes, path: seq<Bytes>, target: Bytes, k: nat)
  {
    && k + 1 < |path| && r == HopRejected(path[k], path[k + 1])
    && Rejected(net, Legs(path, target), k, []) && got == Zeros(k) + [0x01]
  }

  lemma ExplainAnswer(path: seq<Bytes>, target: Bytes, k: nat, net: Net, got: Bytes, answer: Option<byte>,
                      pending: Bytes)
    requires k < |path|
    requires answer.None? ==> got == Zeros(k) && Building(net, Legs(path, target), k, pending)
    requires answer.Some? ==> got == Zeros(k) + [answer.value]
    requires answer.Some? && answer.value == 0x00 && k + 1 == |path| ==> Established(net, Legs(path, target), [], [])
    requires answer.Some? && answer.value != 0x00 ==> answer.value == 0x01 && Rejected(net, Legs(path, target), k, [])
    ensures answer.None? ==> Explained(IoError, net, got, path, target)
    ensures answer.Some? && answer.value == 0x00 ==> got == Zeros(k + 1)
    ensures answer.Some? && answer.value == 0x00 && k + 1 == |path| ==> Explained(Built, net, got, path, target)
    ensures answer.Some? && answer.value != 0x00 && k + 1 < |path|
            ==> Explained(HopRejected(path[k], path[k + 1]), net, got, path, target)
    ensures answer.Some? && answer.value != 0x00 && k + 1 == |path|
            ==> Explained(FinalRejected(target), net, got, path, target)
  {
    hide Building, Established, Rejected, Legs;
    assert Zeros(k) + [0x00] == Zeros(k + 1);
    if answer.Some? && answer.value != 0x00 && k + 1 < |path| {
      assert RefusedAt(HopRejected(path[k], path[k + 1]), net, got, path, target, k);
    }
  }

  lemma ExplainNothing(path: seq<Bytes>, target: Bytes)
    ensures Explained(if path == [] then EmptyPath else OpenFailed, Net([], [], [], [], []), [], path, target)
  {
  }

  lemma NoZeros()
    ensures Zeros(0) == []
  {
  }

  predicate AllZero(bs: Bytes) { forall i :: 0 <= i < |bs| ==> bs[i] == 0x00 }

  /** Build a multi-hop path: open a stream to the first hop, then tell each hop about the next and the last
      about the target, one answer at a time. `peers` is everyone a hop could know, `opens` says whether the first
      stream opens, and `turns` what becomes of each operation on it.

      The outcome is an error of the stream exactly when an operation failed or found the stream ended, and where none
      did and every answer was good it is success. */
  method BuildCircuit(peers: set<Bytes>, path: seq<Bytes>, target: Bytes, opens: bool, turns: nat -> Turn)
    returns (r: Outcome, s: TunnelStream?)
    requires path == [] || WellPosed(peers, path, target)
    ensures (r.EmptyPath? <==> path == []) && (r.OpenFailed? <==> path != [] && !opens)
    ensures s == null <==> path == [] || !opens
    ensures s == null ==> Explained(r, Net([], [], [], [], []), [], path, target)
    ensures s != null ==>
              && fresh(s) && s.peers == peers && s.turns == turns && Explained(r, s.net, s.got, path, target)
              && (r.IoError? <==> s.broke)
              && (r.Built? <==> !s.broke && AllZero(s.got))
  {
    hide *;
    ExplainNothing(path, target);
    if |path| == 0 { return EmptyPath, null; }
    ghost var legs := Legs(path, target);
    LegsAreProper(peers, path, target);

    if !opens { return OpenFailed, null; }
    s := new TunnelStream(peers, turns, path[0]);
    LegAt(path, target, 0);
    StartsInFlight(legs, s.net);
    assert s.got == Zeros(0) by { NoZeros(); }

    for i := 1 to |path|
      invariant fresh(s) && s.peers == peers && s.turns == turns && !s.broke
      invariant InFlight(s.net, legs, i - 1, legs[i - 1].frame)
      invariant s.got == Zeros(i - 1)
    {
      LegAt(path, target, i - 1);
      var answer, pending := s.Ask(PEER_PREFIX + path[i], legs, i - 1);
      ExplainAnswer(path, target, i - 1, s.net, s.got, answer, pending);
      JudgeBytes(i - 1, s.got, answer);
      if answer.None? { return IoError, s; }
      if answer.value != 0x00 { return HopRejected(path[i - 1], path[i]), s; }
    }

    LegAt(path, target, |path| - 1);
    var answer, pending := s.Ask(target, legs, |path| - 1);
    ExplainAnswer(path, target, |path| - 1, s.net, s.got, answer, pending);
    JudgeBytes(|path| - 1, s.got, answer);
    if answer.None? { return IoError, s; }
    if answer.value != 0x00 { return FinalRejected(target), s; }
    return Built, s;
  }

  lemma JudgeBytes(k: nat, got: Bytes, answer: Option<byte>)
    requires got == if answer.None? then Zeros(k) else Zeros(k) + [answer.value]
    ensures AllZero(got) <==> answer.None? || answer.value == 0x00
  {
    if answer.Some? { assert got[k] == answer.value; }
  }
}
