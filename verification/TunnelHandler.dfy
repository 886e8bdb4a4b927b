/** One hop's handler as the program writes it: two exact reads, a decision, a one-byte answer. */
module TunnelHandler {
  import opened Wrappers
  import opened Wire
  import opened Circuit

  /** The hop's end of a tunnel stream: `input` is what will ever arrive, `output` what has been written back. */
  class Inbound {
    var input: Bytes
    var output: Bytes

    constructor (input: Bytes)
      ensures this.input == input && output == []
    {
      this.input := input;
      output := [];
    }

    /** `read_exact`: all `n` bytes, or an error once the stream ends first. */
    method ReadExact(n: nat) returns (b: Option<Bytes>)
      modifies this`input
      ensures n <= |old(input)| ==> b == Some(old(input)[..n]) && input == old(input)[n..]
      ensures n > |old(input)| ==> b == None && input == []
    {
      if n > |input| {
        input := [];
        return None;
      }
      b := Some(input[..n]);
      input := input[n..];
    }

    method Write(b: byte)
      modifies this`output
      ensures output == old(output) + [b]
    {
      output := output + [b];
    }
  }

  /** How many bytes the header at the front of `b` takes up. */
  function HeaderLength(b: Bytes): nat { if |b| < 2 then 2 else 2 + LengthOf(b[0], b[1]) }

  /** Read the header and decide. `connects` is whether the onward connection succeeds, `next` the handler
      a next hop would get. The handler reads nothing beyond its header before it answers. */
  method HandleIncomingTunnel(stream: Inbound, peers: set<Bytes>, connects: bool, next: nat) returns (r: Route)
    modifies stream
    ensures var n, b := HeaderLength(old(stream.input)), old(stream.input);
            if n <= |b| then
              r == RouteFor(peers, Body(b[..n]), connects, next) && stream.input == b[n..]
                  && stream.output == old(stream.output) + Answer(r)
            else
              r == Aborted && stream.output == old(stream.output)
  {
    ghost var b := stream.input;
    var lenBuf := stream.ReadExact(2);
    if lenBuf.None? { return Aborted; }
    var len := LengthOf(lenBuf.value[0], lenBuf.value[1]);
    var buf := stream.ReadExact(len);
    if buf.None? { return Aborted; }
    var target := buf.value;
    assert target == Body(b[..HeaderLength(b)]);
    assert stream.input == b[HeaderLength(b)..];
    if !ValidUtf8(target) { return Aborted; }
    if StartsWith(target, PEER_PREFIX) {
      var nextPeer := target[|PEER_PREFIX|..];
      if nextPeer !in peers { return Aborted; }
      if connects {
        stream.Write(0x00);
        r := Next(nextPeer, next);
      } else {
        stream.Write(0x01);
        r := Refused;
      }
    } else if connects {
      stream.Write(0x00);
      r := Exit(target);
    } else {
      stream.Write(0x01);
      r := Refused;
    }
  }

  function Reads(i: nat, n: nat): seq<Move> { seq(n, _ => ReadByte(i)) }

  lemma {:induction false} ReadsTake(peers: set<Bytes>, net: Net, i: nat, n: nat)
    requires Ready(net, i) && net.hops[i].route == Reading && n <= |net.up[i]|
    requires |net.hops[i].buf| + n <= HeaderLength(net.hops[i].buf + net.up[i])
    ensures Run(peers, net, Reads(i, n))
         == net.(hops := net.hops[i := net.hops[i].(buf := net.hops[i].buf + net.up[i][..n])],
                 up := net.up[i := net.up[i][n..]])
    decreases n
  {
    var buf, up := net.hops[i].buf, net.up[i];
    if n == 0 {
      assert buf + up[..0] == buf;
      assert net.hops[i := net.hops[i].(buf := buf + up[..0])] == net.hops;
      assert net.up[i := up[0..]] == net.up;
    } else {
      assert Wanted(buf) > 0 by {
        if |buf| >= 2 { assert (buf + up)[0] == buf[0] && (buf + up)[1] == buf[1]; }
      }
      var net' := Step(peers, net, ReadByte(i));
      assert net' == ReadStep(net, i);
      assert net'.hops[i].buf + net'.up[i] == buf + up;
      ReadsTake(peers, net', i, n - 1);
      assert Reads(i, n)[1..] == Reads(i, n - 1);
      assert (buf + up[..1]) + up[1..][..n - 1] == buf + up[..n];
      assert up[1..][n - 1..] == up[n..];
    }
  }

  /** The handler's two exact reads and its decision are `HeaderLength` byte reads and one `Decide` of the network. */
  lemma HandlerIsNetworkSteps(peers: set<Bytes>, net: Net, i: nat, connects: bool)
    requires Ready(net, i) && net.hops[i].route == Reading && net.hops[i].buf == []
    requires HeaderLength(net.up[i]) <= |net.up[i]|
    ensures var b, n := net.up[i], HeaderLength(net.up[i]);
            var net' := Run(peers, net, Reads(i, n) + [Decide(i, connects)]);
            && net'.hops[i].route == RouteFor(peers, Body(b[..n]), connects, |net.hops|)
            && net'.up[i] == b[n..] && net'.down[i] == net.down[i] + Answer(net'.hops[i].route)
  {
    var b, n := net.up[i], HeaderLength(net.up[i]);
    assert [] + b == b && [] + b[..n] == b[..n];
    ReadsTake(peers, net, i, n);
    RunAppend(peers, net, Reads(i, n), [Decide(i, connects)]);
    var mid := Run(peers, net, Reads(i, n));
    assert b[..n][0] == b[0] && b[..n][1] == b[1];
    assert Run(peers, mid, [Decide(i, connects)]) == DecideStep(peers, mid, i, connects);
  }

  lemma {:induction false} RunAppend(peers: set<Bytes>, net: Net, a: seq<Move>, b: seq<Move>)
    requires Shape(net)
    ensures Run(peers, net, a + b) == Run(peers, Run(peers, net, a), b)
    decreases |a|
  {
    if a == [] {
      assert a + b == b;
    } else {
      RunAppend(peers, Step(peers, net, a[0]), a[1..], b);
      assert (a + b)[1..] == a[1..] + b;
    }
  }

  /** The last hop takes exactly the final target's frame and connects to exactly that target if and only if the
      text fits the sixteen-bit length and does not read as a peer. A longer text is cut to its length modulo
      65536 and the rest of it is piped on as if it were traffic. */
  lemma FinalTargetExactly(peers: set<Bytes>, target: Bytes, next: nat)
    requires ValidUtf8(target)
    ensures var f, n := Frame(target), HeaderLength(Frame(target));
            && n == 2 + |target| % 0x1_0000 && n <= |f|
            && (n == |f| && RouteFor(peers, Body(f[..n]), true, next) == Exit(target)
                <==> |target| <= 0xFFFF && !StartsWith(target, PEER_PREFIX))
  {
    hide *;
    FrameHeader(target);
    ExitExactly(peers, target, next);
  }

  /** Where a header leads: nowhere if it is not text or names an unknown peer, to a refusal if the connection fails,
      and otherwise to the peer it names or to the address it is. */
  lemma RoutesExactly(peers: set<Bytes>, text: Bytes, connects: bool, next: nat)
    ensures var r, peer := RouteFor(peers, text, connects, next), PEER_PREFIX <= text;
            var lost := !ValidUtf8(text) || (peer && text[5..] !in peers);
            && (r == Aborted <==> lost)
            && (r == Refused <==> !lost && !connects)
            && (forall p, n :: r == Next(p, n) <==> !lost && connects && peer && text == PEER_PREFIX + p && n == next)
            && (forall a :: r == Exit(a) <==> !lost && connects && !peer && a == text)
    ensures PEER_PREFIX == ['p' as byte, 'e' as byte, 'e' as byte, 'r' as byte, ':' as byte]
  {
    hide ValidUtf8;
    if PEER_PREFIX <= text { assert text == PEER_PREFIX + text[5..]; }
    forall p | text == PEER_PREFIX + p ensures text[5..] == p {}
  }

  /** A final target that names a known peer opens another hop, and nothing is connected to. */
  lemma PeerTargetOpensHop(peers: set<Bytes>, p: Bytes, next: nat)
    requires p in peers && Ascii(p) && |PEER_PREFIX + p| <= 0xFFFF
    ensures var f, n := Frame(PEER_PREFIX + p), HeaderLength(Frame(PEER_PREFIX + p));
            n == |f| && RouteFor(peers, Body(f[..n]), true, next) == Next(p, next)
  {
    hide *;
    FrameHeader(PEER_PREFIX + p);
    PeerText(peers, p, next);
  }

  /** A final target of 65536 bytes is cut to none: the last hop connects to the empty address, and the whole target
      follows as if it were traffic. */
  lemma LongTargetIsCut(peers: set<Bytes>, target: Bytes, next: nat)
    requires |target| == 0x1_0000
    ensures var f, n := Frame(target), HeaderLength(Frame(target));
            n == 2 && f[n..] == target && RouteFor(peers, Body(f[..n]), true, next) == Exit([])
  {
    FrameHeader(target);
    hide LengthBytes, LengthOf;
    var f := Frame(target);
    assert f[2..] == target;
    assert Body(f[..2]) == [];
  }

  lemma FrameHeader(text: Bytes)
    ensures var f, n := Frame(text), HeaderLength(Frame(text));
            && n == 2 + |text| % 0x1_0000 && |f| == 2 + |text| && 2 <= n <= |f|
            && (n == |f| <==> |text| <= 0xFFFF) && (n == |f| ==> Body(f[..n]) == text)
  {
    hide LengthBytes, LengthOf;
    LengthRoundTrip(|text|);
    FitsSixteenBits(|text|);
    var f := Frame(text);
    assert f[0] == LengthBytes(|text|)[0] && f[1] == LengthBytes(|text|)[1];
    assert f[2..] == text && f[..|f|] == f;
  }

  lemma FitsSixteenBits(n: nat)
    ensures n % 0x1_0000 <= n && (n % 0x1_0000 == n <==> n <= 0xFFFF)
  {
  }

  /** What a built circuit is, read off the network: every hop is the path's, has read exactly its own frame and
      pipes to its successor, the last to the target, and no control byte is left in any channel. */
  lemma BuiltMeans(net: Net, path: seq<Bytes>, target: Bytes)
    requires path != [] && Established(net, Legs(path, target), [], [])
    ensures |net.hops| == |path|
    ensures forall i :: 0 <= i < |path| ==>
              && net.hops[i].peer == path[i]
              && net.hops[i].buf == Frame(if i + 1 < |path| then PEER_PREFIX + path[i + 1] else target)
              && net.hops[i].route == (if i + 1 < |path| then Next(path[i + 1], i + 1) else Exit(target))
    ensures forall i :: 0 <= i < |path| ==> net.up[i] == []
    ensures net.delivered == [] && Downstream(net.down) == net.sent
  {
    hide Frame, Legs;
    var legs := Legs(path, target);
    forall i: nat | i < |path|
      ensures net.hops[i].peer == path[i] && net.hops[i].buf == legs[i].frame && net.hops[i].route == legs[i].route
    {
      assert Settled(net.hops[i], legs[i]);
      LegAt(path, target, i);
    }
    forall i: nat | i < |path|
      ensures net.hops[i].buf == Frame(if i + 1 < |path| then PEER_PREFIX + path[i + 1] else target)
      ensures net.hops[i].route == (if i + 1 < |path| then Next(path[i + 1], i + 1) else Exit(target))
    {
      LegAt(path, target, i);
    }
    NothingWritten(net);
    EmptyChannels(net.up);
    assert [] + Downstream(net.down) == Downstream(net.down);
  }

  lemma NothingWritten(net: Net)
    requires net.delivered + Upstream(net.up) == []
    ensures net.delivered == [] && Upstream(net.up) == []
  {
    assert |net.delivered + Upstream(net.up)| == |net.delivered| + |Upstream(net.up)|;
  }
}
