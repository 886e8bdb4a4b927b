/** The relay's rendezvous of one provider with one consumer, driven by socket events in any order. */
module RelaySession {
  import opened Sequences
  import opened Wrappers
  import opened Wire
  import Quota = RelayQuota

  type Frame = Bytes
  type Socket = nat

  datatype Control = Registered | Connect(target: string) | Ready | Close | Closed | Error | Ping | Pong

  /** A WebSocket message: a binary frame, a text frame carrying a control message, or unreadable text. */
  datatype Message = Binary(frame: Frame) | Text(control: Control) | Garbled

  /** What a session does to the outside. */
  datatype Effect =
    | ToProvider(provider: Socket, control: Control)
    | Forward(provider: Socket, frame: Frame)
    | ToConsumer(consumer: Socket, control: Control)
    | Deliver(consumer: Socket, frame: Frame)
    | CloseProvider(provider: Socket, code: nat)
    | CloseConsumer(consumer: Socket, code: nat)
    | Charge(device: string, bytes: nat, limit: nat)

  /** What happens to a session, and on which socket. `Commit` is a consumer's acceptance once its quota check has
      been awaited; anything may have happened since the check that the provider is present and free. */
  datatype Event =
    | AcceptProvider(socket: Socket)
    | Commit(socket: Socket, target: string, device: string, limit: nat)
    | FromProvider(socket: Socket, message: Message)
    | FromConsumer(socket: Socket, message: Message)
    | ProviderGone(socket: Socket)
    | ConsumerGone(socket: Socket)

  datatype State = State(provider: Option<Socket>, consumer: Option<Socket>, providerReady: bool,
                         device: string, limit: nat, bytes: nat, buffer: seq<Frame>)

  const INIT := State(None, None, false, "anonymous", 52428800, 0, [])
  const BUFFER_LIMIT: nat := 64

  // ---- the session as a transition function ----

  function Reset(s: State): State { s.(consumer := None, bytes := 0, buffer := [], providerReady := false) }

  function Closing(s: State, code: nat): seq<Effect>
  {
    if s.consumer.Some? then [CloseConsumer(s.consumer.value, code)] else []
  }

  function Charging(s: State): seq<Effect> { if s.bytes > 0 then [Charge(s.device, s.bytes, s.limit)] else [] }

  function Notifying(s: State, c: Control): seq<Effect>
  {
    if s.provider.Some? then [ToProvider(s.provider.value, c)] else []
  }

  function Forwarding(p: Socket, frames: seq<Frame>): (es: seq<Effect>)
    ensures |es| == |frames|
  {
    seq(|frames|, i requires 0 <= i < |frames| => Forward(p, frames[i]))
  }

  function OnAcceptProvider(s: State, socket: Socket): (State, seq<Effect>)
  {
    (s.(provider := Some(socket), providerReady := false),
     (if s.provider.Some? && s.provider.value != socket then [CloseProvider(s.provider.value, 1012)] else [])
     + [ToProvider(socket, Registered)])
  }

  function OnCommit(s: State, socket: Socket, target: string, device: string, limit: nat): (State, seq<Effect>)
  {
    var s' := s.(consumer := Some(socket), device := device, limit := limit, bytes := 0, buffer := [],
                 providerReady := false);
    if s.provider.Some? then (s', Notifying(s', Connect(target)))
    else (Reset(s'), Closing(s', 1011))
  }

  function Flushing(s: State): seq<Effect> { if s.provider.Some? then Forwarding(s.provider.value, s.buffer) else [] }

  function Readying(s: State): seq<Effect> { if s.consumer.Some? then [ToConsumer(s.consumer.value, Ready)] else [] }

  function OnReady(s: State): (State, seq<Effect>)
  {
    (s.(providerReady := true, buffer := if s.provider.Some? then [] else s.buffer), Flushing(s) + Readying(s))
  }

  function OnProviderMessage(s: State, m: Message): (State, seq<Effect>)
  {
    match m
    case Text(Ready) => OnReady(s)
    case Text(Error) => (Reset(s), Closing(s, 1011) + Charging(s))
    case Text(Closed) => (Reset(s), Closing(s, 1000) + Charging(s))
    case Text(Ping) => (s, Notifying(s, Pong))
    case Text(_) => (s, [])
    case Garbled => (s, [])
    case Binary(f) =>
      if s.providerReady && s.consumer.Some? then (s.(bytes := s.bytes + |f|), [Deliver(s.consumer.value, f)])
      else (s, [])
  }

  predicate Overflows(s: State) { !(s.provider.Some? && s.providerReady) && |s.buffer| >= BUFFER_LIMIT }

  function OnConsumerMessage(s: State, m: Message): (State, seq<Effect>)
  {
    match m
    case Binary(f) =>
      var s' := s.(bytes := s.bytes + |f|);
      if s.provider.Some? && s.providerReady then (s', [Forward(s.provider.value, f)])
      else if Overflows(s) then (Reset(s'), Closing(s', 1013) + Charging(s'))
      else (s'.(buffer := s.buffer + [f]), [])
    case _ => (s, [])
  }

  /** A socket's role decides, and not whether it is the socket the session holds. */
  function Step(s: State, e: Event): (State, seq<Effect>)
  {
    match e
    case AcceptProvider(p) => OnAcceptProvider(s, p)
    case Commit(c, t, d, l) => OnCommit(s, c, t, d, l)
    case FromProvider(_, m) => OnProviderMessage(s, m)
    case FromConsumer(_, m) => OnConsumerMessage(s, m)
    case ProviderGone(_) => (Reset(s.(provider := None)), Closing(s, 1011))
    case ConsumerGone(_) => (Reset(s), Notifying(s, Close) + Charging(s))
  }

  function Run(es: seq<Event>): State
    decreases |es|
  {
    if es == [] then INIT else Step(Run(es[..|es| - 1]), es[|es| - 1]).0
  }

  function Effects(es: seq<Event>): seq<Effect>
    decreases |es|
  {
    if es == [] then [] else Effects(es[..|es| - 1]) + Step(Run(es[..|es| - 1]), es[|es| - 1]).1
  }

  // ---- frames towards the provider ----

  /** Does this event start or end a consumer's turn? */
  predicate Turns(s: State, e: Event)
  {
    || e.Commit? || e.ProviderGone? || e.ConsumerGone?
    || (e.FromProvider? && (e.message == Text(Error) || e.message == Text(Closed)))
    || (e.FromConsumer? && e.message.Binary? && Overflows(s))
  }

  /** A frame and the socket at its other end: the one it came from, or the one it went to. */
  datatype Parcel = Parcel(socket: Socket, frame: Frame)

  function Forwarded(effects: seq<Effect>): seq<Parcel>
  {
    if effects == [] then []
    else (if effects[0].Forward? then [Parcel(effects[0].provider, effects[0].frame)] else []) + Forwarded(effects[1..])
  }

  function FramesOf(ps: seq<Parcel>): seq<Frame> { Map(ps, (p: Parcel) => p.frame) }

  /** The frames among these of the given socket itself. */
  function Own(ps: seq<Parcel>, holder: Option<Socket>): seq<Frame>
  {
    FramesOf(Filter(ps, (p: Parcel) => Some(p.socket) == holder))
  }

  predicate AllOf(ps: seq<Parcel>, holder: Option<Socket>)
  {
    forall i :: 0 <= i < |ps| ==> Some(ps[i].socket) == holder
  }

  /** Frames of several sockets are one socket's own exactly when no other socket is among them. */
  lemma OwnExactly(ps: seq<Parcel>, holder: Option<Socket>)
    ensures FramesOf(ps) == Own(ps, holder) <==> AllOf(ps, holder)
  {
    var own := (p: Parcel) => Some(p.socket) == holder;
    if AllOf(ps, holder) { FilterAll(ps, own); }
    FilterLoses(ps, own);
    hide Filter;
  }

  /** Every binary frame received on a consumer-role socket since the turn began, and from which. */
  function Received(es: seq<Event>): seq<Parcel>
    decreases |es|
  {
    if es == [] then [] else
    var before, e := es[..|es| - 1], es[|es| - 1];
    if Turns(Run(before), e) then []
    else if e.FromConsumer? && e.message.Binary? then Received(before) + [Parcel(e.socket, e.message.frame)]
    else Received(before)
  }

  /** Every frame sent to a provider since the turn began, and to which. */
  function Sent(es: seq<Event>): seq<Parcel>
    decreases |es|
  {
    if es == [] then [] else
    var before, e := es[..|es| - 1], es[|es| - 1];
    if Turns(Run(before), e) then [] else Sent(before) + Forwarded(Step(Run(before), e).1)
  }

  lemma {:induction false} ForwardedAppend(a: seq<Effect>, b: seq<Effect>)
    ensures Forwarded(a + b) == Forwarded(a) + Forwarded(b)
  {
    if a == [] {
      assert a + b == b;
    } else {
      ForwardedAppend(a[1..], b);
      assert (a + b)[1..] == a[1..] + b && (a + b)[0] == a[0];
      var head := if a[0].Forward? then [Parcel(a[0].provider, a[0].frame)] else [];
      assert head + (Forwarded(a[1..]) + Forwarded(b)) == (head + Forwarded(a[1..])) + Forwarded(b);
    }
  }

  lemma {:induction false} ForwardedForwarding(p: Socket, frames: seq<Frame>)
    ensures FramesOf(Forwarded(Forwarding(p, frames))) == frames
    decreases |frames|
  {
    if frames != [] {
      ForwardedForwarding(p, frames[1..]);
      assert Forwarding(p, frames)[1..] == Forwarding(p, frames[1..]);
      assert frames == [frames[0]] + frames[1..];
    }
  }

  ghost predicate Bounded(s: State)
  {
    && |s.buffer| <= BUFFER_LIMIT
    && (s.provider.Some? && s.providerReady ==> s.buffer == [])
  }

  lemma StepForwards(s: State, e: Event)
    requires Bounded(s) && !Turns(s, e)
    ensures Bounded(Step(s, e).0)
    ensures FramesOf(Forwarded(Step(s, e).1)) + Step(s, e).0.buffer
         == s.buffer + (if e.FromConsumer? && e.message.Binary? then [e.message.frame] else [])
  {
    match e
    case FromProvider(_, m) =>
      if m == Text(Ready) && s.provider.Some? {
        ForwardedAppend(Flushing(s), Readying(s));
        ForwardedForwarding(s.provider.value, s.buffer);
      }
    case AcceptProvider(p) =>
      if s.provider.Some? && s.provider.value != p {
        ForwardedAppend([CloseProvider(s.provider.value, 1012)], [ToProvider(p, Registered)]);
      }
    case _ =>
  }

  lemma TurnClears(s: State, e: Event)
    ensures Turns(s, e) ==> Bounded(Step(s, e).0) && Step(s, e).0.buffer == []
  {
  }

  /** Frame order: over every event sequence, what providers have been sent since the consumer's turn began, followed
      by what is still buffered, is exactly what consumer-role sockets have sent since, in order. The buffer stays
      within its bound and is empty whenever a ready provider is there to send to. */
  lemma {:induction false} FramesInOrder(es: seq<Event>)
    ensures Bounded(Run(es))
    ensures FramesOf(Sent(es)) + Run(es).buffer == FramesOf(Received(es))
    decreases |es|
  {
    if es != [] {
      var before, e := es[..|es| - 1], es[|es| - 1];
      FramesInOrder(before);
      FrameStep(before, e, es);
    }
  }

  lemma FrameStep(before: seq<Event>, e: Event, es: seq<Event>)
    requires es != [] && es[..|es| - 1] == before && es[|es| - 1] == e
    requires Bounded(Run(before)) && FramesOf(Sent(before)) + Run(before).buffer == FramesOf(Received(before))
    ensures Bounded(Run(es)) && FramesOf(Sent(es)) + Run(es).buffer == FramesOf(Received(es))
  {
    var s := Run(before);
    TurnClears(s, e);
    if !Turns(s, e) { StepForwards(s, e); }
    hide Step, Bounded, Turns, Forwarded;
    if !Turns(s, e) {
      var fx := Forwarded(Step(s, e).1);
      FramesAppend(Sent(before), fx);
      hide FramesOf;
      Assoc(FramesOf(Sent(before)), FramesOf(fx), Run(es).buffer);
      if e.FromConsumer? && e.message.Binary? {
        Assoc(FramesOf(Sent(before)), s.buffer, [e.message.frame]);
        FramesSnoc(Received(before), Parcel(e.socket, e.message.frame));
      } else {
        assert s.buffer + [] == s.buffer;
      }
    }
  }

  lemma FramesAppend(a: seq<Parcel>, b: seq<Parcel>)
    ensures FramesOf(a + b) == FramesOf(a) + FramesOf(b)
  {
  }

  lemma FramesSnoc(ps: seq<Parcel>, p: Parcel)
    ensures FramesOf(ps + [p]) == FramesOf(ps) + [p.frame]
  {
  }

  /** The frames of a turn, sent and buffered, are the held consumer's own if and only if no other consumer-role socket
      has sent one in that turn. */
  lemma HeldConsumersOwnExactly(es: seq<Event>)
    ensures FramesOf(Sent(es)) + Run(es).buffer == Own(Received(es), Run(es).consumer)
            <==> AllOf(Received(es), Run(es).consumer)
  {
    FramesInOrder(es);
    OwnExactly(Received(es), Run(es).consumer);
  }

  /** It does happen otherwise: a consumer that a second one has replaced can still send, in the other one's turn,
      to the other one's target, and on the other one's account. */
  lemma ReplacedConsumerStillSends(f: Frame)
    requires |f| > 0
    ensures var es := [AcceptProvider(0), Commit(1, "a:443", "d1", 10),
                       Commit(2, "b:443", "d2", 10), FromConsumer(1, Binary(f))];
            && Run(es).consumer == Some(2) && Run(es).buffer == [f] && Received(es) == [Parcel(1, f)]
            && Step(Run(es), ConsumerGone(2)).1 == [ToProvider(0, Close), Charge("d2", |f|, 10)]
  {
    var es := [AcceptProvider(0), Commit(1, "a:443", "d1", 10),
               Commit(2, "b:443", "d2", 10), FromConsumer(1, Binary(f))];
    assert es[..1][..0] == [] && es[..2][..1] == es[..1] && es[..3][..2] == es[..2] && es[..4] == es;
    var s1 := Step(INIT, es[0]).0;
    var s2 := Step(s1, es[1]).0;
    var s3 := Step(s2, es[2]).0;
    assert Run(es[..1]) == s1 && Run(es[..2]) == s2 && Run(es[..3]) == s3;
    assert Received(es[..3]) == [];
  }

  /** The held provider has been sent all of a turn's frames if and only if none went to another provider. */
  lemma HeldProviderSentAllExactly(es: seq<Event>)
    ensures FramesOf(Sent(es)) == Own(Sent(es), Run(es).provider) <==> AllOf(Sent(es), Run(es).provider)
  {
    OwnExactly(Sent(es), Run(es).provider);
  }

  /** It does happen otherwise: replacing the provider does not end the consumer's turn, so one consumer's stream can be
      split over two providers, the second of which sees only the end of it. */
  lemma StreamIsSplit(f: Frame, g: Frame)
    ensures var es := [AcceptProvider(0), Commit(1, "a:443", "d", 10), FromProvider(0, Text(Ready)),
                       FromConsumer(1, Binary(f)), AcceptProvider(2), FromConsumer(1, Binary(g)),
                       FromProvider(2, Text(Ready))];
            && Run(es).provider == Some(2) && Run(es).consumer == Some(1)
            && FramesOf(Received(es)) == [f, g] && Sent(es) == [Parcel(0, f), Parcel(2, g)]
            && Own(Sent(es), Run(es).provider) == [g]
  {
    var es := [AcceptProvider(0), Commit(1, "a:443", "d", 10), FromProvider(0, Text(Ready)),
               FromConsumer(1, Binary(f)), AcceptProvider(2), FromConsumer(1, Binary(g)), FromProvider(2, Text(Ready))];
    var s := State(Some(0), Some(1), true, "d", 10, 0, []);
    FirstPart(es);
    SecondPart(es, s, f);
    ThirdPart(es, s.(bytes := |f|, provider := Some(2), providerReady := false), f, g);
    SplitParcels(f, g);
    assert es[..7] == es;
    hide Run, Sent, Received, Own, FramesOf;
  }

  lemma FirstPart(es: seq<Event>)
    requires |es| >= 3 && es[0] == AcceptProvider(0) && es[1] == Commit(1, "a:443", "d", 10)
    requires es[2] == FromProvider(0, Text(Ready))
    ensures At(es, 3, State(Some(0), Some(1), true, "d", 10, 0, []), [], [])
  {
    var s := State(Some(0), Some(1), false, "d", 10, 0, []);
    Opening(es);
    MakesReady(s, 0);
    hide Run, Sent, Received, Forwarded, Step, Steps, At;
    Advance(es, 2, s, [], [], s.(providerReady := true), []);
  }

  lemma Opening(es: seq<Event>)
    requires |es| >= 2 && es[0] == AcceptProvider(0) && es[1] == Commit(1, "a:443", "d", 10)
    ensures At(es, 2, State(Some(0), Some(1), false, "d", 10, 0, []), [], [])
  {
    assert es[..2][..1] == es[..1] && es[..1][..0] == [];
    assert Run(es[..1]) == INIT.(provider := Some(0));
    hide Forwarded;
  }

  /** The frame that the first provider is sent, and its replacement. */
  lemma SecondPart(es: seq<Event>, s: State, f: Frame)
    requires |es| >= 5 && At(es, 3, s, [], []) && s.provider == Some(0) && s.providerReady
    requires es[3] == FromConsumer(1, Binary(f)) && es[4] == AcceptProvider(2)
    ensures At(es, 5, s.(bytes := s.bytes + |f|, provider := Some(2), providerReady := false),
               [Parcel(0, f)], [Parcel(1, f)])
  {
    var s4 := s.(bytes := s.bytes + |f|);
    ForwardsFrame(s, 1, f);
    ReplacesProvider(s4, 2);
    assert [] + [Parcel(0, f)] == [Parcel(0, f)] && [] + [Parcel(1, f)] == [Parcel(1, f)];
    assert Sending(es[3]) == [Parcel(1, f)];
    hide Run, Sent, Received, Forwarded, Step, Steps, At, Sending;
    Advance(es, 3, s, [], [], s4, [Parcel(0, f)]);
    Advance(es, 4, s4, [Parcel(0, f)], [Parcel(1, f)], s4.(provider := Some(2), providerReady := false), []);
  }

  /** The frame that waits, and then goes to the replacement. */
  lemma ThirdPart(es: seq<Event>, t: State, f: Frame, g: Frame)
    requires |es| >= 7 && At(es, 5, t, [Parcel(0, f)], [Parcel(1, f)])
    requires t.provider == Some(2) && !t.providerReady && t.buffer == []
    requires es[5] == FromConsumer(1, Binary(g)) && es[6] == FromProvider(2, Text(Ready))
    ensures At(es, 7, t.(bytes := t.bytes + |g|, providerReady := true),
               [Parcel(0, f), Parcel(2, g)], [Parcel(1, f), Parcel(1, g)])
  {
    var u := t.(bytes := t.bytes + |g|, buffer := [g]);
    BuffersFrame(t, 1, g);
    MakesReady(u, 2);
    SplitParcels(f, g);
    assert [Parcel(1, f)] + [Parcel(1, g)] == [Parcel(1, f), Parcel(1, g)];
    assert [Parcel(0, f)] + [Parcel(2, g)] == [Parcel(0, f), Parcel(2, g)];
    assert Sending(es[5]) == [Parcel(1, g)];
    hide Run, Sent, Received, Forwarded, Step, Steps, At, Sending;
    Advance(es, 5, t, [Parcel(0, f)], [Parcel(1, f)], u, []);
    Advance(es, 6, u, [Parcel(0, f)], [Parcel(1, f), Parcel(1, g)],
            u.(providerReady := true, buffer := []), [Parcel(2, g)]);
  }

  lemma SplitParcels(f: Frame, g: Frame)
    ensures FramesOf([Parcel(1, f), Parcel(1, g)]) == [f, g]
    ensures Own([Parcel(0, f), Parcel(2, g)], Some(2)) == [g]
    ensures Forwarded(Forwarding(2, [g])) == [Parcel(2, g)]
  {
    var ps, of2 := [Parcel(0, f), Parcel(2, g)], (p: Parcel) => Some(p.socket) == Some(2);
    assert ps[..1] == [Parcel(0, f)] && ps[..1][..0] == [];
    assert Filter(ps[..1], of2) == [];
    assert Filter(ps, of2) == [Parcel(2, g)];
    assert Forwarding(2, [g])[1..] == [];
  }

  // ---- a run, one event after another ----

  /** Where a run stands after `n` events, and what its turn has sent and received. */
  ghost predicate At(es: seq<Event>, n: nat, s: State, sent: seq<Parcel>, received: seq<Parcel>)
  {
    n <= |es| && Run(es[..n]) == s && Sent(es[..n]) == sent && Received(es[..n]) == received
  }

  predicate Steps(s: State, e: Event, s': State, sent: seq<Parcel>)
  {
    !Turns(s, e) && Step(s, e).0 == s' && Forwarded(Step(s, e).1) == sent
  }

  /** The frame a consumer-role socket sends, if that is what happens. */
  function Sending(e: Event): seq<Parcel>
  {
    if e.FromConsumer? && e.message.Binary? then [Parcel(e.socket, e.message.frame)] else []
  }

  lemma Advance(es: seq<Event>, n: nat, s: State, sent: seq<Parcel>, received: seq<Parcel>,
                s': State, more: seq<Parcel>)
    requires n < |es| && At(es, n, s, sent, received) && Steps(s, es[n], s', more)
    ensures more == [] ==> At(es, n + 1, s', sent, received + Sending(es[n]))
    ensures Sending(es[n]) == [] ==> At(es, n + 1, s', sent + more, received)
    ensures At(es, n + 1, s', sent + more, received + Sending(es[n]))
  {
    assert es[..n + 1][..n] == es[..n];
    assert received + [] == received && sent + [] == sent;
    hide Step, Turns, Forwarded;
  }

  lemma ForwardsFrame(s: State, ws: Socket, f: Frame)
    requires s.provider.Some? && s.providerReady
    ensures Steps(s, FromConsumer(ws, Binary(f)), s.(bytes := s.bytes + |f|), [Parcel(s.provider.value, f)])
  {
  }

  lemma BuffersFrame(s: State, ws: Socket, f: Frame)
    requires !s.providerReady && |s.buffer| < BUFFER_LIMIT
    ensures Steps(s, FromConsumer(ws, Binary(f)), s.(bytes := s.bytes + |f|, buffer := s.buffer + [f]), [])
  {
  }

  lemma ReplacesProvider(s: State, p: Socket)
    ensures Steps(s, AcceptProvider(p), s.(provider := Some(p), providerReady := false), [])
  {
    if s.provider.Some? && s.provider.value != p {
      ForwardedAppend([CloseProvider(s.provider.value, 1012)], [ToProvider(p, Registered)]);
    }
  }

  lemma MakesReady(s: State, ws: Socket)
    requires s.provider.Some?
    ensures Steps(s, FromProvider(ws, Text(Ready)), s.(providerReady := true, buffer := []),
                  Forwarded(Forwarding(s.provider.value, s.buffer)))
    ensures s.buffer == [] ==> Forwarded(Forwarding(s.provider.value, s.buffer)) == []
  {
    ForwardedAppend(Flushing(s), Readying(s));
    assert Forwarded(Readying(s)) == [];
    assert Forwarded(Flushing(s)) + [] == Forwarded(Flushing(s));
  }

  // ---- readiness ----

  function LastIndex(es: seq<Event>, p: Event -> bool): (i: int)
    ensures -1 <= i < |es|
    ensures i >= 0 ==> p(es[i])
    ensures forall k :: i < k < |es| ==> !p(es[k])
    decreases |es|
  {
    if es == [] then -1
    else if p(es[|es| - 1]) then |es| - 1
    else LastIndex(es[..|es| - 1], p)
  }

  function LastCommit(es: seq<Event>): int { LastIndex(es, (e: Event) => e.Commit?) }

  function LastReady(es: seq<Event>): int { LastIndex(es, (e: Event) => e.FromProvider? && e.message == Text(Ready)) }

  function LastProvider(es: seq<Event>): int { LastIndex(es, (e: Event) => e.AcceptProvider?) }

  lemma {:induction false} ReadyIsFresh(es: seq<Event>)
    ensures var s := Run(es);
            && (s.consumer.Some? ==> LastCommit(es) >= 0 && es[LastCommit(es)].socket == s.consumer.value)
            && (s.providerReady ==> LastReady(es) > LastCommit(es) && LastReady(es) > LastProvider(es))
    decreases |es|
  {
    if es != [] { ReadyIsFresh(es[..|es| - 1]); }
  }

  /** No frame from a provider-role socket reaches a consumer before a `ready` handled after that consumer's own
      acceptance, which is the latest, and after the latest registration. */
  lemma DeliveredAfterReady(es: seq<Event>, e: Event, c: Socket, f: Frame)
    requires Deliver(c, f) in Step(Run(es), e).1
    ensures e.FromProvider? && e.message == Binary(f)
    ensures 0 <= LastCommit(es) < LastReady(es) && es[LastCommit(es)].socket == c
    ensures LastProvider(es) < LastReady(es)
  {
    DeliverStep(Run(es), e, c, f);
    hide Step;
    ReadyIsFresh(es);
  }

  lemma DeliverStep(s: State, e: Event, c: Socket, f: Frame)
    requires Deliver(c, f) in Step(s, e).1
    ensures e.FromProvider? && e.message == Binary(f) && s.consumer == Some(c) && s.providerReady
  {
    if e.FromProvider? && e.message == Text(Ready) { ReadyDeliversNothing(s, c, f); }
  }

  lemma ReadyDeliversNothing(s: State, c: Socket, f: Frame)
    ensures Deliver(c, f) !in OnReady(s).1
  {
    var fx := OnReady(s).1;
    assert forall i :: 0 <= i < |fx| ==> !fx[i].Deliver?;
  }

  // ---- frames towards the consumer ----

  function DeliveredFrames(effects: seq<Effect>): seq<Frame>
  {
    if effects == [] then []
    else (if effects[0].Deliver? then [effects[0].frame] else []) + DeliveredFrames(effects[1..])
  }

  predicate Delivers(s: State, e: Event) { e.FromProvider? && e.message.Binary? && s.providerReady && s.consumer.Some? }

  /** Every binary frame received on a provider-role socket, and from which, since the session last became ready. */
  function Heard(es: seq<Event>): seq<Parcel>
    decreases |es|
  {
    if es == [] || !Run(es).providerReady then [] else
    var before, e := es[..|es| - 1], es[|es| - 1];
    if Delivers(Run(before), e) then Heard(before) + [Parcel(e.socket, e.message.frame)] else Heard(before)
  }

  /** The frames the consumer was sent since the session last became ready. */
  function Delivered(es: seq<Event>): seq<Frame>
    decreases |es|
  {
    if es == [] || !Run(es).providerReady then [] else
    var before, e := es[..|es| - 1], es[|es| - 1];
    Delivered(before) + DeliveredFrames(Step(Run(before), e).1)
  }

  lemma {:induction false} NothingDelivered(effects: seq<Effect>)
    requires forall i :: 0 <= i < |effects| ==> !effects[i].Deliver?
    ensures DeliveredFrames(effects) == []
  {
    if effects != [] { NothingDelivered(effects[1..]); }
  }

  lemma StepDelivers(s: State, e: Event)
    ensures DeliveredFrames(Step(s, e).1) == if Delivers(s, e) then [e.message.frame] else []
  {
    if Delivers(s, e) {
      assert Step(s, e).1 == [Deliver(s.consumer.value, e.message.frame)];
    } else {
      DeliversNothing(s, e);
      hide Step;
      NothingDelivered(Step(s, e).1);
    }
  }

  lemma DeliversNothing(s: State, e: Event)
    requires !Delivers(s, e)
    ensures var fx := Step(s, e).1; forall i :: 0 <= i < |fx| ==> !fx[i].Deliver?
  {
  }

  /** While the session is ready the consumer is sent what provider-role sockets send, in order, and these are the
      held provider's own frames if and only if no other provider-role socket has sent one. */
  lemma {:induction false} HeldProvidersOwnExactly(es: seq<Event>)
    ensures Delivered(es) == FramesOf(Heard(es))
    ensures Delivered(es) == Own(Heard(es), Run(es).provider) <==> AllOf(Heard(es), Run(es).provider)
    decreases |es|
  {
    OwnExactly(Heard(es), Run(es).provider);
    if es != [] {
      var before, e := es[..|es| - 1], es[|es| - 1];
      HeldProvidersOwnExactly(before);
      StepDelivers(Run(before), e);
      hide Step, Own, AllOf;
      if Delivers(Run(before), e) {
        FramesSnoc(Heard(before), Parcel(e.socket, e.message.frame));
      } else {
        assert Delivered(before) + [] == Delivered(before);
      }
    }
  }

  /** It does happen otherwise: a provider that another has replaced can still declare the session ready, though the
      one that replaced it never did, and its frames still reach the consumer. */
  lemma ReplacedProviderStillSpeaks(f: Frame)
    ensures var es := [AcceptProvider(0), AcceptProvider(1), Commit(2, "a:443", "d", 10), FromProvider(0, Text(Ready))];
            && Run(es).provider == Some(1) && Run(es).providerReady
            && Step(Run(es), FromConsumer(2, Binary(f))).1 == [Forward(1, f)]
            && Step(Run(es), FromProvider(0, Binary(f))).1 == [Deliver(2, f)]
  {
    var es := [AcceptProvider(0), AcceptProvider(1), Commit(2, "a:443", "d", 10), FromProvider(0, Text(Ready))];
    assert es[..1][..0] == [] && es[..2][..1] == es[..1] && es[..3][..2] == es[..2] && es[..4] == es;
    var s2 := Step(Step(INIT, es[0]).0, es[1]).0;
    assert Run(es[..1]) == Step(INIT, es[0]).0 && Run(es[..2]) == s2 && Run(es[..3]) == Step(s2, es[2]).0;
  }

  // ---- what everyone is told ----

  /** The provider that history leaves with the session: the last one registered, unless a provider-role socket has
      closed since. */
  function Provider(es: seq<Event>): Option<Socket>
  {
    if LastProvider(es) <= LastProviderGone(es) then None
    else if es[LastProvider(es)].AcceptProvider? then Some(es[LastProvider(es)].socket)
    else None
  }

  /** The notices to providers among some effects, and to which they went. */
  function Notices(effects: seq<Effect>): seq<(Socket, Control)> { Flat(effects, NoticeOf) }

  function NoticeOf(fx: Effect): seq<(Socket, Control)> { if fx.ToProvider? then [(fx.provider, fx.control)] else [] }

  /** Which provider must be told what: a registering one that it is registered, and the one held of each consumer
      accepted and its target, of each close of a consumer-role socket, and of each ping. */
  function NoticeDue(held: Option<Socket>, e: Event): seq<(Socket, Control)>
  {
    if e.AcceptProvider? then [(e.socket, Registered)]
    else if held.None? then []
    else if e.Commit? then [(held.value, Connect(e.target))]
    else if e.ConsumerGone? then [(held.value, Close)]
    else if e.FromProvider? && e.message == Text(Ping) then [(held.value, Pong)]
    else []
  }

  function NoticesDue(es: seq<Event>): seq<(Socket, Control)>
    decreases |es|
  {
    if es == [] then [] else
    var before := es[..|es| - 1];
    NoticesDue(before) + NoticeDue(Provider(before), es[|es| - 1])
  }

  /** The messages to consumers among some effects. */
  function Greetings(effects: seq<Effect>): seq<(Socket, Control)> { Flat(effects, GreetingOf) }

  function GreetingOf(fx: Effect): seq<(Socket, Control)> { if fx.ToConsumer? then [(fx.consumer, fx.control)] else [] }

  /** The consumer held is told of every `ready`, and consumers of nothing else. */
  function GreetingDue(held: Option<Socket>, e: Event): seq<(Socket, Control)>
  {
    if e.FromProvider? && e.message == Text(Ready) && held.Some? then [(held.value, Ready)] else []
  }

  function GreetingsDue(es: seq<Event>): seq<(Socket, Control)>
    decreases |es|
  {
    if es == [] then [] else
    var before := es[..|es| - 1];
    GreetingsDue(before) + GreetingDue(Run(before).consumer, es[|es| - 1])
  }

  /** The sockets that some effects close, and with which codes. */
  function Closings(effects: seq<Effect>): seq<(Socket, nat)> { Flat(effects, ClosingOf) }

  function ClosingOf(fx: Effect): seq<(Socket, nat)>
  {
    if fx.CloseConsumer? then [(fx.consumer, fx.code)]
    else if fx.CloseProvider? then [(fx.provider, fx.code)]
    else []
  }

  /** The code that ends the turn of a consumer held, if the event does: 1013 for a full buffer, 1000 for a provider
      that is done, and 1011 for one that failed or went away. */
  function EndingCode(s: State, e: Event): Option<nat>
  {
    if e.FromConsumer? && e.message.Binary? && !s.providerReady && |s.buffer| >= 64 then Some(1013)
    else if e.FromProvider? && e.message == Text(Closed) then Some(1000)
    else if e.ProviderGone? || (e.FromProvider? && e.message == Text(Error)) then Some(1011)
    else None
  }

  /** What must be closed: each provider that another replaces, each consumer accepted with no provider at hand, and
      each consumer held at an ending that is not its own doing. */
  function ClosingDue(provider: Option<Socket>, consumer: Option<Socket>, code: Option<nat>, e: Event)
    : seq<(Socket, nat)>
  {
    if e.AcceptProvider? then
      (if provider.Some? && provider.value != e.socket then [(provider.value, 1012)] else [])
    else if e.Commit? then (if provider.None? then [(e.socket, 1011)] else [])
    else if code.Some? && consumer.Some? then [(consumer.value, code.value)]
    else []
  }

  function ClosingsDue(es: seq<Event>): seq<(Socket, nat)>
    decreases |es|
  {
    if es == [] then [] else
    var before, e := es[..|es| - 1], es[|es| - 1];
    ClosingsDue(before) + ClosingDue(Provider(before), Run(before).consumer, EndingCode(Run(before), e), e)
  }

  /** A consumer is only ever held while a provider is. */
  lemma {:induction false} HeldTogether(es: seq<Event>)
    ensures Run(es).consumer.Some? ==> Run(es).provider.Some?
    decreases |es|
  {
    if es != [] { HeldTogether(es[..|es| - 1]); }
  }

  lemma ProviderFromHistory(es: seq<Event>)
    ensures Run(es).provider == Provider(es)
  {
    ProviderHeldExactly(es);
    hide Run;
  }

  /** Over every event sequence, each notice to a provider, each message to a consumer and each closing of a socket is
      one that is due, to the socket it is due to, in order, and none that is due is missing. */
  lemma {:induction false} EveryoneIsTold(es: seq<Event>)
    ensures Notices(Effects(es)) == NoticesDue(es)
    ensures Greetings(Effects(es)) == GreetingsDue(es)
    ensures Closings(Effects(es)) == ClosingsDue(es)
    decreases |es|
  {
    if es == [] {
      assert Effects(es) == [];
    } else {
      var before, e := es[..|es| - 1], es[|es| - 1];
      EveryoneIsTold(before);
      ProviderFromHistory(before);
      HeldTogether(before);
      ToldInStep(Run(before), e);
      ToldMore(Effects(before), Step(Run(before), e).1);
      assert Effects(es) == Effects(before) + Step(Run(before), e).1;
      hide *;
      DueMore(es);
    }
  }

  /** What the last event makes due. */
  lemma DueMore(es: seq<Event>)
    requires es != []
    requires var before := es[..|es| - 1];
             TellsDue(Run(before), es[|es| - 1]) && Run(before).provider == Provider(before)
    ensures var before := es[..|es| - 1];
            var fx := Step(Run(before), es[|es| - 1]).1;
            && NoticesDue(es) == NoticesDue(before) + Notices(fx)
            && GreetingsDue(es) == GreetingsDue(before) + Greetings(fx)
            && ClosingsDue(es) == ClosingsDue(before) + Closings(fx)
  {
    hide Notices, Greetings, Closings, NoticeDue, GreetingDue, ClosingDue, Step, Provider, Run, EndingCode;
  }

  lemma ToldMore(a: seq<Effect>, b: seq<Effect>)
    ensures Notices(a + b) == Notices(a) + Notices(b)
    ensures Greetings(a + b) == Greetings(a) + Greetings(b)
    ensures Closings(a + b) == Closings(a) + Closings(b)
  {
    hide Flat;
    FlatAppend(a, b, NoticeOf);
    FlatAppend(a, b, GreetingOf);
    FlatAppend(a, b, ClosingOf);
  }

  /** Where one half of some effects tells nothing, the other half tells it all. */
  lemma ToldByEither(a: seq<Effect>, b: seq<Effect>)
    ensures Notices(a) == [] ==> Notices(a + b) == Notices(b)
    ensures Notices(b) == [] ==> Notices(a + b) == Notices(a)
    ensures Greetings(a) == [] ==> Greetings(a + b) == Greetings(b)
    ensures Greetings(b) == [] ==> Greetings(a + b) == Greetings(a)
    ensures Closings(a) == [] ==> Closings(a + b) == Closings(b)
    ensures Closings(b) == [] ==> Closings(a + b) == Closings(a)
  {
    ToldMore(a, b);
    hide *;
    assert [] + Notices(b) == Notices(b) && Notices(a) + [] == Notices(a);
    assert [] + Greetings(b) == Greetings(b) && Greetings(a) + [] == Greetings(a);
    assert [] + Closings(b) == Closings(b) && Closings(a) + [] == Closings(a);
  }

  lemma ToldByOne(fx: Effect)
    ensures Notices([fx]) == NoticeOf(fx) && Greetings([fx]) == GreetingOf(fx) && Closings([fx]) == ClosingOf(fx)
    ensures Notices([]) == [] && Greetings([]) == [] && Closings([]) == []
  {
    assert [fx][..0] == [];
    assert Flat([fx][..0], NoticeOf) == [] && Flat([fx][..0], GreetingOf) == [] && Flat([fx][..0], ClosingOf) == [];
  }

  lemma ToldByNone()
    ensures Notices([]) == [] && Greetings([]) == [] && Closings([]) == []
  {
  }

  /** An effect that tells nothing, and another. */
  lemma ToldByTwo(a: Effect, b: Effect)
    ensures NoticeOf(a) == [] ==> Notices([a, b]) == NoticeOf(b)
    ensures NoticeOf(b) == [] ==> Notices([a, b]) == NoticeOf(a)
    ensures GreetingOf(a) == [] ==> Greetings([a, b]) == GreetingOf(b)
    ensures GreetingOf(b) == [] ==> Greetings([a, b]) == GreetingOf(a)
    ensures ClosingOf(a) == [] ==> Closings([a, b]) == ClosingOf(b)
    ensures ClosingOf(b) == [] ==> Closings([a, b]) == ClosingOf(a)
  {
    ToldByOne(a);
    ToldByOne(b);
    ToldByEither([a], [b]);
    assert [a] + [b] == [a, b];
    hide *;
  }

  lemma ToldByForwarding(p: Socket, frames: seq<Frame>)
    ensures Notices(Forwarding(p, frames)) == [] && Greetings(Forwarding(p, frames)) == []
    ensures Closings(Forwarding(p, frames)) == []
  {
    FlatNone(Forwarding(p, frames), NoticeOf);
    FlatNone(Forwarding(p, frames), GreetingOf);
    FlatNone(Forwarding(p, frames), ClosingOf);
  }

  /** What one step tells, by the event alone and who is held. */
  ghost predicate TellsDue(s: State, e: Event)
  {
    var fx := Step(s, e).1;
    && Notices(fx) == NoticeDue(s.provider, e)
    && Greetings(fx) == GreetingDue(s.consumer, e)
    && Closings(fx) == ClosingDue(s.provider, s.consumer, EndingCode(s, e), e)
  }

  lemma ToldInStep(s: State, e: Event)
    requires s.consumer.Some? ==> s.provider.Some?
    ensures TellsDue(s, e)
  {
    hide TellsDue;
    match e
    case AcceptProvider(p) => ToldByRegistration(s, p);
    case Commit(c, t, d, l) => ToldByCommit(s, e);
    case FromProvider(ws, m) => ToldByProvider(s, ws, m);
    case FromConsumer(ws, m) => ToldByConsumer(s, ws, m);
    case ProviderGone(ws) => ToldByProviderGone(s, ws);
    case ConsumerGone(ws) => ToldByConsumerGone(s, ws);
  }

  /** What the usual parts of an ending tell. */
  lemma ToldByClosing(s: State, code: nat)
    ensures var fx := Closing(s, code) + Charging(s);
            Notices(fx) == [] && Greetings(fx) == []
            && Closings(fx) == if s.consumer.Some? then [(s.consumer.value, code)] else []
  {
    var charge := Charge(s.device, s.bytes, s.limit);
    hide Notices, Greetings, Closings;
    ToldByNone();
    if s.consumer.Some? {
      var close := CloseConsumer(s.consumer.value, code);
      ToldByOne(close);
      ToldByTwo(close, charge);
      assert Closing(s, code) + Charging(s) == if s.bytes > 0 then [close, charge] else [close];
    } else {
      ToldByOne(charge);
      assert Closing(s, code) + Charging(s) == if s.bytes > 0 then [charge] else [];
    }
  }

  lemma ToldByNotifying(s: State, c: Control)
    ensures var fx := Notifying(s, c) + Charging(s);
            Greetings(fx) == [] && Closings(fx) == []
            && Notices(fx) == if s.provider.Some? then [(s.provider.value, c)] else []
  {
    var charge := Charge(s.device, s.bytes, s.limit);
    hide Notices, Greetings, Closings;
    ToldByNone();
    if s.provider.Some? {
      var notice := ToProvider(s.provider.value, c);
      ToldByOne(notice);
      ToldByTwo(notice, charge);
      assert Notifying(s, c) + Charging(s) == if s.bytes > 0 then [notice, charge] else [notice];
    } else {
      ToldByOne(charge);
      assert Notifying(s, c) + Charging(s) == if s.bytes > 0 then [charge] else [];
    }
  }

  lemma ToldByRegistration(s: State, p: Socket)
    ensures TellsDue(s, AcceptProvider(p))
  {
    var registered := ToProvider(p, Registered);
    hide Notices, Greetings, Closings;
    if s.provider.Some? && s.provider.value != p {
      var close := CloseProvider(s.provider.value, 1012);
      ToldByTwo(close, registered);
      assert Step(s, AcceptProvider(p)).1 == [close, registered];
    } else {
      ToldByOne(registered);
      assert Step(s, AcceptProvider(p)).1 == [registered];
    }
  }

  lemma ToldByCommit(s: State, e: Event)
    requires e.Commit?
    ensures TellsDue(s, e)
  {
    hide Notices, Greetings, Closings;
    if s.provider.Some? {
      ToldByOne(ToProvider(s.provider.value, Connect(e.target)));
      assert Step(s, e).1 == [ToProvider(s.provider.value, Connect(e.target))];
    } else {
      ToldByOne(CloseConsumer(e.socket, 1011));
      assert Step(s, e).1 == [CloseConsumer(e.socket, 1011)];
    }
  }

  lemma ToldByProviderGone(s: State, ws: Socket)
    ensures TellsDue(s, ProviderGone(ws))
  {
    hide Notices, Greetings, Closings;
    ToldByNone();
    if s.consumer.Some? { ToldByOne(CloseConsumer(s.consumer.value, 1011)); }
  }

  lemma ToldByConsumerGone(s: State, ws: Socket)
    ensures TellsDue(s, ConsumerGone(ws))
  {
    ToldByNotifying(s, Close);
    hide Notices, Greetings, Closings, Notifying, Charging;
  }

  lemma ToldByConsumer(s: State, ws: Socket, m: Message)
    requires s.consumer.Some? ==> s.provider.Some?
    ensures TellsDue(s, FromConsumer(ws, m))
  {
    hide Notices, Greetings, Closings;
    if m.Binary? && Overflows(s) {
      ToldByClosing(s.(bytes := s.bytes + |m.frame|), 1013);
      hide Closing, Charging;
    } else if m.Binary? && s.provider.Some? && s.providerReady {
      ToldByOne(Forward(s.provider.value, m.frame));
    } else {
      ToldByNone();
    }
  }

  lemma ToldByProvider(s: State, ws: Socket, m: Message)
    ensures TellsDue(s, FromProvider(ws, m))
  {
    match m
    case Text(Ready) => ToldByReady(s, ws);
    case Text(Error) => ToldByEnd(s, ws, m, 1011);
    case Text(Closed) => ToldByEnd(s, ws, m, 1000);
    case _ => ToldByOther(s, ws, m);
  }

  lemma ToldByEnd(s: State, ws: Socket, m: Message, code: nat)
    requires (m == Text(Error) && code == 1011) || (m == Text(Closed) && code == 1000)
    ensures TellsDue(s, FromProvider(ws, m))
  {
    ToldByClosing(s, code);
    hide Notices, Greetings, Closings, Closing, Charging;
  }

  lemma ToldByOther(s: State, ws: Socket, m: Message)
    requires m != Text(Ready) && m != Text(Error) && m != Text(Closed)
    ensures TellsDue(s, FromProvider(ws, m))
  {
    hide Notices, Greetings, Closings;
    ToldByNone();
    if m == Text(Ping) && s.provider.Some? {
      ToldByOne(ToProvider(s.provider.value, Pong));
    } else if m.Binary? && s.consumer.Some? {
      ToldByOne(Deliver(s.consumer.value, m.frame));
    }
  }

  lemma ToldByReady(s: State, ws: Socket)
    ensures TellsDue(s, FromProvider(ws, Text(Ready)))
  {
    hide Notices, Greetings, Closings;
    ToldByNone();
    if s.provider.Some? { ToldByForwarding(s.provider.value, s.buffer); }
    if s.consumer.Some? { ToldByOne(ToConsumer(s.consumer.value, Ready)); }
    assert Notices(Flushing(s)) == [] && Greetings(Flushing(s)) == [] && Closings(Flushing(s)) == [];
    assert Step(s, FromProvider(ws, Text(Ready))).1 == Flushing(s) + Readying(s);
    ToldByEither(Flushing(s), Readying(s));
    hide Flushing, Step;
  }

  /** The device and the limit that charges are made for are those of the latest acceptance. */
  lemma {:induction false} LatestPays(es: seq<Event>)
    ensures LastCommit(es) < 0 ==> Run(es).device == "anonymous" && Run(es).limit == 52428800
    ensures LastCommit(es) >= 0 ==> es[LastCommit(es)].Commit?
                                    && Run(es).device == es[LastCommit(es)].device
                                    && Run(es).limit == es[LastCommit(es)].limit
    decreases |es|
  {
    if es != [] { LatestPays(es[..|es| - 1]); }
  }

  // ---- bytes ----

  function DeliveredBytes(effects: seq<Effect>): nat
  {
    if effects == [] then 0 else (if effects[0].Deliver? then |effects[0].frame| else 0) + DeliveredBytes(effects[1..])
  }

  function ChargedBytes(effects: seq<Effect>): nat
  {
    if effects == [] then 0 else (if effects[0].Charge? then effects[0].bytes else 0) + ChargedBytes(effects[1..])
  }

  /** Every byte that arrived from a consumer socket in a binary frame. */
  function ConsumerBytes(es: seq<Event>): nat
    decreases |es|
  {
    if es == [] then 0 else
    var e := es[|es| - 1];
    ConsumerBytes(es[..|es| - 1]) + (if e.FromConsumer? && e.message.Binary? then |e.message.frame| else 0)
  }

  /** Bytes counted and then dropped uncharged: when a provider-role socket goes away and when another consumer is
      accepted over the count. */
  function DiscardedBytes(es: seq<Event>): nat
    decreases |es|
  {
    if es == [] then 0 else
    var before, e := es[..|es| - 1], es[|es| - 1];
    DiscardedBytes(before) + (if e.ProviderGone? || e.Commit? then Run(before).bytes else 0)
  }

  lemma {:induction false} TotalsAppend(a: seq<Effect>, b: seq<Effect>)
    ensures DeliveredBytes(a + b) == DeliveredBytes(a) + DeliveredBytes(b)
    ensures ChargedBytes(a + b) == ChargedBytes(a) + ChargedBytes(b)
  {
    if a == [] {
      assert a + b == b;
    } else {
      TotalsAppend(a[1..], b);
      assert (a + b)[1..] == a[1..] + b;
    }
  }

  lemma {:induction false} ForwardingIsFree(p: Socket, frames: seq<Frame>)
    ensures DeliveredBytes(Forwarding(p, frames)) == 0 && ChargedBytes(Forwarding(p, frames)) == 0
    decreases |frames|
  {
    if frames != [] {
      ForwardingIsFree(p, frames[1..]);
      assert Forwarding(p, frames)[1..] == Forwarding(p, frames[1..]);
    }
  }

  lemma SmallEffects(s: State, code: nat, c: Control)
    ensures DeliveredBytes(Closing(s, code)) == DeliveredBytes(Notifying(s, c)) == DeliveredBytes(Charging(s)) == 0
    ensures ChargedBytes(Closing(s, code)) == ChargedBytes(Notifying(s, c)) == 0 && ChargedBytes(Charging(s)) == s.bytes
    ensures Charges(Closing(s, code)) == Charges(Notifying(s, c)) == [] && Charges(Charging(s)) == Charging(s)
  {
  }

  lemma ReadyIsFree(s: State)
    ensures var fx := OnReady(s).1; DeliveredBytes(fx) == 0 && ChargedBytes(fx) == 0 && Charges(fx) == []
  {
    TotalsAppend(Flushing(s), Readying(s));
    ChargesAppend(Flushing(s), Readying(s));
    if s.provider.Some? {
      ForwardingIsFree(s.provider.value, s.buffer);
      NoCharges(s.provider.value, s.buffer);
    }
  }

  /** An end that closes or notifies, then charges. */
  lemma EndEffects(s: State, first: seq<Effect>)
    requires DeliveredBytes(first) == 0 && ChargedBytes(first) == 0 && Charges(first) == []
    ensures DeliveredBytes(first + Charging(s)) == 0 && ChargedBytes(first + Charging(s)) == s.bytes
    ensures Charges(first + Charging(s)) == Charging(s)
  {
    SmallEffects(s, 0, Ping);
    TotalsAppend(first, Charging(s));
    ChargesAppend(first, Charging(s));
  }

  function Arriving(e: Event): nat { if e.FromConsumer? && e.message.Binary? then |e.message.frame| else 0 }

  /** What a step counts, delivers and charges, all at once. */
  ghost predicate Accounts(s: State, e: Event)
  {
    var fx := Step(s, e).1;
    && s.bytes + Arriving(e) + DeliveredBytes(fx)
       == Step(s, e).0.bytes + ChargedBytes(fx) + (if e.ProviderGone? || e.Commit? then s.bytes else 0)
    && Charges(fx) == (if ChargingEnd(s, e) then Charging(s.(bytes := s.bytes + Arriving(e))) else [])
  }

  lemma StepAccounts(s: State, e: Event)
    ensures Accounts(s, e)
  {
    hide Accounts;
    match e
    case FromProvider(ws, m) => ProviderAccounts(s, ws, m);
    case FromConsumer(ws, m) => ConsumerAccounts(s, ws, m);
    case ConsumerGone(ws) => GoneAccounts(s, ws);
    case _ => QuietAccounts(s, e);
  }

  lemma QuietAccounts(s: State, e: Event)
    requires e.AcceptProvider? || e.Commit? || e.ProviderGone?
    ensures Accounts(s, e)
  {
    match e
    case AcceptProvider(p) =>
      if s.provider.Some? && s.provider.value != p {
        TotalsAppend([CloseProvider(s.provider.value, 1012)], [ToProvider(p, Registered)]);
        ChargesAppend([CloseProvider(s.provider.value, 1012)], [ToProvider(p, Registered)]);
      }
    case Commit(c, t, d, l) =>
    case ProviderGone(_) =>
  }

  lemma GoneAccounts(s: State, ws: Socket)
    ensures Accounts(s, ConsumerGone(ws))
  {
    SmallEffects(s, 0, Close);
    EndEffects(s, Notifying(s, Close));
    assert s.(bytes := s.bytes + Arriving(ConsumerGone(ws))) == s;
  }

  lemma ConsumerAccounts(s: State, ws: Socket, m: Message)
    ensures Accounts(s, FromConsumer(ws, m))
  {
    if m.Binary? && Overflows(s) { OverflowAccounts(s, ws, m); }
  }

  lemma OverflowAccounts(s: State, ws: Socket, m: Message)
    requires m.Binary? && Overflows(s)
    ensures Accounts(s, FromConsumer(ws, m))
  {
    var s' := s.(bytes := s.bytes + |m.frame|);
    OverflowSteps(s, ws, m);
    SmallEffects(s', 1013, Ping);
    hide Step, Closing, Charging, Charges, ChargedBytes, DeliveredBytes;
    EndEffects(s', Closing(s', 1013));
    assert ChargingEnd(s, FromConsumer(ws, m)) && Arriving(FromConsumer(ws, m)) == |m.frame|;
    hide *;
    EndAdds(s, FromConsumer(ws, m), s');
  }

  lemma OverflowSteps(s: State, ws: Socket, m: Message)
    requires m.Binary? && Overflows(s)
    ensures var s' := s.(bytes := s.bytes + |m.frame|);
            Step(s, FromConsumer(ws, m)) == (Reset(s'), Closing(s', 1013) + Charging(s'))
  {
  }

  /** An ending that counts what it brought, charges all of it and starts from nothing. */
  lemma EndAdds(s: State, e: Event, s': State)
    requires ChargingEnd(s, e) && !e.ProviderGone? && !e.Commit? && s' == s.(bytes := s.bytes + Arriving(e))
    requires Step(s, e).0 == Reset(s') && Charges(Step(s, e).1) == Charging(s')
    requires DeliveredBytes(Step(s, e).1) == 0 && ChargedBytes(Step(s, e).1) == s'.bytes
    ensures Accounts(s, e)
  {
    hide Step, Charging, Charges, ChargedBytes, DeliveredBytes, ChargingEnd, Arriving;
  }

  lemma ProviderAccounts(s: State, ws: Socket, m: Message)
    ensures Accounts(s, FromProvider(ws, m))
  {
    hide Accounts;
    match m
    case Text(Ready) => ReadyAccounts(s, ws);
    case Text(Error) => EndAccounts(s, ws, m, 1011);
    case Text(Closed) => EndAccounts(s, ws, m, 1000);
    case _ => OtherAccounts(s, ws, m);
  }

  lemma ReadyAccounts(s: State, ws: Socket)
    ensures Accounts(s, FromProvider(ws, Text(Ready)))
  {
    ReadyIsFree(s);
  }

  lemma EndAccounts(s: State, ws: Socket, m: Message, code: nat)
    requires (m == Text(Error) && code == 1011) || (m == Text(Closed) && code == 1000)
    ensures Accounts(s, FromProvider(ws, m))
  {
    SmallEffects(s, code, Ping);
    EndEffects(s, Closing(s, code));
    assert Step(s, FromProvider(ws, m)) == (Reset(s), Closing(s, code) + Charging(s));
    assert s.(bytes := s.bytes + Arriving(FromProvider(ws, m))) == s;
  }

  lemma OtherAccounts(s: State, ws: Socket, m: Message)
    requires m != Text(Ready) && m != Text(Error) && m != Text(Closed)
    ensures Accounts(s, FromProvider(ws, m))
  {
    SmallEffects(s, 0, Pong);
  }

  /** Byte conservation: over every event sequence, the bytes counted (all consumer frames, and the provider frames
      delivered) are the bytes charged, plus those discarded, plus those still being counted. */
  lemma {:induction false} BytesConserved(es: seq<Event>)
    ensures ConsumerBytes(es) + DeliveredBytes(Effects(es))
            == ChargedBytes(Effects(es)) + DiscardedBytes(es) + Run(es).bytes
    decreases |es|
  {
    if es != [] {
      var before, e := es[..|es| - 1], es[|es| - 1];
      BytesConserved(before);
      StepAccounts(Run(before), e);
      hide Step;
      TotalsAppend(Effects(before), Step(Run(before), e).1);
    }
  }

  /** The endings that charge: provider error, provider closed, consumer gone, buffer overflow. */
  predicate ChargingEnd(s: State, e: Event)
  {
    || e.ConsumerGone?
    || (e.FromProvider? && (e.message == Text(Error) || e.message == Text(Closed)))
    || (e.FromConsumer? && e.message.Binary? && Overflows(s))
  }

  function Charges(effects: seq<Effect>): seq<Effect>
  {
    if effects == [] then [] else (if effects[0].Charge? then [effects[0]] else []) + Charges(effects[1..])
  }

  /** Each charging end hands over the exact count, the overflowing frame included, in a single charge to the
      session's device, and nothing else ever charges. */
  lemma ChargedOnceAtEnds(s: State, e: Event)
    ensures var count := s.bytes + Arriving(e);
            Charges(Step(s, e).1) == if ChargingEnd(s, e) && count > 0 then [Charge(s.device, count, s.limit)] else []
    ensures ChargingEnd(s, e) ==> Step(s, e).0.bytes == 0
  {
    StepAccounts(s, e);
  }

  lemma {:induction false} ChargesAppend(a: seq<Effect>, b: seq<Effect>)
    ensures Charges(a + b) == Charges(a) + Charges(b)
  {
    if a == [] {
      assert a + b == b;
    } else {
      ChargesAppend(a[1..], b);
      assert (a + b)[1..] == a[1..] + b && (a + b)[0] == a[0];
      var head := if a[0].Charge? then [a[0]] else [];
      assert head + (Charges(a[1..]) + Charges(b)) == (head + Charges(a[1..])) + Charges(b);
    }
  }

  lemma {:induction false} NoCharges(p: Socket, frames: seq<Frame>)
    ensures Charges(Forwarding(p, frames)) == []
    decreases |frames|
  {
    if frames != [] {
      NoCharges(p, frames[1..]);
      assert Forwarding(p, frames)[1..] == Forwarding(p, frames[1..]);
    }
  }

  /** A consumer accepted at event `i`, with a provider there to tell, whose turn nothing has ended since. */
  ghost predicate HeldSince(es: seq<Event>, i: nat)
    requires i < |es|
  {
    && es[i].Commit? && Run(es[..i]).provider.Some?
    && (forall j :: i < j < |es| ==> !Turns(Run(es[..j]), es[j]))
  }

  lemma HolderStep(s: State, e: Event)
    ensures var s' := Step(s, e).0;
            s'.consumer.Some? <==> (e.Commit? && s.provider.Some?) || (!Turns(s, e) && s.consumer.Some?)
  {
  }

  /** The session holds a consumer exactly when some acceptance still stands. */
  lemma {:induction false} ConsumerHeldExactly(es: seq<Event>)
    ensures Run(es).consumer.Some? <==> exists i :: 0 <= i < |es| && HeldSince(es, i)
    decreases |es|
  {
    if es != [] {
      var before, e := es[..|es| - 1], es[|es| - 1];
      ConsumerHeldExactly(before);
      HolderStep(Run(before), e);
      hide Step, Turns;
      HeldLonger(before, e, es);
      if Run(es).consumer.Some? && !(e.Commit? && Run(before).provider.Some?) {
        var i :| 0 <= i < |before| && HeldSince(before, i);
        assert HeldSince(es, i);
      }
      if e.Commit? && Run(before).provider.Some? { assert HeldSince(es, |es| - 1); }
    }
  }

  lemma HeldLonger(before: seq<Event>, e: Event, es: seq<Event>)
    requires es != [] && es[..|es| - 1] == before && es[|es| - 1] == e
    ensures forall i :: 0 <= i < |before| ==> (HeldSince(es, i) <==> HeldSince(before, i) && !Turns(Run(before), e))
  {
    hide Run, Turns;
    assert forall j :: 0 <= j < |es| ==> before[..j] == es[..j] by {
      assert forall j :: 0 <= j < |before| ==> before[j] == es[j];
    }
  }

  function LastProviderGone(es: seq<Event>): int { LastIndex(es, (e: Event) => e.ProviderGone?) }

  /** The session holds a provider exactly when one was registered after the last close of a provider-role socket,
      whichever that was, and it is then the one registered last. */
  lemma {:induction false} ProviderHeldExactly(es: seq<Event>)
    ensures Run(es).provider.Some? <==> LastProvider(es) > LastProviderGone(es)
    ensures Run(es).provider.Some? ==> es[LastProvider(es)] == AcceptProvider(Run(es).provider.value)
    decreases |es|
  {
    if es != [] {
      ProviderHeldExactly(es[..|es| - 1]);
      ProviderStep(Run(es[..|es| - 1]), es[|es| - 1]);
      hide Step;
    }
  }

  lemma ProviderStep(s: State, e: Event)
    ensures Step(s, e).0.provider
         == if e.AcceptProvider? then Some(e.socket) else if e.ProviderGone? then None else s.provider
  {
  }

  /** So the close of a provider that was replaced, which the session itself asked for, drops its replacement. */
  lemma ReplacementIsDropped()
    ensures var es := [AcceptProvider(0), AcceptProvider(1), ProviderGone(0)];
            && Run(es[..2]).provider == Some(1) && CloseProvider(0, 1012) in Effects(es[..2])
            && Run(es).provider == None
  {
    var es := [AcceptProvider(0), AcceptProvider(1), ProviderGone(0)];
    assert es[..1][..0] == [] && es[..2][..1] == es[..1] && es[..3][..2] == es[..2] && es[..3] == es;
    var s1 := Step(INIT, es[0]).0;
    assert Run(es[..1]) == s1 && Run(es[..2]) == Step(s1, es[1]).0;
    assert Step(s1, es[1]).1[0] == CloseProvider(0, 1012);
  }

  /** A provider found free is still free when the consumer is accepted, unless and only unless another consumer
      was accepted during the wait and its turn still stands. */
  lemma BusyCheckHoldsExactly(before: seq<Event>, between: seq<Event>)
    requires Admit(Run(before), true) == None
    ensures Run(before + between).consumer.Some?
            <==> exists i :: |before| <= i < |before + between| && HeldSince(before + between, i)
  {
    var es := before + between;
    ConsumerHeldExactly(before);
    ConsumerHeldExactly(es);
    forall i | 0 <= i < |before| && HeldSince(es, i) ensures HeldSince(before, i) {
      HeldEarlier(before, between, i);
    }
  }

  lemma HeldEarlier(before: seq<Event>, between: seq<Event>, i: nat)
    requires i < |before| && HeldSince(before + between, i)
    ensures HeldSince(before, i)
  {
    hide Run, Turns;
    var es := before + between;
    assert es[..i] == before[..i];
    forall j | i < j < |before| ensures !Turns(Run(before[..j]), before[j]) {
      assert es[..j] == before[..j] && es[j] == before[j];
    }
  }

  /** The check that the provider is free does not outlive the wait for the quota store: two consumers that both
      passed it can both be accepted, and the first one's bytes and buffered frames are then lost. */
  lemma BusyCheckDoesNotHold(f: Frame)
    requires |f| > 0
    ensures var es := [AcceptProvider(0), Commit(1, "a:443", "d1", 10),
                       FromConsumer(1, Binary(f)), Commit(2, "b:443", "d2", 10)];
            && Admit(Run(es[..1]), true) == None
            && Run(es).consumer == Some(2) && Run(es).bytes == 0 && Run(es).buffer == []
            && DiscardedBytes(es) == |f| && ChargedBytes(Effects(es)) == 0
  {
    var es := [AcceptProvider(0), Commit(1, "a:443", "d1", 10),
               FromConsumer(1, Binary(f)), Commit(2, "b:443", "d2", 10)];
    assert es[..1][..0] == [] && es[..2][..1] == es[..1] && es[..3][..2] == es[..2] && es[..4] == es;
    var s := State(Some(0), Some(1), false, "d1", 10, 0, []);
    assert Run(es[..1]) == INIT.(provider := Some(0));
    assert Run(es[..2]) == s;
    BuffersFrame(s, 1, f);
    assert Run(es[..3]) == s.(bytes := |f|, buffer := [f]);
    assert DiscardedBytes([]) == 0;
    assert DiscardedBytes(es[..1]) == 0;
    assert DiscardedBytes(es[..2]) == 0;
    assert DiscardedBytes(es[..3]) == 0;
    hide Step, Steps;
    NothingCharged(es);
  }

  /** Registrations, acceptances and frames that find room charge nothing. */
  lemma {:induction false} NothingCharged(es: seq<Event>)
    requires forall i :: 0 <= i < |es| ==> !ChargingEnd(Run(es[..i]), es[i])
    ensures ChargedBytes(Effects(es)) == 0
    decreases |es|
  {
    if es != [] {
      var before, e := es[..|es| - 1], es[|es| - 1];
      forall i | 0 <= i < |before| ensures !ChargingEnd(Run(before[..i]), before[i]) {
        assert es[..i] == before[..i] && es[i] == before[i];
      }
      assert es[..|es| - 1] == before;
      NothingCharged(before);
      hide Step, Run, ChargingEnd, Charging;
      StepAccounts(Run(before), e);
      ChargesAreCharged(Step(Run(before), e).1);
      TotalsAppend(Effects(before), Step(Run(before), e).1);
    }
  }

  lemma {:induction false} ChargesAreCharged(effects: seq<Effect>)
    ensures Charges(effects) == [] ==> ChargedBytes(effects) == 0
  {
    if effects != [] { ChargesAreCharged(effects[1..]); }
  }

  /** The checks before the wait: the HTTP status that turns the consumer away, if any. */
  function Admit(s: State, hasTarget: bool): Option<nat>
  {
    if s.provider.None? then Some(503)
    else if s.consumer.Some? then Some(409)
    else if !hasTarget then Some(400)
    else None
  }

  /** Over any run, a consumer is turned away with 503 exactly when no provider has registered since a provider-role
      socket last closed, with 409 exactly when one has but some acceptance still stands, and with 400 only for a
      missing target. */
  lemma AdmittedExactly(es: seq<Event>, hasTarget: bool)
    ensures var a, held := Admit(Run(es), hasTarget), exists i :: 0 <= i < |es| && HeldSince(es, i);
            var provided := LastProvider(es) > LastProviderGone(es);
            && (a == Some(503) <==> !provided)
            && (a == Some(409) <==> provided && held)
            && (a == Some(400) <==> provided && !held && !hasTarget)
            && (a == None <==> provided && !held && hasTarget)
  {
    ProviderHeldExactly(es);
    ConsumerHeldExactly(es);
    hide Run, HeldSince;
  }

  // ---- the session as the program writes it ----

  class HydraProviderSession {
    var provider: Option<Socket>
    var consumer: Option<Socket>
    var providerReady: bool
    var consumerDeviceId: string
    var consumerLimit: nat
    var consumerBytes: nat
    var consumerBuffer: seq<Frame>
    ghost var effects: seq<Effect>

    ghost function Abstract(): State
      reads this
    {
      State(provider, consumer, providerReady, consumerDeviceId, consumerLimit, consumerBytes, consumerBuffer)
    }

    constructor ()
      ensures Abstract() == INIT && effects == []
    {
      provider, consumer, providerReady := None, None, false;
      consumerDeviceId, consumerLimit := "anonymous", 52428800;
      consumerBytes, consumerBuffer := 0, [];
      effects := [];
    }

    twostate predicate Did(e: Event)
      reads this
    {
      (Abstract(), effects) == (Step(old(Abstract()), e).0, old(effects) + Step(old(Abstract()), e).1)
    }

    method AcceptProvider(server: Socket)
      modifies this
      ensures Did(Event.AcceptProvider(server))
    {
      if provider.Some? && provider.value != server { effects := effects + [CloseProvider(provider.value, 1012)]; }
      provider := Some(server);
      providerReady := false;
      effects := effects + [ToProvider(server, Registered)];
      assert effects == old(effects) + Step(old(Abstract()), Event.AcceptProvider(server)).1;
    }

    method CommitConsumer(server: Socket, target: string, deviceId: string, limit: nat) returns (status: nat)
      modifies this
      ensures Did(Commit(server, target, deviceId, limit))
      ensures status == if old(provider).Some? then 101 else 503
    {
      consumer := Some(server);
      consumerDeviceId := deviceId;
      consumerLimit := limit;
      consumerBytes := 0;
      consumerBuffer := [];
      providerReady := false;
      var told := NotifyProvider(Connect(target));
      if !told {
        CloseConsumer(1011);
        ResetConsumerState();
        assert effects == old(effects) + Step(old(Abstract()), Commit(server, target, deviceId, limit)).1;
        return 503;
      }
      return 101;
    }

    /** The message is handled by its socket's role; which socket it was is not looked at. */
    method WebSocketMessage(ghost ws: Socket, isProvider: bool, message: Message)
      modifies this
      ensures Did(if isProvider then FromProvider(ws, message) else FromConsumer(ws, message))
    {
      if isProvider { HandleProviderMessage(ws, message); } else { HandleConsumerMessage(ws, message); }
    }

    method HandleProviderMessage(ghost ws: Socket, message: Message)
      modifies this
      ensures Did(FromProvider(ws, message))
    {
      hide OnAcceptProvider, OnCommit, OnConsumerMessage, Overflows;
      match message
      case Garbled => assert effects == old(effects) + [];
      case Text(control) =>
        match control {
          case Ready =>
            providerReady := true;
            FlushBufferedConsumerFrames();
            if consumer.Some? { effects := effects + [ToConsumer(consumer.value, Ready)]; }
          case Error =>
            CloseConsumer(1011);
            FlushConsumerQuota();
            ResetConsumerState();
          case Closed =>
            CloseConsumer(1000);
            FlushConsumerQuota();
            ResetConsumerState();
          case Ping =>
            var told := NotifyProvider(Pong);
          case _ =>
        }
        assert effects == old(effects) + Step(old(Abstract()), FromProvider(ws, message)).1;
      case Binary(frame) =>
        if !providerReady || consumer.None? {
          assert effects == old(effects) + [];
          return;
        }
        consumerBytes := consumerBytes + |frame|;
        effects := effects + [Deliver(consumer.value, frame)];
    }

    method HandleConsumerMessage(ghost ws: Socket, message: Message)
      modifies this
      ensures Did(FromConsumer(ws, message))
    {
      assert effects == old(effects) + [];
      if !message.Binary? { return; }
      consumerBytes := consumerBytes + |message.frame|;
      if provider.Some? && providerReady {
        effects := effects + [Forward(provider.value, message.frame)];
        return;
      }
      if |consumerBuffer| >= BUFFER_LIMIT {
        CloseConsumer(1013);
        FlushConsumerQuota();
        ResetConsumerState();
        assert effects == old(effects) + Step(old(Abstract()), FromConsumer(ws, message)).1;
        return;
      }
      consumerBuffer := consumerBuffer + [message.frame];
    }

    method WebSocketClose(ghost ws: Socket, isProvider: bool)
      modifies this
      ensures Did(if isProvider then ProviderGone(ws) else ConsumerGone(ws))
    {
      if isProvider {
        provider := None;
        providerReady := false;
        CloseConsumer(1011);
        ResetConsumerState();
      } else {
        var told := NotifyProvider(Close);
        FlushConsumerQuota();
        ResetConsumerState();
      }
      assert effects == old(effects)
          + Step(old(Abstract()), if isProvider then ProviderGone(ws) else ConsumerGone(ws)).1;
    }

    method FlushBufferedConsumerFrames()
      modifies this`effects, this`consumerBuffer
      ensures var go := provider.Some? && providerReady;
              && consumerBuffer == (if go then [] else old(consumerBuffer))
              && effects == old(effects) + (if go then Forwarding(provider.value, old(consumerBuffer)) else [])
    {
      if provider.None? || !providerReady { return; }
      for i := 0 to |consumerBuffer|
        invariant consumerBuffer == old(consumerBuffer)
        invariant effects == old(effects) + Forwarding(provider.value, consumerBuffer[..i])
      {
        effects := effects + [Forward(provider.value, consumerBuffer[i])];
        assert Forwarding(provider.value, consumerBuffer[..i + 1])
            == Forwarding(provider.value, consumerBuffer[..i]) + [Forward(provider.value, consumerBuffer[i])];
      }
      assert consumerBuffer[..|consumerBuffer|] == consumerBuffer;
      consumerBuffer := [];
    }

    method NotifyProvider(c: Control) returns (told: bool)
      modifies this`effects
      ensures told == provider.Some? && effects == old(effects) + Notifying(Abstract(), c)
    {
      if provider.None? { return false; }
      effects := effects + [ToProvider(provider.value, c)];
      return true;
    }

    method CloseConsumer(code: nat)
      modifies this`effects
      ensures effects == old(effects) + Closing(Abstract(), code)
    {
      if consumer.None? { return; }
      effects := effects + [Effect.CloseConsumer(consumer.value, code)];
    }

    method FlushConsumerQuota()
      modifies this`effects
      ensures effects == old(effects) + Charging(Abstract())
    {
      if consumerBytes <= 0 { return; }
      effects := effects + [Charge(consumerDeviceId, consumerBytes, consumerLimit)];
    }

    method ResetConsumerState()
      modifies this`consumer, this`consumerBytes, this`consumerBuffer, this`providerReady
      ensures Abstract() == Reset(old(Abstract()))
    {
      consumer := None;
      consumerBytes := 0;
      consumerBuffer := [];
      providerReady := false;
    }
  }

  /** Any sequence of events, handled one after another by the class, is the run of the transition function. */
  method Drive(es: seq<Event>) returns (s: HydraProviderSession)
    ensures fresh(s) && s.Abstract() == Run(es) && s.effects == Effects(es)
  {
    s := new HydraProviderSession();
    for i := 0 to |es|
      invariant fresh(s) && s.Abstract() == Run(es[..i]) && s.effects == Effects(es[..i])
    {
      assert es[..i + 1][..i] == es[..i];
      match es[i] {
        case AcceptProvider(p) => s.AcceptProvider(p);
        case Commit(c, t, d, l) => var status := s.CommitConsumer(c, t, d, l);
        case FromProvider(ws, m) => s.WebSocketMessage(ws, true, m);
        case FromConsumer(ws, m) => s.WebSocketMessage(ws, false, m);
        case ProviderGone(ws) => s.WebSocketClose(ws, true);
        case ConsumerGone(ws) => s.WebSocketClose(ws, false);
      }
    }
    assert es[..|es|] == es;
  }

  // ---- what ends up on a device's record ----

  /** What the session handed over for a device, each with the limit the session held then. */
  function ChargesOf(effects: seq<Effect>, device: string): seq<Quota.Charge>
  {
    if effects == [] then [] else
    var rest := ChargesOf(effects[1..], device);
    if effects[0].Charge? && effects[0].device == device then [Quota.Charge(effects[0].bytes, effects[0].limit)] + rest
    else rest
  }

  lemma {:induction false} DeviceShare(effects: seq<Effect>, device: string)
    ensures Quota.Total(ChargesOf(effects, device)) <= ChargedBytes(effects)
  {
    if effects != [] { DeviceShare(effects[1..], device); }
  }

  /** What all sessions handed over for a device. */
  function AllCharges(sessions: seq<seq<Event>>, device: string): seq<Quota.Charge>
  {
    if sessions == [] then [] else ChargesOf(Effects(sessions[0]), device) + AllCharges(sessions[1..], device)
  }

  /** The bytes that all sessions counted, and those of them that were discarded or are still being counted. */
  function Counted(sessions: seq<seq<Event>>): nat
  {
    if sessions == [] then 0 else
    ConsumerBytes(sessions[0]) + DeliveredBytes(Effects(sessions[0])) + Counted(sessions[1..])
  }

  function Uncharged(sessions: seq<seq<Event>>): nat
  {
    if sessions == [] then 0 else
    Run(sessions[0]).bytes + DiscardedBytes(sessions[0]) + Uncharged(sessions[1..])
  }

  lemma {:induction false} ChargesAreCounted(sessions: seq<seq<Event>>, device: string)
    ensures Quota.Total(AllCharges(sessions, device)) + Uncharged(sessions) <= Counted(sessions)
  {
    if sessions != [] {
      ChargesAreCounted(sessions[1..], device);
      BytesConserved(sessions[0]);
      DeviceShare(Effects(sessions[0]), device);
      hide Effects, ConsumerBytes, DeliveredBytes, ChargedBytes, DiscardedBytes, ChargesOf, Run;
      Quota.TotalAppend(ChargesOf(Effects(sessions[0]), device), AllCharges(sessions[1..], device));
    }
  }

  /** What a device's record gains over a day of any sessions with any providers, whose charges reach the store in any
      order and overlap as they may, never exceeds the bytes these sessions counted. It is all that was charged to the
      device if and only if every call is over, found room, and found the record as it still was. */
  lemma RecordedIsCounted(sessions: seq<seq<Event>>, device: string, hs: seq<Quota.Half>)
    requires multiset(Quota.Begun(hs)) == multiset(AllCharges(sessions, device))
    ensures var entry, charged := Quota.ServeAll(hs).entry, Quota.Total(AllCharges(sessions, device));
            && (entry.Some? ==> entry.value.used <= entry.value.limit)
            && Quota.Used(entry) + Uncharged(sessions) <= Counted(sessions)
            && (Quota.Used(entry) == charged <==> Quota.Finished(hs) == charged && Quota.NoneDisturbed(hs))
  {
    ChargesAreCounted(sessions, device);
    Quota.TotalPermutes(Quota.Begun(hs), AllCharges(sessions, device));
    Quota.OverlapsNeverOvercharge(hs);
    Quota.OverlapsRecordAllExactly(hs);
    hide Quota.ServeAll, Quota.Finished, Quota.Begun, AllCharges, Counted, Uncharged, Quota.Total;
  }
}
