/**
 * One proxied connection from accept to relay: the handlers of every state, put together by the
 * state machine, as a transition system over readiness events.
 */
module Proxies {
  import opened Bytes
  import opened Buffers
  import opened Protocol
  import opened Users
  import G = Greetings
  import L = Replies
  import A = Auths
  import Q = Requests
  import R = Relays
  import W = AddressWalks

  /** What a connection attempt came to: there was no address to walk to, or the walk ended. */
  datatype Dial = NoAddress | Walked(ending: W.Returned)

  /**
   * What the environment answers to a handler: the dial, what a pending connection's socket reports, the
   * bound address, if it can be had, the user table at that time, and an uninitialized variable's value.
   */
  datatype Env = Env(dial: Dial, check: W.Pending, bound: Option<seq<byte>>, users: seq<User>, junk: byte)

  /**
   * `open` and `registered` tell whether there is an origin descriptor and whether it has a selector slot,
   * `lookups` counts the resolutions under way. `input` is everything received from the client; `attempts`
   * counts arrivals in the REQUEST state.
   */
  datatype Proxy = Proxy(
    state: State, armed: Interest, greet: G.Greet, auth: A.AuthSt, req: Q.Request, cb: Buf, ob: Buf,
    rep: byte, found: bool, open: bool, registered: bool, lookups: nat, relay: R.Relay,
    input: seq<byte>, attempts: nat)

  datatype Event =
    | Readable(x: R.Side, first: Recv, second: Recv, env: Env)
    | Writable(x: R.Side, n: int, env: Env)
    | NameResolved(env: Env)

  /** A connection just accepted. What `auth` holds is not initialized. */
  function Start(cap: nat, auth: A.AuthSt): Proxy {
    var b := Buf([], 0, cap);
    Proxy(GREETING, OP_READ, G.START, auth, Q.Request(Q.VER_CMD_ATYP, 0, 0, [], 0), b, b,
          L.SUCCEDED, false, false, false, 0, R.Arrival(b, b, true, false), [], 0)
  }

  function Data(r: Recv): seq<byte> {
    if r.Received? then r.data else []
  }

  function Armed(p: Proxy, i: Option<Interest>): Proxy {
    if i.Some? then p.(armed := i.value) else p
  }

  predicate Negotiating(s: State) {
    s == GREETING || s == AUTH
  }

  /** While negotiating, the client is waited for either to read or to write. */
  ghost predicate OneArmed(p: Proxy) {
    Negotiating(p.state) ==> p.armed == OP_READ || p.armed == OP_WRITE
  }

  /**
   * What no handler takes back: the client's input, the count of attempts, the origin's buffer and its
   * order, the end of the negotiation.
   */
  ghost predicate Progress(p: Proxy, p': Proxy) {
    && p.input <= p'.input && p.attempts <= p'.attempts
    && Keeps(p.ob, p'.ob)
    && (!Negotiating(p.state) ==> !Negotiating(p'.state))
    && (OneArmed(p) ==> OneArmed(p'))
  }

  // ----- moving between states -----

  function ToRequest(p: Proxy): (p': Proxy)
    ensures Progress(p, p')
  {
    p.(state := REQUEST, armed := OP_READ, req := p.req.(stage := Q.VER_CMD_ATYP), attempts := p.attempts + 1)
  }

  /** Arrival in REPLY: the bound address can only be had if the origin has a descriptor. */
  function ToReply(p: Proxy, rep: byte, env: Env): (p': Proxy)
    ensures Progress(p, p')
  {
    var bound := if p.open then env.bound else None;
    p.(state := REPLY, armed := OP_WRITE, rep := rep, found := bound.Some?, ob := L.Announce(p.ob, rep, bound))
  }

  /** A walk returned: it has left a descriptor, with a slot if its connection is in progress. */
  function AfterWalk(p: Proxy, e: W.Returned, env: Env): (p'': Proxy)
    ensures Progress(p, p'')
  {
    var p' := p.(open := true, registered := e == W.ConnectionInProgress);
    match W.ReplyTo(W.ResultOf(e))
    case None => p'.(state := CONNECT, armed := OP_WRITE)
    case Some(rep) => ToReply(p', rep, env)
  }

  /** `connect_to_dest`. */
  function Dialed(p: Proxy, env: Env): (p': Proxy)
    ensures Progress(p, p')
  {
    match env.dial
    case NoAddress => ToReply(p, W.SERVER_FAILURE, env)
    case Walked(e) => AfterWalk(p, e, env)
  }

  /** `connect_write`: `NoAddress` says that the address that broke was the last. */
  function OnConnect(p: Proxy, env: Env): (p': Proxy)
    ensures Progress(p, p')
  {
    match env.check
    case Unknown => ToReply(p, W.SERVER_FAILURE, env)
    case NoError => ToReply(p, L.SUCCEDED, env)
    case Broken(optVal) =>
      match env.dial
      case NoAddress => ToReply(p.(open := false, registered := false), W.LastReply(optVal), env)
      case Walked(e) => AfterWalk(p, e, env)
  }

  function ToCopy(p: Proxy): Proxy {
    p.(state := COPY, relay := R.Arrival(p.cb, p.ob, true, p.registered))
  }

  // ----- one event -----

  function OnGreetingRead(p: Proxy, r: Recv): (p': Proxy)
    requires p.state == GREETING
    ensures Progress(p, p')
  {
    GreetingHandled(p, G.GreetingRead(p.greet, p.cb, p.ob, r), Data(r))
  }

  function GreetingHandled(p: Proxy, h: Handled<G.Greet>, d: seq<byte>): Proxy
    requires p.state == GREETING
  {
    Armed(p.(greet := h.st, cb := h.client, ob := h.origin, state := h.next, input := p.input + d), h.arm)
  }

  function OnGreetingWrite(p: Proxy, n: int): (p'': Proxy)
    requires p.state == GREETING
    requires n <= |p.ob.bytes|
    ensures Progress(p, p'')
  {
    var w := G.GreetingWrite(p.greet, p.ob, n);
    var p' := Armed(p.(ob := w.origin, state := w.next), w.arm);
    match w.next
    case AUTH => p'.(auth := A.Arrived(p.auth))
    case REQUEST => ToRequest(p')
    case _ => p'
  }

  function OnAuthRead(p: Proxy, r: Recv, users: seq<User>): (p': Proxy)
    requires p.state == AUTH
    ensures Progress(p, p')
  {
    AuthHandled(p, A.AuthRead(p.auth, p.cb, p.ob, r, users), Data(r))
  }

  function AuthHandled(p: Proxy, h: Handled<A.AuthSt>, d: seq<byte>): (p': Proxy)
    requires p.state == AUTH
    ensures A.Stays(h, p.ob) ==> Progress(p, p')
  {
    Armed(p.(auth := h.st, cb := h.client, ob := h.origin, state := h.next, input := p.input + d), h.arm)
  }

  function OnAuthWrite(p: Proxy, n: int): (p'': Proxy)
    requires p.state == AUTH
    requires n <= |p.ob.bytes|
    ensures Progress(p, p'')
  {
    var w := A.AuthWrite(p.auth, p.ob, n);
    var p' := Armed(p.(ob := w.origin, state := w.next), w.arm);
    if w.next == REQUEST then ToRequest(p') else p'
  }

  /** What the first receive of a request read delivered. */
  function FirstData(q: Q.Request, first: Recv): seq<byte> {
    if q.stage == Q.VER_CMD_ATYP then Data(first) else []
  }

  function OnRequestRead(p: Proxy, first: Recv, second: Recv, env: Env): (p': Proxy)
    requires p.state == REQUEST
    ensures Progress(p, p')
  {
    HeadHandled(p, Q.Front(p.req, p.cb, first), FirstData(p.req, first), second, env)
  }

  /** The rest of a request read, whose front received `d`. */
  function HeadHandled(p: Proxy, f: Q.Head, d: seq<byte>, second: Recv, env: Env): (p': Proxy)
    requires p.state == REQUEST
    ensures Progress(p, p')
  {
    match f
    case Stop(r) => RequestHandled(p, r, d, env)
    case Pass(q, c) => RequestHandled(p, Q.Resolve(q, c.Receive(second), env.junk), d + Data(second), env)
  }

  function RequestHandled(p: Proxy, r: Q.Read, d: seq<byte>, env: Env): (p'': Proxy)
    requires p.state == REQUEST
    ensures p''.input == p.input + d && Progress(p, p'')
  {
    var p' := p.(req := r.q, cb := r.client, input := p.input + d);
    match r.result
    case Waits => p'
    case Closed => p'.(state := DONE)
    case Refused(rep) => ToReply(p', rep, env)
    case Resolves => p'.(lookups := p'.lookups + 1)
    case Connects => Dialed(p', env)
  }

  function OnReplyWrite(p: Proxy, n: int): (p'': Proxy)
    requires p.state == REPLY
    requires n <= |p.ob.bytes|
    ensures Progress(p, p'')
  {
    var w := L.ReplyWrite(p.rep, p.found, p.ob, n);
    var p' := p.(ob := w.origin);
    match w.next
    case COPY => ToCopy(p')
    case REQUEST => ToRequest(Armed(p', w.arm))
    case _ => p'.(state := w.next)
  }

  function RelayEvent(ev: Event): R.Event
    requires !ev.NameResolved?
  {
    if ev.Readable? then R.Readable(ev.x, ev.first) else R.Writable(ev.x, ev.n)
  }

  function OnCopy(p: Proxy, ev: R.Event): (p': Proxy)
    requires p.state == COPY
    requires R.Possible(p.relay, ev)
    ensures Progress(p, p')
  {
    var (relay, verdict) := R.Step(p.relay, ev);
    p.(relay := relay, state := verdict, input := p.input + R.Brought(R.Client, ev))
  }

  /** The system call outcomes are ones the buffers allow, and the event is one the state handles. */
  ghost predicate Possible(p: Proxy, ev: Event) {
    match p.state
    case GREETING => CanRead(p, ev) || CanWrite(p, ev)
    case AUTH => CanRead(p, ev) || CanWrite(p, ev)
    case REQUEST =>
      if ev.NameResolved? then p.lookups > 0
      else ev.Readable? && ev.x == R.Client && p.armed.r && Q.Possible(p.req, p.cb, ev.first, ev.second)
    case CONNECT => ev.Writable?
    case REPLY => CanWrite(p, ev)
    case COPY => !ev.NameResolved? && R.Possible(p.relay, RelayEvent(ev)) && R.Dispatched(p.relay, RelayEvent(ev))
    case DONE => false
    case ERROR => false
  }

  ghost predicate CanRead(p: Proxy, ev: Event) {
    ev.Readable? && ev.x == R.Client && p.armed.r && Fits(p.cb, ev.first)
  }

  ghost predicate CanWrite(p: Proxy, ev: Event) {
    ev.Writable? && ev.x == R.Client && p.armed.w && ev.n <= |p.ob.bytes|
  }

  ghost function Step(p: Proxy, ev: Event): (p': Proxy)
    requires Possible(p, ev)
    ensures Progress(p, p')
  {
    match p.state
    case GREETING => if ev.Readable? then OnGreetingRead(p, ev.first) else OnGreetingWrite(p, ev.n)
    case AUTH => if ev.Readable? then OnAuthRead(p, ev.first, ev.env.users) else OnAuthWrite(p, ev.n)
    case REQUEST =>
      if ev.NameResolved? then Dialed(p.(lookups := p.lookups - 1), ev.env)
      else OnRequestRead(p, ev.first, ev.second, ev.env)
    case CONNECT => OnConnect(p, ev.env)
    case REPLY => OnReplyWrite(p, ev.n)
    case COPY => OnCopy(p, RelayEvent(ev))
  }

  // ----- runs -----

  ghost predicate Run(p: Proxy, evs: seq<Event>)
    decreases |evs|, 0
  {
    evs == [] || (Run(p, R.Init(evs)) && Possible(After(p, R.Init(evs)), R.Last(evs)))
  }

  ghost function After(p: Proxy, evs: seq<Event>): Proxy
    requires Run(p, evs)
    decreases |evs|, 1
  {
    if evs == [] then p else Step(After(p, R.Init(evs)), R.Last(evs))
  }

  /** A run may go on with any event possible at its end. */
  lemma RunSnoc(p: Proxy, evs: seq<Event>, ev: Event)
    requires Run(p, evs) && Possible(After(p, evs), ev)
    ensures Run(p, evs + [ev])
    ensures After(p, evs + [ev]) == Step(After(p, evs), ev)
    ensures R.Init(evs + [ev]) == evs && R.Last(evs + [ev]) == ev
  {
    assert R.Init(evs + [ev]) == evs;
  }

  lemma RunTwo(p: Proxy, evs: seq<Event>, a: Event, b: Event)
    requires Run(p, evs) && Possible(After(p, evs), a) && Possible(Step(After(p, evs), a), b)
    ensures Run(p, evs + [a] + [b]) && After(p, evs + [a] + [b]) == Step(Step(After(p, evs), a), b)
  {
    RunSnoc(p, evs, a);
    RunSnoc(p, evs + [a], b);
  }

  /** Nothing is found, connected or known. */
  const QUIET := Env(NoAddress, W.Unknown, None, [], 0)

  /** The client sends `d`, and nothing else happens. */
  function Hear(d: seq<byte>): Event {
    Readable(R.Client, Received(d), RecvError, QUIET)
  }

  /** `n` bytes of an answer go out to the client. */
  function Answer(n: int): Event {
    Writable(R.Client, n, QUIET)
  }
}
