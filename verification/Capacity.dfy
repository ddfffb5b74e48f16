/**
 * How large the buffer must be. It is rewound only when it empties, so the bytes of the greeting
 * may still take up room while the credentials arrive: 257 bytes of one and 513 of the other.
 */
module Capacity {
  import opened Bytes
  import opened Buffers
  import opened Protocol
  import opened Users
  import opened Proxies
  import G = Greetings
  import A = Auths
  import Q = Requests
  import R = Relays

  const GREETING_MAX := 257
  const AUTH_MAX := 513

  // ----- the bound suffices -----

  const HEADER := 4

  /** The greeting parser, the credentials parser with the stream it works on, the first request, or a later state. */
  ghost predicate Inv(p: Proxy, cap: nat) {
    match p.state
    case GREETING =>
      && p.cb.Ok() && p.cb.cap == cap
      && if p.armed.r then G.Tracks(p.greet, p.cb, p.input, 0) else p.cb.off <= GREETING_MAX
    case AUTH => p.cb.cap == cap && if p.armed.r then Reading(p.auth, p.cb) else p.cb.off <= GREETING_MAX + AUTH_MAX
    case REQUEST => 0 < p.attempts && (p.attempts == 1 ==> AtFirstRequest(p.req, p.cb))
    case CONNECT => 0 < p.attempts
    case REPLY => 0 < p.attempts
    case _ => true
  }

  /** The first request begins no further than a greeting and credentials into the buffer. */
  ghost predicate AtFirstRequest(q: Q.Request, b: Buf) {
    match q.stage
    case VER_CMD_ATYP => b.off <= GREETING_MAX + AUTH_MAX
    case DST_LEN => q.atyp != Q.FQDN ==> b.off <= GREETING_MAX + AUTH_MAX + HEADER
    case DST_RES => true
  }

  /** The credentials read so far began no further than a greeting into the buffer. */
  ghost predicate Reading(a: A.AuthSt, b: Buf) {
    exists s, base: nat :: base <= GREETING_MAX && A.Tracks(a, b, s, base)
  }

  lemma GreetingWaits(s: seq<byte>)
    ensures G.Parse(s) == G.Waiting ==> |s| < GREETING_MAX
    ensures G.Parse(s).Chosen? ==> |s| - |G.Parse(s).rest| <= GREETING_MAX
  {
  }

  lemma AuthWaits(s: seq<byte>)
    ensures A.Parse(s) == A.Waiting ==> |s| < AUTH_MAX
    ensures A.Parse(s).Credentials? ==> |s| - |A.Parse(s).rest| <= AUTH_MAX
  {
  }

  /** A handshake read that left its parser waiting for more. */
  ghost predicate LeftWaiting(p: Proxy, ev: Event, p': Proxy) {
    ev.Readable? && (p.state == GREETING || p.state == AUTH) && p'.state == p.state && p'.armed.r
  }

  lemma GreetingReadKeeps(p: Proxy, r: Recv, cap: nat)
    requires p.state == GREETING && p.armed.r && Inv(p, cap) && Fits(p.cb, r)
    ensures var p' := OnGreetingRead(p, r);
            Inv(p', cap) && (p'.state == GREETING && p'.armed.r ==> p'.cb.Room() > cap - GREETING_MAX)
  {
    if r.Received? {
      G.ReadAgrees(p.greet, p.cb, p.ob, r.data, p.input, 0);
      GreetingHandledKeeps(p, G.GreetingRead(p.greet, p.cb, p.ob, r), r.data, cap);
    }
  }

  lemma GreetingHandledKeeps(p: Proxy, h: Handled<G.Greet>, d: seq<byte>, cap: nat)
    requires p.state == GREETING && p.armed.r && h.client.Ok() && h.client.cap == cap
    requires h.next != DONE ==> G.Agrees(h, p.ob, p.input + d, 0)
    ensures var p' := GreetingHandled(p, h, d);
            Inv(p', cap) && (p'.state == GREETING && p'.armed.r ==> p'.cb.Room() > cap - GREETING_MAX)
  {
    GreetingWaits(p.input + d);
  }

  lemma GreetingWriteKeeps(p: Proxy, n: int, cap: nat)
    requires p.state == GREETING && p.armed == OP_WRITE && Inv(p, cap) && n <= |p.ob.bytes|
    ensures Inv(OnGreetingWrite(p, n), cap)
  {
    var p' := OnGreetingWrite(p, n);
    if p'.state == AUTH {
      assert A.Tracks(p'.auth, p'.cb, p'.cb.bytes, p'.cb.off);
    }
  }

  lemma AuthReadKeeps(p: Proxy, r: Recv, users: seq<User>, cap: nat)
    requires p.state == AUTH && p.armed.r && Inv(p, cap) && Fits(p.cb, r)
    ensures var p' := OnAuthRead(p, r, users);
            Inv(p', cap) && (p'.state == AUTH && p'.armed.r ==> p'.cb.Room() > cap - GREETING_MAX - AUTH_MAX)
  {
    if r.Received? {
      var s, base: nat :| base <= GREETING_MAX && A.Tracks(p.auth, p.cb, s, base);
      A.ReadAgrees(p.auth, p.cb, p.ob, users, r.data, s, base);
      AuthHandledKeeps(p, A.AuthRead(p.auth, p.cb, p.ob, r, users), r.data, s + r.data, base, users, cap);
    }
  }

  lemma AuthHandledKeeps(p: Proxy, h: Handled<A.AuthSt>, d: seq<byte>, s: seq<byte>, base: nat, users: seq<User>, cap: nat)
    requires p.state == AUTH && p.armed.r && h.client.cap == cap && base <= GREETING_MAX
    requires h.next != DONE ==> A.Agrees(h, p.ob, users, s, base)
    ensures var p' := AuthHandled(p, h, d);
            Inv(p', cap) && (p'.state == AUTH && p'.armed.r ==> p'.cb.Room() > cap - GREETING_MAX - AUTH_MAX)
  {
    AuthWaits(s);
  }

  lemma NegotiationStepKeeps(p: Proxy, ev: Event, cap: nat)
    requires Inv(p, cap) && OneArmed(p) && Possible(p, ev) && Negotiating(p.state)
    ensures Inv(Step(p, ev), cap)
    ensures LeftWaiting(p, ev, Step(p, ev)) ==> Step(p, ev).cb.Room() > cap - GREETING_MAX - AUTH_MAX
  {
    if p.state == GREETING {
      if ev.Readable? { GreetingReadKeeps(p, ev.first, cap); } else { GreetingWriteKeeps(p, ev.n, cap); }
    } else {
      if ev.Readable? { AuthReadKeeps(p, ev.first, ev.env.users, cap); } else { AuthWriteLeaves(p, ev.n); }
    }
  }

  lemma LaterStepKeeps(p: Proxy, ev: Event, cap: nat)
    requires Inv(p, cap) && Possible(p, ev) && !Negotiating(p.state)
    ensures Inv(Step(p, ev), cap)
  {
    match p.state
    case REQUEST =>
      if ev.NameResolved? { DialLeaves(p.(lookups := p.lookups - 1), ev.env); }
      else { RequestReadKeeps(p, ev.first, ev.second, ev.env, cap); }
    case CONNECT => DialLeaves(p, ev.env);
    case REPLY => ReplyWriteLeaves(p, ev.n);
    case COPY => CopyLeaves(p, RelayEvent(ev));
  }

  lemma StepKeeps(p: Proxy, ev: Event, cap: nat)
    requires Inv(p, cap) && OneArmed(p) && Possible(p, ev)
    ensures Inv(Step(p, ev), cap)
    ensures LeftWaiting(p, ev, Step(p, ev)) ==> Step(p, ev).cb.Room() > cap - GREETING_MAX - AUTH_MAX
  {
    if Negotiating(p.state) {
      NegotiationStepKeeps(p, ev, cap);
    } else {
      LaterStepKeeps(p, ev, cap);
    }
  }

  /** A reply leads to another attempt, to the relay, or nowhere. */
  lemma ReplyWriteLeaves(p: Proxy, n: int)
    requires p.state == REPLY && n <= |p.ob.bytes|
    ensures var p' := OnReplyWrite(p, n);
            && (p'.state == REPLY ==> p'.attempts == p.attempts)
            && (p'.state == REQUEST ==> p'.attempts == p.attempts + 1)
            && !Negotiating(p'.state) && p'.state != CONNECT
  {
  }

  lemma CopyLeaves(p: Proxy, ev: R.Event)
    requires p.state == COPY && R.Possible(p.relay, ev)
    ensures var p' := OnCopy(p, ev); p'.state == COPY || p'.state == DONE || p'.state == ERROR
  {
  }

  lemma DialLeaves(p: Proxy, env: Env)
    ensures var p' := Dialed(p, env); (p'.state == CONNECT || p'.state == REPLY) && p'.attempts == p.attempts
    ensures var p' := OnConnect(p, env); (p'.state == CONNECT || p'.state == REPLY) && p'.attempts == p.attempts
  {
  }

  lemma HandledKeeps(p: Proxy, r: Q.Read, d: seq<byte>, env: Env, cap: nat)
    requires p.state == REQUEST && 0 < p.attempts
    requires p.attempts == 1 && (r.result == Q.Waits || r.result == Q.Resolves) ==> AtFirstRequest(r.q, r.client)
    ensures Inv(RequestHandled(p, r, d, env), cap)
  {
    DialLeaves(p.(req := r.q, cb := r.client, input := p.input + d), env);
  }

  lemma RequestReadKeeps(p: Proxy, first: Recv, second: Recv, env: Env, cap: nat)
    requires p.state == REQUEST && Inv(p, cap)
    ensures Inv(OnRequestRead(p, first, second, env), cap)
  {
    var f, d := Q.Front(p.req, p.cb, first), FirstData(p.req, first);
    match f
    case Stop(r) => HandledKeeps(p, r, d, env, cap);
    case Pass(q, c) =>
      ResolveKeeps(q, c.Receive(second), env.junk);
      HandledKeeps(p, Q.Resolve(q, c.Receive(second), env.junk), d + Data(second), env, cap);
  }

  /** An address that is waited for stays where it is, unless it is a name. */
  lemma ResolveKeeps(q: Q.Request, b: Buf, junk: byte)
    ensures var r := Q.Resolve(q, b, junk);
            && (r.result == Q.Waits ==> r.q == q && q.stage == Q.DST_LEN && (q.atyp == Q.FQDN || r.client == b))
            && (r.result == Q.Resolves ==> r.q.stage == Q.DST_RES || q.stage == Q.VER_CMD_ATYP)
  {
  }

  lemma AuthWriteLeaves(p: Proxy, n: int)
    requires p.state == AUTH && n <= |p.ob.bytes|
    ensures var p' := OnAuthWrite(p, n);
            && p'.cb == p.cb
            && (p'.state == AUTH ==> p'.armed == p.armed)
            && (p'.state == AUTH || p'.state == ERROR
                || (p'.state == REQUEST && 0 < p'.attempts && p'.req.stage == Q.VER_CMD_ATYP))
  {
  }

  lemma {:induction false} RunKeeps(cap: nat, auth: A.AuthSt, evs: seq<Event>)
    requires Run(Start(cap, auth), evs)
    ensures Inv(After(Start(cap, auth), evs), cap) && OneArmed(After(Start(cap, auth), evs))
  {
    if evs != [] {
      var p, ev := After(Start(cap, auth), R.Init(evs)), R.Last(evs);
      RunKeeps(cap, auth, R.Init(evs));
      StepKeeps(p, ev, cap);
    }
  }

  // ----- and no smaller buffer does -----

  /** After every run, a handshake read that waits for more leaves room to receive it. */
  ghost predicate AlwaysRoom(cap: nat) {
    forall auth: A.AuthSt, evs: seq<Event> ::
      Run(Start(cap, auth), evs) && evs != [] && Waits(cap, auth, evs)
      ==> After(Start(cap, auth), evs).cb.Room() > 0
  }

  ghost predicate Waits(cap: nat, auth: A.AuthSt, evs: seq<Event>)
    requires Run(Start(cap, auth), evs) && evs != []
  {
    LeftWaiting(After(Start(cap, auth), R.Init(evs)), R.Last(evs), After(Start(cap, auth), evs))
  }

  const BLANK: A.AuthSt :=
    A.AuthSt(A.AUTH_VER, 0, 0, seq(A.FIELD_SIZE, _ => 0), seq(A.FIELD_SIZE, _ => 0), false)

  /** A run that ends with a waiting parser and a full buffer refutes the promise. */
  lemma Refuted(cap: nat, evs: seq<Event>, ev: Event)
    requires Run(Start(cap, BLANK), evs) && Possible(After(Start(cap, BLANK), evs), ev)
    requires var p := After(Start(cap, BLANK), evs);
             LeftWaiting(p, ev, Step(p, ev)) && Step(p, ev).cb.Room() == 0
    ensures !AlwaysRoom(cap)
  {
    RunSnoc(Start(cap, BLANK), evs, ev);
    assert Waits(cap, BLANK, evs + [ev]);
  }

  /** `n` methods, the last of them asking for a password. */
  function Offer(n: nat): seq<byte>
    requires 0 < n < 256
  {
    seq(n - 1, _ => 0) + [G.AUTH_METHOD]
  }

  /** The longest credentials: 513 bytes. */
  function Longest(): (s: seq<byte>)
    ensures |s| == AUTH_MAX && s[0] == A.AUTH_VERSION && s[1] == 255
  {
    A.Message(seq(255, _ => 97), seq(255, _ => 98))
  }

  /** Filling the buffer with part of a greeting leaves it full, unless just the header came and was consumed. */
  lemma GreetingFills(p: Proxy, d: seq<byte>)
    requires p.state == GREETING && p.armed == OP_READ && G.Tracks(p.greet, p.cb, p.input, 0)
    requires |d| == p.cb.Room() > 0 && |p.input + d| != 2 && G.Parse(p.input + d) == G.Waiting
    ensures var p' := OnGreetingRead(p, Received(d));
            p'.state == GREETING && p'.armed == OP_READ && p'.cb.Room() == 0
  {
    G.ReadAgrees(p.greet, p.cb, p.ob, d, p.input, 0);
  }

  /** Two bytes hold a header and, once it is consumed, two methods. */
  lemma TooSmallForMethods()
    ensures !AlwaysRoom(2)
  {
    var s, p := G.Message(Offer(255)), Start(2, BLANK);
    var d1, d2 := s[..2], s[2..4];
    HeaderHeard(p, d1);
    RunSnoc(p, [], Hear(d1));
    assert d1 + d2 == s[..4];
    G.PrefixWaits(Offer(255), d1 + d2);
    GreetingFills(OnGreetingRead(p, Received(d1)), d2);
    Refuted(2, [] + [Hear(d1)], Hear(d2));
  }

  lemma HeaderHeard(p: Proxy, d: seq<byte>)
    requires p == Start(2, BLANK) && d == G.Message(Offer(255))[..2]
    ensures var p' := OnGreetingRead(p, Received(d));
            && p'.state == GREETING && p'.armed == OP_READ && p'.cb == Buf([], 0, 2) && p'.input == d
            && G.Tracks(p'.greet, p'.cb, p'.input, 0)
  {
    G.PrefixWaits(Offer(255), d);
    G.ReadAgrees(p.greet, p.cb, p.ob, d, [], 0);
    assert [] + d == d;
  }

  lemma TooSmallForGreeting(cap: nat)
    requires 0 < cap < GREETING_MAX
    ensures !AlwaysRoom(cap)
  {
    var s, p := G.Message(Offer(255)), Start(cap, BLANK);
    if cap == 2 {
      TooSmallForMethods();
    } else {
      var d := s[..cap];
      G.PrefixWaits(Offer(255), d);
      assert [] + d == d;
      GreetingFills(p, d);
      Refuted(cap, [], Hear(d));
    }
  }

  /** The greeting arrives with the first `r` bytes of the longest credentials behind it. */
  lemma GreetingDone(cap: nat, n: nat, r: nat)
    requires 0 < n < 256 && 0 < r <= AUTH_MAX && cap == 2 + n + r
    ensures var d := G.Message(Offer(n)) + Longest()[..r];
            var p1 := OnGreetingRead(Start(cap, BLANK), Received(d));
            var p2 := OnGreetingWrite(p1, 2);
            && p1.state == GREETING && p1.armed == OP_WRITE && |p1.ob.bytes| == 2
            && p2.state == AUTH && p2.armed == OP_READ && p2.auth == BLANK
            && p2.cb == Buf(Longest()[..r], 2 + n, cap)
  {
    var d := G.Message(Offer(n)) + Longest()[..r];
    GreetingHeard(cap, n, r);
    GreetingAnswered(OnGreetingRead(Start(cap, BLANK), Received(d)));
  }

  lemma GreetingAnswered(p: Proxy)
    requires p.state == GREETING && p.greet.chosen == G.AUTH_METHOD && |p.ob.bytes| == 2 && p.auth == BLANK
    ensures var p' := OnGreetingWrite(p, 2);
            p'.state == AUTH && p'.armed == OP_READ && p'.auth == BLANK && p'.cb == p.cb
  {
  }

  lemma GreetingHeard(cap: nat, n: nat, r: nat)
    requires 0 < n < 256 && 0 < r <= AUTH_MAX && cap == 2 + n + r
    ensures var d := G.Message(Offer(n)) + Longest()[..r];
            var p1 := OnGreetingRead(Start(cap, BLANK), Received(d));
            && p1.state == GREETING && p1.armed == OP_WRITE && |p1.ob.bytes| == 2 && p1.auth == BLANK
            && p1.greet.chosen == G.AUTH_METHOD && p1.cb == Buf(Longest()[..r], 2 + n, cap)
  {
    var p, tail := Start(cap, BLANK), Longest()[..r];
    var d := G.Message(Offer(n)) + tail;
    assert [] + d == d && |d| == cap;
    assert Offer(n)[n - 1] == G.AUTH_METHOD;
    G.ReadAgrees(p.greet, p.cb, p.ob, d, [], 0);
    G.ConsumesItsMessageIff(Offer(n), tail);
    GreetingTaken(p, G.GreetingRead(p.greet, p.cb, p.ob, Received(d)), d, cap, n, tail);
  }

  lemma GreetingTaken(p: Proxy, h: Handled<G.Greet>, d: seq<byte>, cap: nat, n: nat, tail: seq<byte>)
    requires p == Start(cap, BLANK) && 0 < n < 256 && tail != [] && cap == 2 + n + |tail| == |d|
    requires G.Parse(d) == G.Chosen(G.AUTH_METHOD, tail) && G.Agrees(h, p.ob, d, 0) && EndsWith(h.client, p.cb.Fill(d))
    ensures var p1 := GreetingHandled(p, h, d);
            && p1.state == GREETING && p1.armed == OP_WRITE && |p1.ob.bytes| == 2 && p1.auth == BLANK
            && p1.greet.chosen == G.AUTH_METHOD && p1.cb == Buf(tail, 2 + n, cap)
  {
  }

  /** Unless they end right behind the header, the user name or the next length, partial credentials stay buffered. */
  lemma PartStaysBuffered(a: A.AuthSt, b: Buf, r: nat, base: nat)
    requires 3 <= r < AUTH_MAX && r != 257 && r != 258
    requires A.Tracks(a, b, Longest()[..r], base)
    ensures b.bytes != []
  {
  }

  lemma AuthFills(p: Proxy, r: nat)
    requires p.state == AUTH && p.armed == OP_READ && p.auth == BLANK
    requires 3 <= r < AUTH_MAX && r != 257 && r != 258
    requires p.cb.Ok() && p.cb.bytes == Longest()[..r] && p.cb.Room() == 0
    ensures var p' := OnAuthRead(p, Received([]), []);
            p'.state == AUTH && p'.armed == OP_READ && p'.cb.Room() == 0
  {
    var s := Longest()[..r];
    assert s + [] == s;
    A.PrefixWaits(seq(255, _ => 97), seq(255, _ => 98), s);
    A.ReadAgrees(p.auth, p.cb, p.ob, [], [], s, p.cb.off);
    PartStaysBuffered(A.AuthRead(p.auth, p.cb, p.ob, Received([]), []).st,
                      A.AuthRead(p.auth, p.cb, p.ob, Received([]), []).client, r, p.cb.off);
  }

  lemma TooSmallForCredentials(cap: nat)
    requires GREETING_MAX <= cap < GREETING_MAX + AUTH_MAX
    ensures !AlwaysRoom(cap)
  {
    var k := if cap <= 513 then 252 else 262;
    var n := if cap - k <= 255 then cap - k else 255;
    var r := cap - 2 - n;
    var p, d := Start(cap, BLANK), G.Message(Offer(n)) + Longest()[..r];
    GreetingDone(cap, n, r);
    RunSnoc(p, [], Hear(d));
    var p1 := OnGreetingRead(p, Received(d));
    RunSnoc(p, [] + [Hear(d)], Answer(2));
    AuthFills(OnGreetingWrite(p1, 2), r);
    Refuted(cap, [] + [Hear(d)] + [Answer(2)], Hear([]));
  }

  /**
   * The exact capacity: a handshake read that waits for more leaves room for it, after every run,
   * exactly when the buffer holds the longest greeting and the longest credentials together.
   */
  lemma ExactCapacity(cap: nat)
    requires cap > 0
    ensures AlwaysRoom(cap) <==> cap >= GREETING_MAX + AUTH_MAX
  {
    if cap < GREETING_MAX {
      TooSmallForGreeting(cap);
    } else if cap < GREETING_MAX + AUTH_MAX {
      TooSmallForCredentials(cap);
    } else {
      forall auth: A.AuthSt, evs: seq<Event>
        | Run(Start(cap, auth), evs) && evs != [] && Waits(cap, auth, evs)
        ensures After(Start(cap, auth), evs).cb.Room() > 0
      {
        RunKeeps(cap, auth, R.Init(evs));
        StepKeeps(After(Start(cap, auth), R.Init(evs)), R.Last(evs), cap);
      }
    }
  }

  const BUFFER_SIZE := 1024

  /** The server's buffers are large enough. */
  lemma ServerBuffersSuffice()
    ensures AlwaysRoom(BUFFER_SIZE)
  {
    ExactCapacity(BUFFER_SIZE);
  }
}
