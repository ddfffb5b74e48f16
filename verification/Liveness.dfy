/**
 * When a connection can still move: exactly unless its client's buffer is full of part of a message. Once it
 * relays, every event it asks for finds work.
 */
module Liveness {
  import opened Bytes
  import opened Buffers
  import opened Protocol
  import opened Users
  import opened Proxies
  import A = Auths
  import G = Greetings
  import L = Replies
  import Q = Requests
  import R = Relays
  import W = AddressWalks

  ghost predicate Sound(b: Buf, cap: nat) {
    b.Ok() && b.cap == cap
  }

  /** The relay is in order, and has not given up both directions. */
  ghost predicate Relaying(r: R.Relay) {
    exists down: set<R.Side> :: R.Healthy(r, down) && down != {R.Client, R.Origin}
  }

  /** Each state is armed for what it handles; a success is replied only with a slot for the origin, or not at all. */
  ghost predicate Inv(p: Proxy, cap: nat) {
    && OneArmed(p) && Sound(p.cb, cap) && Sound(p.ob, cap)
    && match p.state
       case REQUEST => p.armed.r
       case CONNECT => p.open && p.registered
       case REPLY => p.armed.w && (p.rep == L.SUCCEDED && p.found ==> p.registered)
       case COPY => p.registered && Relaying(p.relay)
       case _ => true
  }

  lemma GreetingReadKeeps(p: Proxy, r: Recv, cap: nat)
    requires Inv(p, cap) && p.state == GREETING && Fits(p.cb, r)
    ensures Inv(OnGreetingRead(p, r), cap)
  {
    GreetingHandledKeeps(p, G.GreetingRead(p.greet, p.cb, p.ob, r), Data(r), cap);
  }

  /** A read of the greeting stays in its state or ends the connection. */
  lemma GreetingHandledKeeps(p: Proxy, h: Handled<G.Greet>, d: seq<byte>, cap: nat)
    requires Inv(p, cap) && p.state == GREETING && Keeps(p.cb, h.client) && Keeps(p.ob, h.origin)
    requires (h.next == GREETING || h.next == DONE || h.next == ERROR) && (h.arm == None || h.arm == Some(OP_WRITE))
    ensures Inv(GreetingHandled(p, h, d), cap)
  {
  }

  lemma GreetingWriteKeeps(p: Proxy, n: int, cap: nat)
    requires Inv(p, cap) && p.state == GREETING && n <= |p.ob.bytes|
    ensures Inv(OnGreetingWrite(p, n), cap)
  {
  }

  lemma AuthReadKeeps(p: Proxy, r: Recv, users: seq<User>, cap: nat)
    requires Inv(p, cap) && p.state == AUTH && Fits(p.cb, r)
    ensures Inv(OnAuthRead(p, r, users), cap)
  {
    AuthHandledKeeps(p, A.AuthRead(p.auth, p.cb, p.ob, r, users), Data(r), cap);
  }

  lemma AuthHandledKeeps(p: Proxy, h: Handled<A.AuthSt>, d: seq<byte>, cap: nat)
    requires Inv(p, cap) && p.state == AUTH && Keeps(p.cb, h.client) && A.Stays(h, p.ob)
    ensures Inv(AuthHandled(p, h, d), cap)
  {
  }

  lemma AuthWriteKeeps(p: Proxy, n: int, cap: nat)
    requires Inv(p, cap) && p.state == AUTH && n <= |p.ob.bytes|
    ensures Inv(OnAuthWrite(p, n), cap)
  {
  }

  lemma AfterWalkKeeps(p: Proxy, e: W.Returned, env: Env, cap: nat)
    requires Sound(p.cb, cap) && Sound(p.ob, cap)
    ensures Inv(AfterWalk(p, e, env), cap)
  {
    W.NoWalkSucceeds(e);
  }

  lemma DialedKeeps(p: Proxy, env: Env, cap: nat)
    requires Sound(p.cb, cap) && Sound(p.ob, cap)
    ensures Inv(Dialed(p, env), cap)
  {
    if env.dial.Walked? {
      AfterWalkKeeps(p, env.dial.ending, env, cap);
    }
  }

  lemma ConnectKeeps(p: Proxy, env: Env, cap: nat)
    requires Inv(p, cap) && p.state == CONNECT
    ensures Inv(OnConnect(p, env), cap)
  {
    if env.dial.Walked? {
      AfterWalkKeeps(p, env.dial.ending, env, cap);
    }
  }

  lemma RequestHandledKeeps(p: Proxy, r: Q.Read, d: seq<byte>, env: Env, cap: nat)
    requires p.state == REQUEST && p.armed.r && Sound(r.client, cap) && Sound(p.ob, cap)
    requires r.result.Refused? ==> r.result.rep != L.SUCCEDED
    ensures Inv(RequestHandled(p, r, d, env), cap)
  {
    if r.result.Connects? {
      DialedKeeps(p.(req := r.q, cb := r.client, input := p.input + d), env, cap);
    }
  }

  lemma RequestReadKeeps(p: Proxy, first: Recv, second: Recv, env: Env, cap: nat)
    requires Inv(p, cap) && p.state == REQUEST && Q.Possible(p.req, p.cb, first, second)
    ensures Inv(OnRequestRead(p, first, second, env), cap)
  {
    var f, d := Q.Front(p.req, p.cb, first), FirstData(p.req, first);
    match f
    case Stop(r) => RequestHandledKeeps(p, r, d, env, cap);
    case Pass(q, c) => RequestHandledKeeps(p, Q.Resolve(q, c.Receive(second), env.junk), d + Data(second), env, cap);
  }

  lemma ReplyWriteKeeps(p: Proxy, n: int, cap: nat)
    requires cap > 0 && Inv(p, cap) && p.state == REPLY && n <= |p.ob.bytes|
    ensures Inv(OnReplyWrite(p, n), cap)
  {
    var p' := OnReplyWrite(p, n);
    if p'.state == COPY {
      R.RunKeepsHealthy(p'.cb, p'.ob, []);
      R.BothDown(R.UnarmedOnArrival(p'.cb));
    }
  }

  lemma CopyKeeps(p: Proxy, ev: R.Event, cap: nat)
    requires Inv(p, cap) && p.state == COPY && R.Possible(p.relay, ev) && R.Dispatched(p.relay, ev)
    ensures Inv(OnCopy(p, ev), cap)
  {
    var down :| R.Healthy(p.relay, down) && down != {R.Client, R.Origin};
    R.StepKeepsHealthy(p.relay, ev, down);
  }

  lemma NegotiationStepKeeps(p: Proxy, ev: Event, cap: nat)
    requires Inv(p, cap) && Possible(p, ev) && Negotiating(p.state)
    ensures Inv(Step(p, ev), cap)
  {
    if p.state == GREETING {
      if ev.Readable? { GreetingReadKeeps(p, ev.first, cap); } else { GreetingWriteKeeps(p, ev.n, cap); }
    } else {
      if ev.Readable? { AuthReadKeeps(p, ev.first, ev.env.users, cap); } else { AuthWriteKeeps(p, ev.n, cap); }
    }
  }

  lemma RequestStepKeeps(p: Proxy, ev: Event, cap: nat)
    requires Inv(p, cap) && Possible(p, ev) && p.state == REQUEST
    ensures Inv(Step(p, ev), cap)
  {
    if ev.NameResolved? {
      DialedKeeps(p.(lookups := p.lookups - 1), ev.env, cap);
    } else {
      RequestReadKeeps(p, ev.first, ev.second, ev.env, cap);
    }
  }

  lemma StepKeeps(p: Proxy, ev: Event, cap: nat)
    requires cap > 0 && Inv(p, cap) && Possible(p, ev)
    ensures Inv(Step(p, ev), cap)
  {
    match p.state
    case GREETING => NegotiationStepKeeps(p, ev, cap);
    case AUTH => NegotiationStepKeeps(p, ev, cap);
    case REQUEST => RequestStepKeeps(p, ev, cap);
    case CONNECT => ConnectKeeps(p, ev.env, cap);
    case REPLY => ReplyWriteKeeps(p, ev.n, cap);
    case COPY => CopyKeeps(p, RelayEvent(ev), cap);
  }

  lemma {:induction false} RunKeeps(cap: nat, auth: A.AuthSt, evs: seq<Event>)
    requires cap > 0 && Run(Start(cap, auth), evs)
    ensures Inv(After(Start(cap, auth), evs), cap)
  {
    if evs != [] {
      RunKeeps(cap, auth, R.Init(evs));
      StepKeeps(After(Start(cap, auth), R.Init(evs)), R.Last(evs), cap);
    }
  }

  // ----- what a connection can wait for -----

  /** No system call of the event fails. */
  predicate Works(ev: Event) {
    match ev
    case Readable(_, first, second, _) => first.Received? && second.Received?
    case Writable(_, n, _) => n >= 0
    case NameResolved(_) => true
  }

  /** Something can still come of the connection, though no call fails. */
  ghost predicate Waiting(p: Proxy) {
    exists ev :: Moves(p, ev)
  }

  ghost predicate Moves(p: Proxy, ev: Event) {
    Possible(p, ev) && Works(ev) && Step(p, ev) != p
  }

  predicate Ended(s: State) {
    s == DONE || s == ERROR
  }

  /** Part of a message is buffered, and the state does nothing until there is more of it. */
  predicate Partial(p: Proxy) {
    var n := |p.cb.bytes|;
    match p.state
    case GREETING => 0 < n < if p.greet.stage == G.METHODS then p.greet.nMethods as int else 2
    case AUTH => 0 < n < AuthNeed(p.auth)
    case REQUEST => 0 < n < RequestNeed(p.req)
    case _ => false
  }

  /** A single byte takes the other stages further. */
  function AuthNeed(a: A.AuthSt): int {
    if a.stage == A.AUTH_UNAME then a.ulen as int else if a.stage == A.AUTH_PASSWD then a.plen as int else 1
  }

  /** A name is taken byte by byte, if need be: each read that does not find it whole loses another length. */
  function RequestNeed(q: Q.Request): int {
    if q.stage == Q.VER_CMD_ATYP then 4
    else if q.stage == Q.DST_LEN && q.atyp != Q.FQDN then Q.AddrBytes(q.atyp) as int + 1
    else 1
  }

  predicate Reading(p: Proxy) {
    (Negotiating(p.state) || p.state == REQUEST) && p.armed.r
  }

  /** The client's buffer is full of part of a message, and no resolution is under way. */
  predicate Jammed(p: Proxy) {
    Reading(p) && Partial(p) && p.cb.Room() == 0 && (p.state == REQUEST ==> p.lookups == 0)
  }

  // ----- a part of a message -----

  /** The receive that the state begins with brings nothing; at an end of file it does not. */
  predicate BringsNothing(p: Proxy, ev: Event) {
    ev.Readable? &&
    if p.state != REQUEST then ev.first == Received([])
    else Data(if p.req.stage == Q.VER_CMD_ATYP then ev.first else ev.second) == []
  }

  /** With part of a message buffered, a read that brings nothing changes nothing. */
  lemma PartialStays(p: Proxy, ev: Event)
    requires Reading(p) && Partial(p) && Possible(p, ev) && BringsNothing(p, ev)
    ensures Step(p, ev) == p
  {
    assert p.cb.bytes + [] == p.cb.bytes && p.input + [] == p.input;
    if p.state == REQUEST {
      PartialRequestStays(p, ev.first, ev.second, ev.env);
    }
  }

  lemma PartialRequestStays(p: Proxy, first: Recv, second: Recv, env: Env)
    requires p.state == REQUEST && Partial(p)
    requires Data(if p.req.stage == Q.VER_CMD_ATYP then first else second) == []
    ensures OnRequestRead(p, first, second, env) == p
  {
    assert p.cb.bytes + [] == p.cb.bytes && p.input + [] == p.input;
    assert p.cb.Receive(if p.req.stage == Q.VER_CMD_ATYP then first else second) == p.cb;
  }

  /** A full buffer receives nothing. */
  lemma JammedIsStuck(p: Proxy, ev: Event)
    requires Jammed(p) && OneArmed(p) && Possible(p, ev) && (Works(ev) || p.state == REQUEST)
    ensures Step(p, ev) == p
  {
    FullReceivesNothing(p, ev);
    PartialStays(p, ev);
  }

  lemma FullReceivesNothing(p: Proxy, ev: Event)
    requires Jammed(p) && OneArmed(p) && Possible(p, ev) && (Works(ev) || p.state == REQUEST)
    ensures BringsNothing(p, ev)
  {
  }

  // ----- whatever is not jammed moves -----

  lemma PasswdMoves(a: A.AuthSt, b: Buf, ob: Buf, users: seq<User>)
    ensures var h := A.AtPasswd(a, b, ob, users);
            h.st.stage == a.stage && (|b.bytes| >= a.plen as int ==> h.arm.Some?)
  {
  }

  lemma PlenMoves(a: A.AuthSt, b: Buf, ob: Buf, users: seq<User>)
    ensures var h := A.AtPlen(a, b, ob, users);
            if b.bytes == [] then h.st.stage == a.stage else h.next == ERROR || h.st.stage == A.AUTH_PASSWD
  {
    PasswdMoves(a.(plen := b.Peek(), stage := A.AUTH_PASSWD), b.Next(), ob, users);
  }

  lemma UnameMoves(a: A.AuthSt, b: Buf, ob: Buf, users: seq<User>)
    ensures var h := A.AtUname(a, b, ob, users);
            if |b.bytes| < a.ulen as int then h.st.stage == a.stage
            else h.next == ERROR || h.st.stage == A.AUTH_PLEN || h.st.stage == A.AUTH_PASSWD
  {
    if |b.bytes| >= a.ulen as int {
      PlenMoves(a.(username := A.Store(a.username, b.bytes[..a.ulen]), stage := A.AUTH_PLEN), b.Drop(a.ulen), ob, users);
    }
  }

  lemma UlenMoves(a: A.AuthSt, b: Buf, ob: Buf, users: seq<User>)
    ensures var h := A.AtUlen(a, b, ob, users);
            if b.bytes == [] then h.st.stage == a.stage
            else h.next == ERROR || (h.st.stage != A.AUTH_VER && h.st.stage != A.AUTH_ULEN)
  {
    UnameMoves(a.(ulen := b.Peek(), stage := A.AUTH_UNAME), b.Next(), ob, users);
  }

  /** With enough buffered for its stage, the parser of the credentials concludes, fails, or enters another stage. */
  lemma AuthMoves(a: A.AuthSt, b: Buf, ob: Buf, users: seq<User>)
    requires b.bytes != [] && |b.bytes| >= AuthNeed(a)
    ensures var h := A.Process(a, b, ob, users); h.next == ERROR || h.arm.Some? || h.st.stage != a.stage
  {
    match a.stage
    case AUTH_VER => UlenMoves(a.(stage := A.AUTH_ULEN), b.Next(), ob, users);
    case AUTH_ULEN => UlenMoves(a, b, ob, users);
    case AUTH_UNAME => UnameMoves(a, b, ob, users);
    case AUTH_PLEN => PlenMoves(a, b, ob, users);
    case AUTH_PASSWD => PasswdMoves(a, b, ob, users);
  }

  lemma GreetingMoves(g: G.Greet, b: Buf, ob: Buf)
    requires b.bytes != [] && |b.bytes| >= if g.stage == G.METHODS then g.nMethods as int else 2
    ensures var h := G.Process(g, b, ob); h.next == ERROR || h.arm.Some? || h.st.stage != g.stage
  {
  }

  /** A negotiating connection waits for room to be used, or takes what is buffered further. */
  lemma GreetingIsWaiting(p: Proxy, cap: nat, env: Env)
    requires cap > 0 && Inv(p, cap) && p.state == GREETING && !Jammed(p)
    ensures Waiting(p)
  {
    if p.armed.w {
      assert Moves(p, Writable(R.Client, |p.ob.bytes|, env));
    } else if p.cb.Room() > 0 {
      InputGrows(p, Readable(R.Client, Received([0]), Received([]), env));
    } else {
      assert p.cb.bytes + [] == p.cb.bytes;
      GreetingMoves(p.greet, p.cb, p.ob);
      assert Moves(p, Readable(R.Client, Received([]), Received([]), env));
    }
  }

  lemma AuthIsWaiting(p: Proxy, cap: nat, env: Env)
    requires cap > 0 && Inv(p, cap) && p.state == AUTH && !Jammed(p)
    ensures Waiting(p)
  {
    if p.armed.w {
      assert Moves(p, Writable(R.Client, |p.ob.bytes|, env));
    } else if p.cb.Room() > 0 {
      InputGrows(p, Readable(R.Client, Received([0]), Received([]), env));
    } else {
      assert p.cb.bytes + [] == p.cb.bytes;
      AuthMoves(p.auth, p.cb, p.ob, env.users);
      AuthHandledMoves(p, A.AuthRead(p.auth, p.cb, p.ob, Received([]), env.users));
      assert Moves(p, Readable(R.Client, Received([]), Received([]), env));
    }
  }

  lemma AuthHandledMoves(p: Proxy, h: Handled<A.AuthSt>)
    requires p.state == AUTH && p.armed == OP_READ && A.Stays(h, p.ob)
    requires h.next == ERROR || h.arm.Some? || h.st.stage != p.auth.stage
    ensures AuthHandled(p, h, []) != p
  {
  }

  /** Whatever it does with it, a handler that received a byte from the client has changed the connection. */
  lemma InputGrows(p: Proxy, ev: Event)
    requires Possible(p, ev) && Works(ev) && ev.Readable? && ev.x == R.Client
    requires if p.state == REQUEST && p.req.stage != Q.VER_CMD_ATYP then |ev.second.data| == 1 else |ev.first.data| == 1
    ensures Waiting(p)
  {
    if p.state == REQUEST {
      RequestInput(p, ev.first, ev.second, ev.env);
    }
    assert |Step(p, ev).input| > |p.input|;
    assert Moves(p, ev);
  }

  lemma RequestInput(p: Proxy, first: Recv, second: Recv, env: Env)
    requires p.state == REQUEST
    requires if p.req.stage != Q.VER_CMD_ATYP then |Data(second)| == 1 else |Data(first)| == 1
    ensures |OnRequestRead(p, first, second, env).input| > |p.input|
  {
  }

  lemma RequestIsWaiting(p: Proxy, cap: nat, env: Env)
    requires cap > 0 && Inv(p, cap) && p.state == REQUEST && !Jammed(p)
    ensures Waiting(p)
  {
    var nothing := Received([]);
    if p.lookups > 0 {
      DialLeaves(p.(lookups := p.lookups - 1), env);
      assert Moves(p, NameResolved(env));
    } else if p.cb.Room() > 0 {
      var ev := if p.req.stage == Q.VER_CMD_ATYP then Readable(R.Client, Received([0]), nothing, env)
                else Readable(R.Client, nothing, Received([0]), env);
      InputGrows(p, ev);
    } else {
      assert p.cb.Receive(nothing) == p.cb by {
        assert p.cb.bytes + [] == p.cb.bytes;
      }
      RequestMoves(p, env);
      assert Moves(p, Readable(R.Client, nothing, nothing, env));
    }
  }

  /** A dial leaves the REQUEST state. */
  lemma DialLeaves(p: Proxy, env: Env)
    ensures Dialed(p, env).state != REQUEST
  {
  }

  lemma HandledMoves(p: Proxy, r: Q.Read, d: seq<byte>, env: Env)
    requires p.state == REQUEST && (r.result == Q.Waits ==> r.q != p.req || r.client != p.cb)
    ensures RequestHandled(p, r, d, env) != p
  {
    DialLeaves(p.(req := r.q, cb := r.client, input := p.input + d), env);
  }

  lemma RequestMoves(p: Proxy, env: Env)
    requires p.state == REQUEST && p.cb.Ok() && p.cb.bytes != [] && |p.cb.bytes| >= RequestNeed(p.req)
    requires p.cb.Receive(Received([])) == p.cb
    ensures OnRequestRead(p, Received([]), Received([]), env) != p
  {
    var f := Q.Front(p.req, p.cb, Received([]));
    match f
    case Stop(r) => HandledMoves(p, r, [], env);
    case Pass(q, c) =>
      ResolveMoves(q, c.Receive(Received([])), env.junk);
      HandledMoves(p, Q.Resolve(q, c.Receive(Received([])), env.junk), [] + [], env);
  }

  /** An address that cannot be decoded yet is waited for in its own stage, or loses a byte. */
  lemma ResolveMoves(q: Q.Request, b: Buf, junk: byte)
    ensures var r := Q.Resolve(q, b, junk);
            r.result == Q.Waits ==>
              r.q == q && q.stage == Q.DST_LEN
              && if q.atyp == Q.FQDN then |r.client.bytes| < |b.bytes| else |b.bytes| < RequestNeed(q)
  {
  }

  /** The states behind a request end their call with the answer, or with the failure of the last address. */
  lemma LaterIsWaiting(p: Proxy, env: Env)
    requires p.state == CONNECT || (p.state == REPLY && p.armed.w)
    ensures Waiting(p)
  {
    if p.state == CONNECT {
      assert Moves(p, Writable(R.Client, 0, env.(check := W.Unknown)));
    } else {
      assert Moves(p, Writable(R.Client, |p.ob.bytes|, env));
    }
  }

  lemma RelayIsWaiting(p: Proxy, env: Env)
    requires p.state == COPY && Relaying(p.relay)
    ensures Waiting(p)
  {
    var down :| R.Healthy(p.relay, down) && down != {R.Client, R.Origin};
    R.BothDown(down);
    R.HealthyIsAwake(p.relay, down);
    var x := if R.Client in down then R.Origin else R.Client;
    assert x !in down;
    RelayMoves(p, x, env);
  }

  lemma RelayMoves(p: Proxy, x: R.Side, env: Env)
    requires p.state == COPY && p.relay.Ok()
    requires p.relay.At(x).armed.r || p.relay.At(x.Peer()).armed.w
    requires p.relay.At(x).armed.r ==> p.relay.HasRoom(x)
    requires p.relay.At(x.Peer()).armed.w ==> p.relay.HasData(x.Peer())
    ensures Waiting(p)
  {
    if p.relay.At(x).armed.r {
      var ev := Readable(x, Received([0]), Received([]), env);
      R.StepConserves(p.relay, RelayEvent(ev), x);
      OneByteMore(p.relay, x);
      assert Moves(p, ev);
    } else {
      var ev := Writable(x.Peer(), 1, env);
      OneByteSent(p.relay, x.Peer());
      assert Moves(p, ev);
    }
  }

  lemma OneByteMore(s: R.Relay, x: R.Side)
    requires s.HasRoom(x)
    ensures R.Step(s, R.Readable(x, Received([0]))).0 != s
  {
    var t := R.Step(s, R.Readable(x, Received([0]))).0;
    assert |t.At(x.Peer()).buf.bytes| == |s.At(x.Peer()).buf.bytes| + 1;
  }

  lemma OneByteSent(s: R.Relay, x: R.Side)
    requires s.HasData(x)
    ensures R.Step(s, R.Writable(x, 1)).0 != s
  {
    var t := R.Step(s, R.Writable(x, 1)).0;
    assert |t.At(x).sent| == |s.At(x).sent| + 1;
  }

  lemma MovesUnlessJammed(p: Proxy, cap: nat)
    requires cap > 0 && Inv(p, cap) && !Ended(p.state) && !Jammed(p)
    ensures Waiting(p)
  {
    match p.state
    case GREETING => GreetingIsWaiting(p, cap, QUIET);
    case AUTH => AuthIsWaiting(p, cap, QUIET);
    case REQUEST => RequestIsWaiting(p, cap, QUIET);
    case CONNECT => LaterIsWaiting(p, QUIET);
    case REPLY => LaterIsWaiting(p, QUIET);
    case COPY => RelayIsWaiting(p, QUIET);
  }

  // ----- the results -----

  /**
   * Over every run: a connection that has not ended can still be moved, by calls that do not fail, exactly
   * unless its client's buffer is full of part of a message; and in the REQUEST state not even a failing
   * call then changes anything.
   */
  lemma StuckExactlyWhenJammed(cap: nat, auth: A.AuthSt, evs: seq<Event>)
    requires cap > 0 && Run(Start(cap, auth), evs)
    ensures var p := After(Start(cap, auth), evs);
            && (!Ended(p.state) ==> (Waiting(p) <==> !Jammed(p)))
            && (Jammed(p) && p.state == REQUEST ==> forall ev :: Possible(p, ev) ==> Step(p, ev) == p)
  {
    var p := After(Start(cap, auth), evs);
    RunKeeps(cap, auth, evs);
    if Jammed(p) && p.state == REQUEST {
      forall ev | Possible(p, ev) ensures Step(p, ev) == p {
        JammedIsStuck(p, ev);
      }
    }
    if !Ended(p.state) && !Jammed(p) {
      MovesUnlessJammed(p, cap);
    }
    if Jammed(p) && Waiting(p) {
      var ev :| Moves(p, ev);
      JammedIsStuck(p, ev);
      assert false;
    }
  }

  /** A relay is entered only with selector slots for both endpoints, so that every event it asks for finds work. */
  lemma RelayNeverStalls(cap: nat, auth: A.AuthSt, evs: seq<Event>)
    requires cap > 0 && Run(Start(cap, auth), evs)
    ensures var p := After(Start(cap, auth), evs);
            p.state == COPY ==>
              && Waiting(p) && p.relay.client.registered && p.relay.origin.registered
              && (forall ev :: R.Dispatched(p.relay, ev) ==>
                    if ev.Readable? then p.relay.HasRoom(ev.x) else p.relay.HasData(ev.x))
  {
    var p := After(Start(cap, auth), evs);
    RunKeeps(cap, auth, evs);
    if p.state == COPY {
      RelayIsWaiting(p, QUIET);
      var down :| R.Healthy(p.relay, down) && down != {R.Client, R.Origin};
      R.HealthyIsAwake(p.relay, down);
    }
  }

  /** A whole CONNECT header is buffered, and nothing behind it. */
  predicate HeaderAlone(p: Proxy) {
    p.state == REQUEST && p.req.stage == Q.VER_CMD_ATYP && |p.cb.bytes| == 4 && Q.FirstBad(p.cb.bytes) == 4
  }

  /**
   * An end of file ends the connection as DONE exactly if nothing of a message is buffered, or only a header;
   * in the middle of a message it changes nothing, however often it is read.
   */
  lemma EndOfFile(p: Proxy, ev: Event)
    requires Reading(p) && p.cb.Ok() && (p.state == REQUEST ==> p.req.stage != Q.DST_RES)
    requires Possible(p, ev) && ev.Readable? && ev.first == ev.second == Received([])
    ensures Step(p, ev).state == DONE <==> p.cb.bytes == [] || HeaderAlone(p)
    ensures Partial(p) ==> Step(p, ev) == p
  {
    assert p.cb.Receive(Received([])) == p.cb by {
      assert p.cb.bytes + [] == p.cb.bytes;
    }
    if Partial(p) {
      PartialStays(p, ev);
    }
    match p.state
    case GREETING => GreetingEnds(p);
    case AUTH => AuthEnds(p, ev.env.users);
    case REQUEST => RequestEnds(p, ev.env);
  }

  lemma GreetingEnds(p: Proxy)
    requires p.state == GREETING && p.cb.Receive(Received([])) == p.cb
    ensures OnGreetingRead(p, Received([])).state == DONE <==> p.cb.bytes == []
  {
  }

  lemma AuthEnds(p: Proxy, users: seq<User>)
    requires p.state == AUTH && p.cb.Receive(Received([])) == p.cb
    ensures OnAuthRead(p, Received([]), users).state == DONE <==> p.cb.bytes == []
  {
    ProcessNeverDone(p.auth, p.cb, p.ob, users);
  }

  lemma ProcessNeverDone(a: A.AuthSt, b: Buf, ob: Buf, users: seq<User>)
    ensures A.Process(a, b, ob, users).next != DONE
  {
  }

  lemma RequestEnds(p: Proxy, env: Env)
    requires p.state == REQUEST && p.req.stage != Q.DST_RES && p.cb.Ok() && p.cb.Receive(Received([])) == p.cb
    ensures OnRequestRead(p, Received([]), Received([]), env).state == DONE <==> p.cb.bytes == [] || HeaderAlone(p)
  {
    var f := Q.Front(p.req, p.cb, Received([]));
    if p.req.stage == Q.VER_CMD_ATYP && |p.cb.bytes| >= 4 {
      Q.HeaderVerdict(p.req, p.cb);
      assert |p.cb.bytes| == 4 ==> p.cb.bytes[..4] == p.cb.bytes;
    }
    match f
    case Stop(r) => HandledEnds(p, r, [], env);
    case Pass(q, c) =>
      assert c.Receive(Received([])).bytes == c.bytes;
      ResolveEnds(q, c.Receive(Received([])), env.junk);
      HandledEnds(p, Q.Resolve(q, c.Receive(Received([])), env.junk), [] + [], env);
  }

  lemma ResolveEnds(q: Q.Request, b: Buf, junk: byte)
    requires q.stage == Q.DST_LEN
    ensures Q.Resolve(q, b, junk).result == Q.Closed <==> b.bytes == []
  {
  }

  lemma HandledEnds(p: Proxy, r: Q.Read, d: seq<byte>, env: Env)
    requires p.state == REQUEST
    ensures RequestHandled(p, r, d, env).state == DONE <==> r.result == Q.Closed
  {
    DialNeverDone(p.(req := r.q, cb := r.client, input := p.input + d), env);
  }

  lemma DialNeverDone(p: Proxy, env: Env)
    ensures Dialed(p, env).state != DONE
  {
  }
}
