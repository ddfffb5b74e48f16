/**
 * Runs that show what the theorems about whole connections have to except: a relay for a client that never
 * authenticated, and a byte of a request that is relayed as payload.
 */
module Scenarios {
  import opened Bytes
  import opened Buffers
  import opened Protocol
  import opened Users
  import opened Proxies
  import Access
  import G = Greetings
  import A = Auths
  import P = Pipelines
  import Q = Requests
  import R = Relays
  import W = AddressWalks

  /** The name "a" with the password "b". */
  const NAME: CString := [97]
  const PASSWORD: CString := [98]

  const KNOWN := QUIET.(users := [User(NAME, PASSWORD, Default)])
  const DIALING := QUIET.(dial := Walked(W.ConnectionInProgress))
  const FOUND := QUIET.(check := W.NoError, bound := Some([]))

  function Rewound(cap: nat): Buf {
    Buf([], 0, cap)
  }

  /** Ready for a message of the client: nothing is buffered, and its bytes are waited for. */
  ghost predicate Ready(p: Proxy, s: State, cap: nat, input: seq<byte>) {
    && p.state == s && p.armed == OP_READ && p.cb == p.ob == Rewound(cap) && p.input == input
    && (s == AUTH ==> p.attempts == 0 && p.auth == A.Arrived(p.auth))
    && (s == REQUEST ==> p.attempts == 1 && p.req.stage == Q.VER_CMD_ATYP)
  }

  // ----- the steps -----

  lemma GreetingHeard(cap: nat, auth: A.AuthSt, methods: seq<byte>)
    requires 0 < |methods| && 2 + |methods| <= cap && |methods| < 256
    requires G.AUTH_METHOD !in methods[..|methods| - 1]
    ensures var p := OnGreetingRead(Start(cap, auth), Received(G.Message(methods)));
            && p.state == GREETING && p.armed == OP_WRITE && p.cb == Rewound(cap) && p.ob.Ok()
            && p.ob.cap == cap && |p.ob.bytes| == 2 && p.input == G.Message(methods) && p.attempts == 0
            && p.req.stage == Q.VER_CMD_ATYP
            && (p.greet.chosen == G.AUTH_METHOD <==> G.AUTH_METHOD in methods)
  {
    var p, d := Start(cap, auth), G.Message(methods);
    G.ReadAgrees(p.greet, p.cb, p.ob, d, [], 0);
    G.ConsumesItsMessageIff(methods, []);
    assert d + [] == d && [] + d == d;
  }

  lemma GreetingAnswered(p: Proxy, cap: nat)
    requires p.state == GREETING && p.armed == OP_WRITE && p.cb == Rewound(cap) && p.ob.Ok() && p.ob.cap == cap
    requires |p.ob.bytes| == 2 && p.attempts == 0
    ensures Ready(OnGreetingWrite(p, 2), if p.greet.chosen == G.AUTH_METHOD then AUTH else REQUEST, cap, p.input)
  {
  }

  /** A greeting without a method behind the first 0x02 is answered, and the next message waited for. */
  lemma Greeted(cap: nat, auth: A.AuthSt, methods: seq<byte>) returns (evs: seq<Event>)
    requires 0 < |methods| && 2 + |methods| <= cap && |methods| < 256
    requires G.AUTH_METHOD !in methods[..|methods| - 1]
    ensures Run(Start(cap, auth), evs)
    ensures Ready(After(Start(cap, auth), evs), if G.AUTH_METHOD in methods then AUTH else REQUEST, cap, G.Message(methods))
  {
    var p, d := Start(cap, auth), G.Message(methods);
    GreetingHeard(cap, auth, methods);
    RunSnoc(p, [], Hear(d));
    var p1 := OnGreetingRead(p, Received(d));
    GreetingAnswered(p1, cap);
    RunSnoc(p, [] + [Hear(d)], Answer(2));
    evs := [] + [Hear(d)] + [Answer(2)];
  }

  lemma AuthHeard(p: Proxy, cap: nat)
    requires Ready(p, AUTH, cap, p.input) && cap >= 5
    ensures var p' := OnAuthRead(p, Received(A.Message(NAME, PASSWORD)), KNOWN.users);
            && p'.state == AUTH && p'.armed == OP_WRITE && p'.cb == Rewound(cap) && p'.ob.Ok() && p'.ob.cap == cap
            && |p'.ob.bytes| == 2 && p'.input == p.input + A.Message(NAME, PASSWORD) && p'.attempts == 0
            && p'.auth.authenticated
  {
    var d := A.Message(NAME, PASSWORD);
    assert [] + d == d && d + [] == d;
    A.ReadAgrees(p.auth, p.cb, p.ob, KNOWN.users, d, [], 0);
    A.ConsumesItsMessage(NAME, PASSWORD, []);
    CredentialsTaken(p, A.AuthRead(p.auth, p.cb, p.ob, Received(d), KNOWN.users), cap, d);
  }

  /** A read that agrees with the single pass on the known credentials, and nothing behind them. */
  lemma CredentialsTaken(p: Proxy, h: Handled<A.AuthSt>, cap: nat, d: seq<byte>)
    requires p.state == AUTH && p.ob == Rewound(cap) && cap >= 5 && p.attempts == 0
    requires A.Parse(d) == A.Credentials(NAME, PASSWORD, []) && A.Agrees(h, p.ob, KNOWN.users, d, 0)
    requires h.client.Ok() && h.client.cap == cap
    ensures var p' := AuthHandled(p, h, d);
            && p'.state == AUTH && p'.armed == OP_WRITE && p'.cb == Rewound(cap) && p'.ob.Ok() && p'.ob.cap == cap
            && |p'.ob.bytes| == 2 && p'.input == p.input + d && p'.attempts == 0 && p'.auth.authenticated
  {
    IsKnown();
  }

  lemma IsKnown()
    ensures A.Verified(KNOWN.users, ToCString(NAME), ToCString(PASSWORD))
  {
    Plain(NAME);
    Plain(PASSWORD);
    assert KNOWN.users[0].username == NAME;
  }

  lemma {:induction false} Plain(s: CString)
    ensures ToCString(s) == s
  {
    if s != [] {
      Plain(s[1..]);
      assert s == [s[0]] + s[1..];
    }
  }

  lemma AuthAnswered(p: Proxy, cap: nat)
    requires p.state == AUTH && p.armed == OP_WRITE && p.cb == Rewound(cap) && p.ob.Ok() && p.ob.cap == cap
    requires |p.ob.bytes| == 2 && p.attempts == 0 && p.auth.authenticated
    ensures Ready(OnAuthWrite(p, 2), REQUEST, cap, p.input)
  {
  }

  /** The known credentials are accepted. */
  lemma Accepted(p: Proxy, evs: seq<Event>, cap: nat) returns (evs': seq<Event>)
    requires Run(p, evs) && Ready(After(p, evs), AUTH, cap, After(p, evs).input) && cap >= 5
    ensures Run(p, evs') && Ready(After(p, evs'), REQUEST, cap, After(p, evs).input + A.Message(NAME, PASSWORD))
  {
    var read := Readable(R.Client, Received(A.Message(NAME, PASSWORD)), RecvError, KNOWN);
    AuthHeard(After(p, evs), cap);
    RunSnoc(p, evs, read);
    AuthAnswered(After(p, evs + [read]), cap);
    RunSnoc(p, evs + [read], Answer(2));
    evs' := evs + [read] + [Answer(2)];
  }

  const ADDRESS: seq<byte> := [127, 0, 0, 1]

  function Request(hi: byte, lo: byte): seq<byte> {
    Q.Message(Q.IPv4_ADDR, ADDRESS, hi, lo)
  }

  /** All ten bytes of a request, or all but the last, lead to the same connection. */
  lemma RequestHeard(p: Proxy, cap: nat, hi: byte, lo: byte, k: nat)
    requires Ready(p, REQUEST, cap, p.input) && cap >= 10 && 9 <= k <= 10
    ensures var d := Request(hi, lo)[..k];
            var p' := OnRequestRead(p, Received(d), RecvError, DIALING);
            && Q.Possible(p.req, p.cb, Received(d), RecvError)
            && p'.state == CONNECT && p'.open && p'.registered && p'.cb == p'.ob == Rewound(cap)
            && p'.input == p.input + d && p'.attempts == 1
  {
    var d := Request(hi, lo)[..k];
    var f := HeaderHeard(p.req, cap, hi, lo, k);
    AddressHeard(f.q, f.client, cap, hi, lo, k - 4);
    assert d + [] == d;
  }

  lemma HeaderHeard(q: Q.Request, cap: nat, hi: byte, lo: byte, k: nat) returns (f: Q.Head)
    requires q.stage == Q.VER_CMD_ATYP && cap >= 10 && 9 <= k <= 10
    ensures f == Q.Front(q, Rewound(cap), Received(Request(hi, lo)[..k]))
    ensures f.Pass? && f.q.stage == Q.DST_LEN && f.q.atyp == Q.IPv4_ADDR && f.client.Ok() && f.client.cap == cap
    ensures f.client.bytes == Q.Tail(Q.IPv4_ADDR, ADDRESS, hi, lo)[..k - 4]
  {
    var d, tail := Request(hi, lo)[..k], Q.Tail(Q.IPv4_ADDR, ADDRESS, hi, lo)[..k - 4];
    assert d == [SOCKS5_VERSION, Q.CONNECT_CMD, RSV, Q.IPv4_ADDR] + tail;
    Q.HeaderPasses(q, Rewound(cap).Fill(d), Q.IPv4_ADDR, tail);
    f := Q.Front(q, Rewound(cap), Received(d));
  }

  lemma AddressHeard(q: Q.Request, b: Buf, cap: nat, hi: byte, lo: byte, k: nat)
    requires q.stage == Q.DST_LEN && q.atyp == Q.IPv4_ADDR && b.Ok() && b.cap == cap && 5 <= k <= 6
    requires b.bytes == Q.Tail(Q.IPv4_ADDR, ADDRESS, hi, lo)[..k]
    ensures Q.Resolve(q, b, 0).result == Q.Connects && Q.Resolve(q, b, 0).client == Rewound(cap)
  {
    assert Q.Tail(Q.IPv4_ADDR, ADDRESS, hi, lo) + [] == Q.Tail(Q.IPv4_ADDR, ADDRESS, hi, lo);
    Q.DecodedExactlyWhenWhole(q, b, ADDRESS, hi, lo, [], k, 0);
  }

  lemma ConnectionMade(p: Proxy, cap: nat)
    requires p.state == CONNECT && p.open && p.registered && p.cb == p.ob == Rewound(cap) && cap >= 3
    ensures var p' := OnConnect(p, FOUND);
            var p'' := OnReplyWrite(p', 3);
            && p'.state == REPLY && p'.armed.w && |p'.ob.bytes| == 3
            && p''.state == COPY && p''.relay == R.Arrival(Rewound(cap), Rewound(cap), true, true)
            && p''.input == p.input && p''.attempts == p.attempts
  {
  }

  /** The origin answers and the relay begins, with nothing buffered. */
  lemma Relayed(p: Proxy, evs: seq<Event>, cap: nat, hi: byte, lo: byte, k: nat) returns (evs': seq<Event>)
    requires Run(p, evs) && Ready(After(p, evs), REQUEST, cap, After(p, evs).input) && cap >= 10 && 9 <= k <= 10
    ensures Run(p, evs') && After(p, evs').state == COPY && After(p, evs').attempts == 1
    ensures After(p, evs').input == After(p, evs).input + Request(hi, lo)[..k]
    ensures After(p, evs').relay == R.Arrival(Rewound(cap), Rewound(cap), true, true)
  {
    var read := Readable(R.Client, Received(Request(hi, lo)[..k]), RecvError, DIALING);
    var write := Writable(R.Client, 0, FOUND);
    RequestHeard(After(p, evs), cap, hi, lo, k);
    RunSnoc(p, evs, read);
    ConnectionMade(After(p, evs + [read]), cap);
    RunSnoc(p, evs + [read], write);
    RunSnoc(p, evs + [read] + [write], Answer(3));
    evs' := evs + [read] + [write] + [Answer(3)];
  }

  // ----- the scenarios -----

  /**
   * A greeting that does not offer the password method gets through all the same: whatever other methods it
   * offers, the connection goes on to the REQUEST state, and never was authenticated.
   */
  lemma GetsThroughUnauthenticated(cap: nat, auth: A.AuthSt, methods: seq<byte>) returns (evs: seq<Event>)
    requires 0 < |methods| && 2 + |methods| <= cap && |methods| < 256 && G.AUTH_METHOD !in methods
    ensures Run(Start(cap, auth), evs)
    ensures After(Start(cap, auth), evs).state == REQUEST && Access.GrantedBy(Start(cap, auth), evs) == None
  {
    evs := Greeted(cap, auth, methods);
    NotGranted(cap, auth, evs, methods, []);
  }

  lemma NotGranted(cap: nat, auth: A.AuthSt, evs: seq<Event>, methods: seq<byte>, d: seq<byte>)
    requires 0 < |methods| < 256 && G.AUTH_METHOD !in methods
    requires Run(Start(cap, auth), evs) && Access.Past(After(Start(cap, auth), evs).state)
    requires After(Start(cap, auth), evs).input == G.Message(methods) + d
    ensures Access.GrantedBy(Start(cap, auth), evs) == None
  {
    var input := G.Message(methods) + d;
    assert input[2..2 + |methods|] == methods;
    Access.AuthenticatedIffOffered(cap, auth, evs);
  }

  /** And it may go on to the relay. */
  lemma RelaysUnauthenticated(cap: nat, auth: A.AuthSt) returns (evs: seq<Event>)
    requires cap >= 10
    ensures Run(Start(cap, auth), evs)
    ensures After(Start(cap, auth), evs).state == COPY && Access.GrantedBy(Start(cap, auth), evs) == None
  {
    evs := Greeted(cap, auth, [G.NO_AUTH_METHOD]);
    evs := Relayed(Start(cap, auth), evs, cap, 0, 80, 10);
    NotGranted(cap, auth, evs, [G.NO_AUTH_METHOD], Request(0, 80)[..10]);
  }

  /** A client that plans one request and no payload. */
  function PlanFor(hi: byte, lo: byte): P.Plan {
    P.Plan([G.AUTH_METHOD], NAME, PASSWORD, [P.Dest(Q.IPv4_ADDR, ADDRESS, hi, lo)], [])
  }

  lemma StreamOfPlan(hi: byte, lo: byte)
    ensures P.Valid(PlanFor(hi, lo))
    ensures P.Stream(PlanFor(hi, lo)) == G.Message([G.AUTH_METHOD]) + A.Message(NAME, PASSWORD) + Request(hi, lo)
  {
    var pl := PlanFor(hi, lo);
    assert P.From(pl, 1) == [];
    assert P.From(pl, 0) == Request(hi, lo) + [];
  }

  /** One byte from the client, and on to the origin. */
  lemma OneByteRelayed(p: Proxy, evs: seq<Event>, cap: nat, c: byte) returns (evs': seq<Event>)
    requires Run(p, evs) && After(p, evs).state == COPY && cap > 0
    requires After(p, evs).relay == R.Arrival(Rewound(cap), Rewound(cap), true, true)
    ensures Run(p, evs') && After(p, evs').state == COPY && After(p, evs').relay.origin.sent == [c]
    ensures After(p, evs').input == After(p, evs).input + [c] && After(p, evs').attempts == After(p, evs).attempts
  {
    OneByteOn(After(p, evs), cap, c);
    RunTwo(p, evs, Hear([c]), Writable(R.Origin, 1, QUIET));
    evs' := evs + [Hear([c])] + [Writable(R.Origin, 1, QUIET)];
  }

  lemma OneByteOn(p: Proxy, cap: nat, c: byte)
    requires p.state == COPY && cap > 0 && p.relay == R.Arrival(Rewound(cap), Rewound(cap), true, true)
    ensures var read, write := Hear([c]), Writable(R.Origin, 1, QUIET);
            && Possible(p, read) && Possible(Step(p, read), write)
            && var p' := Step(Step(p, read), write);
               && p'.state == COPY && p'.relay.origin.sent == [c]
               && p'.input == p.input + [c] && p'.attempts == p.attempts
  {
    var read, write := Hear([c]), Writable(R.Origin, 1, QUIET);
    ByteComes(p.relay, cap, c);
    CopyStep(p, read);
    CopyStep(Step(p, read), write);
  }

  /** An event of the relay, in the connection. */
  lemma CopyStep(p: Proxy, ev: Event)
    requires p.state == COPY && !ev.NameResolved?
    requires R.Possible(p.relay, RelayEvent(ev)) && R.Dispatched(p.relay, RelayEvent(ev))
    ensures Possible(p, ev)
    ensures var p', (t, v) := Step(p, ev), R.Step(p.relay, RelayEvent(ev));
            && p'.relay == t && p'.state == v && p'.attempts == p.attempts
            && p'.input == p.input + R.Brought(R.Client, RelayEvent(ev))
  {
  }

  lemma ByteComes(s: R.Relay, cap: nat, c: byte)
    requires cap > 0 && s == R.Arrival(Rewound(cap), Rewound(cap), true, true)
    ensures var read, write := R.Readable(R.Client, Received([c])), R.Writable(R.Origin, 1);
            && R.Possible(s, read) && R.Dispatched(s, read) && R.Step(s, read).1 == COPY
            && var t := R.Step(s, read).0;
               && R.Possible(t, write) && R.Dispatched(t, write)
               && R.Step(t, write).1 == COPY && R.Step(t, write).0.origin.sent == [c]
  {
  }

  /**
   * A read that ends one byte before the request does sends that byte to the origin, though the client never
   * sent any payload.
   */
  lemma RequestByteIsRelayed(cap: nat, auth: A.AuthSt, hi: byte, lo: byte) returns (evs: seq<Event>)
    requires cap >= 10
    ensures Run(Start(cap, auth), evs) && P.Valid(PlanFor(hi, lo)) && PlanFor(hi, lo).payload == []
    ensures var p := After(Start(cap, auth), evs);
            p.input == P.Stream(PlanFor(hi, lo)) && p.state == COPY && p.attempts == 1 && p.relay.origin.sent == [lo]
  {
    var p := Start(cap, auth);
    evs := Greeted(cap, auth, [G.AUTH_METHOD]);
    assert [G.AUTH_METHOD][0] == G.AUTH_METHOD;
    evs := Accepted(p, evs, cap);
    evs := Relayed(p, evs, cap, hi, lo, 9);
    evs := OneByteRelayed(p, evs, cap, lo);
    StreamOfPlan(hi, lo);
    assert Request(hi, lo)[..9] + [lo] == Request(hi, lo);
  }

  // ----- a name read in two parts -----

  /** A name whose first byte passes for a length. */
  const TRICKY: seq<byte> := [1, 97, 98]

  function PlanByName(hi: byte, lo: byte): P.Plan {
    P.Plan([G.AUTH_METHOD], NAME, PASSWORD, [P.Dest(Q.FQDN, TRICKY, hi, lo)], [])
  }

  const FIRST_PART: seq<byte> := [SOCKS5_VERSION, Q.CONNECT_CMD, RSV, Q.FQDN, 3, 1]

  function SecondPart(hi: byte, lo: byte): seq<byte> {
    [97, 98, hi, lo]
  }

  /** Only the length and the first byte of the name come: the length is lost. */
  lemma NameBegun(p: Proxy, cap: nat)
    requires Ready(p, REQUEST, cap, p.input) && cap >= 10
    ensures Q.Possible(p.req, p.cb, Received(FIRST_PART), RecvError)
    ensures var p' := OnRequestRead(p, Received(FIRST_PART), RecvError, QUIET);
            && p'.state == REQUEST && p'.armed.r && p'.req.stage == Q.DST_LEN && p'.req.atyp == Q.FQDN
            && p'.cb == Buf([1], 5, cap) && p'.ob == Rewound(cap) && p'.input == p.input + FIRST_PART && p'.attempts == 1
  {
    var b := Rewound(cap).Fill(FIRST_PART);
    assert b.bytes == [SOCKS5_VERSION, Q.CONNECT_CMD, RSV, Q.FQDN] + [3, 1];
    Q.HeaderPasses(p.req, b, Q.FQDN, [3, 1]);
    DropTwice(b, 4, 1);
    assert b.bytes[5..] == [1];
    assert FIRST_PART + [] == FIRST_PART;
  }

  /** The rest comes: the first byte of the name is taken for its length, and the last byte of the port is left. */
  lemma NameEnded(p: Proxy, cap: nat, hi: byte, lo: byte)
    requires p.state == REQUEST && p.req.stage == Q.DST_LEN && p.req.atyp == Q.FQDN
    requires p.cb == Buf([1], 5, cap) && cap >= 10 && p.attempts == 1
    ensures Q.Possible(p.req, p.cb, RecvError, Received(SecondPart(hi, lo)))
    ensures var p' := OnRequestRead(p, RecvError, Received(SecondPart(hi, lo)), QUIET);
            && p'.state == REQUEST && p'.lookups == p.lookups + 1 && p'.req.host == [97] && p'.req.port == Q.Port(98, hi)
            && p'.cb == Buf([lo], 9, cap) && p'.ob == p.ob && p'.input == p.input + SecondPart(hi, lo) && p'.attempts == 1
  {
    SecondPartTaken(p.req, p.cb.Fill(SecondPart(hi, lo)), cap, hi, lo);
    assert [] + SecondPart(hi, lo) == SecondPart(hi, lo);
  }

  lemma SecondPartTaken(q: Q.Request, b: Buf, cap: nat, hi: byte, lo: byte)
    requires q.stage == Q.DST_LEN && q.atyp == Q.FQDN && cap >= 10
    requires b == Buf([1] + SecondPart(hi, lo), 5, cap)
    ensures var r := Q.Resolve(q, b, 0);
            && r.result == Q.Resolves && r.q.host == [97] && r.q.port == Q.Port(98, hi) && r.client == Buf([lo], 9, cap)
  {
    assert b.bytes == [1, 97, 98, hi, lo];
    DropTwice(b, 1, 1);
    DropTwice(b, 2, 1);
    DropTwice(b, 3, 1);
    assert b.Drop(1).bytes[..1] == [97];
    assert b.Drop(4).bytes == [lo];
  }

  /** The name is found, the origin answers, and the byte left over is pending as the relay begins. */
  lemma PendingConnectionMade(p: Proxy, cap: nat, lo: byte)
    requires p.state == REQUEST && p.lookups > 0 && p.cb == Buf([lo], 9, cap) && p.ob == Rewound(cap) && cap >= 10
    ensures var p1 := Dialed(p.(lookups := p.lookups - 1), DIALING);
            var p2 := OnConnect(p1, FOUND);
            var p3 := OnReplyWrite(p2, 3);
            && p1.state == CONNECT && p2.state == REPLY && p2.armed.w && |p2.ob.bytes| == 3
            && p3.state == COPY && p3.relay == R.Arrival(Buf([lo], 9, cap), Rewound(cap), true, true)
            && p3.input == p.input && p3.attempts == p.attempts
  {
  }

  lemma PendingByteGoes(s: R.Relay, cap: nat, lo: byte)
    requires cap >= 10 && s == R.Arrival(Buf([lo], 9, cap), Rewound(cap), true, true)
    ensures var write := R.Writable(R.Origin, 1);
            && R.Possible(s, write) && R.Dispatched(s, write)
            && R.Step(s, write).1 == COPY && R.Step(s, write).0.origin.sent == [lo]
  {
  }

  /** The request by name, cut behind the first byte of the name. */
  lemma NameTorn(p: Proxy, evs: seq<Event>, cap: nat, hi: byte, lo: byte) returns (evs': seq<Event>)
    requires Run(p, evs) && Ready(After(p, evs), REQUEST, cap, After(p, evs).input) && cap >= 10
    ensures Run(p, evs')
    ensures var q := After(p, evs');
            && q.state == REQUEST && q.lookups > 0 && q.cb == Buf([lo], 9, cap) && q.ob == Rewound(cap)
            && q.input == After(p, evs).input + FIRST_PART + SecondPart(hi, lo) && q.attempts == 1
  {
    var first := Readable(R.Client, Received(FIRST_PART), RecvError, QUIET);
    var second := Readable(R.Client, RecvError, Received(SecondPart(hi, lo)), QUIET);
    NameBegun(After(p, evs), cap);
    RunSnoc(p, evs, first);
    NameEnded(After(p, evs + [first]), cap, hi, lo);
    RunSnoc(p, evs + [first], second);
    evs' := evs + [first] + [second];
  }

  lemma PendingByteRelayed(p: Proxy, evs: seq<Event>, cap: nat, lo: byte) returns (evs': seq<Event>)
    requires Run(p, evs) && cap >= 10
    requires var q := After(p, evs);
             q.state == REQUEST && q.lookups > 0 && q.cb == Buf([lo], 9, cap) && q.ob == Rewound(cap) && q.attempts == 1
    ensures Run(p, evs') && After(p, evs').state == COPY && After(p, evs').relay.origin.sent == [lo]
    ensures After(p, evs').input == After(p, evs).input && After(p, evs').attempts == 1
  {
    var found, write, sent := NameResolved(DIALING), Writable(R.Client, 0, FOUND), Writable(R.Origin, 1, QUIET);
    PendingConnectionMade(After(p, evs), cap, lo);
    RunSnoc(p, evs, found);
    RunSnoc(p, evs + [found], write);
    RunSnoc(p, evs + [found] + [write], Answer(3));
    var q := After(p, evs + [found] + [write] + [Answer(3)]);
    PendingByteGoes(q.relay, cap, lo);
    CopyStep(q, sent);
    RunSnoc(p, evs + [found] + [write] + [Answer(3)], sent);
    evs' := evs + [found] + [write] + [Answer(3)] + [sent];
  }

  lemma StreamByName(hi: byte, lo: byte)
    ensures P.Valid(PlanByName(hi, lo))
    ensures P.Stream(PlanByName(hi, lo))
         == G.Message([G.AUTH_METHOD]) + A.Message(NAME, PASSWORD) + FIRST_PART + SecondPart(hi, lo)
  {
    var pl := PlanByName(hi, lo);
    assert P.From(pl, 1) == [];
    assert P.From(pl, 0) == P.RequestOf(pl.dests[0]) + [];
    assert P.RequestOf(pl.dests[0]) == FIRST_PART + SecondPart(hi, lo);
  }

  /** A request by name that is read in two parts sends a byte of it to the origin. */
  lemma NameByteIsRelayed(cap: nat, auth: A.AuthSt, hi: byte, lo: byte) returns (evs: seq<Event>)
    requires cap >= 10
    ensures Run(Start(cap, auth), evs) && P.Valid(PlanByName(hi, lo)) && PlanByName(hi, lo).payload == []
    ensures var p := After(Start(cap, auth), evs);
            p.input == P.Stream(PlanByName(hi, lo)) && p.state == COPY && p.attempts == 1 && p.relay.origin.sent == [lo]
  {
    var p := Start(cap, auth);
    evs := Greeted(cap, auth, [G.AUTH_METHOD]);
    assert [G.AUTH_METHOD][0] == G.AUTH_METHOD;
    evs := Accepted(p, evs, cap);
    evs := NameTorn(p, evs, cap, hi, lo);
    evs := PendingByteRelayed(p, evs, cap, lo);
    StreamByName(hi, lo);
  }
}
