/**
 * What a client may send ahead of the answers: greeting, credentials, requests and payload in one
 * stream, cut anywhere. Every handler consumes exactly its own message, and only payload is relayed.
 */
module Pipelines {
  import opened Bytes
  import opened Buffers
  import opened Protocol
  import opened Users
  import opened Proxies
  import G = Greetings
  import A = Auths
  import Q = Requests
  import R = Relays

  datatype Dest = Dest(atyp: byte, addr: seq<byte>, hi: byte, lo: byte)

  /** A destination given by its IPv4 or IPv6 address, or by name. */
  type Destination = d: Dest | Q.ValidAddress(d.atyp, d.addr) witness Dest(Q.IPv4_ADDR, [0, 0, 0, 0], 0, 0)

  /** What the client sends; a request is repeated, or another one made, after a failed attempt. */
  datatype Plan = Plan(
    methods: seq<byte>, username: seq<byte>, password: seq<byte>, dests: seq<Destination>, payload: seq<byte>)

  ghost predicate Valid(pl: Plan) {
    && 0 < |pl.methods| < 256 && G.AUTH_METHOD in pl.methods && G.AUTH_METHOD !in pl.methods[..|pl.methods| - 1]
    && 0 < |pl.username| < 256 && 0 < |pl.password| < 256
  }

  function RequestOf(d: Destination): seq<byte> {
    Q.Message(d.atyp, d.addr, d.hi, d.lo)
  }

  ghost function GreetingOf(pl: Plan): seq<byte>
    requires |pl.methods| < 256
  {
    G.Message(pl.methods)
  }

  ghost function AuthOf(pl: Plan): seq<byte>
    requires |pl.username| < 256 && |pl.password| < 256
  {
    A.Message(pl.username, pl.password)
  }

  /** The requests from the `k`-th on, and the payload. */
  ghost function From(pl: Plan, k: nat): seq<byte>
    requires k <= |pl.dests|
    decreases |pl.dests| - k
  {
    if k == |pl.dests| then pl.payload else RequestOf(pl.dests[k]) + From(pl, k + 1)
  }

  /** Where the `k`-th request starts; beyond the last one, where the payload starts. */
  ghost function Offset(pl: Plan, k: nat): nat
    requires k <= |pl.dests|
    requires 0 < |pl.methods| < 256 && |pl.username| < 256 && |pl.password| < 256
  {
    if k == 0 then |GreetingOf(pl)| + |AuthOf(pl)| else Offset(pl, k - 1) + |RequestOf(pl.dests[k - 1])|
  }

  ghost function Stream(pl: Plan): seq<byte>
    requires Valid(pl)
  {
    GreetingOf(pl) + AuthOf(pl) + From(pl, 0)
  }

  lemma {:induction false} StreamFrom(pl: Plan, k: nat)
    requires Valid(pl) && k <= |pl.dests|
    ensures Offset(pl, k) <= |Stream(pl)| && Stream(pl)[Offset(pl, k)..] == From(pl, k)
  {
    if k > 0 {
      StreamFrom(pl, k - 1);
      BehindPart(Stream(pl), Offset(pl, k - 1), RequestOf(pl.dests[k - 1]), From(pl, k));
    }
  }

  lemma BehindPart(s: seq<byte>, at: nat, part: seq<byte>, rest: seq<byte>)
    requires at <= |s| && s[at..] == part + rest
    ensures at + |part| <= |s| && s[at + |part|..] == rest
  {
    assert s[at + |part|..] == s[at..][|part|..];
  }

  // ----- the parsers on a prefix of the stream -----

  lemma PrefixBeyond(t: seq<byte>, s: seq<byte>, at: nat)
    requires t <= s && at <= |t|
    ensures t[at..] <= s[at..]
  {
  }

  lemma GreetingOfPrefix(pl: Plan, t: seq<byte>)
    requires Valid(pl) && t <= Stream(pl)
    ensures G.Parse(t) == if |t| < |GreetingOf(pl)| then G.Waiting else G.Chosen(G.AUTH_METHOD, t[|GreetingOf(pl)|..])
  {
    var m := GreetingOf(pl);
    if |t| < |m| {
      assert t == Stream(pl)[..|t|] == m[..|t|];
      G.PrefixWaits(pl.methods, t);
    } else {
      assert t == m + t[|m|..] by {
        assert t[..|m|] == Stream(pl)[..|m|] == m;
      }
      G.ConsumesItsMessageIff(pl.methods, t[|m|..]);
    }
  }

  lemma AuthOfPrefix(pl: Plan, t: seq<byte>)
    requires Valid(pl) && t <= AuthOf(pl) + From(pl, 0)
    ensures A.Parse(t) == if |t| < |AuthOf(pl)| then A.Waiting
                          else A.Credentials(pl.username, pl.password, t[|AuthOf(pl)|..])
  {
    var m, s := AuthOf(pl), AuthOf(pl) + From(pl, 0);
    if |t| < |m| {
      assert t == s[..|t|] == m[..|t|];
      A.PrefixWaits(pl.username, pl.password, t);
    } else {
      assert t == m + t[|m|..] by {
        assert t[..|m|] == s[..|m|] == m;
      }
      A.ConsumesItsMessage(pl.username, pl.password, t[|m|..]);
    }
  }

  // ----- reads that catch a request in part -----

  /** The event reads the address of a request. */
  ghost predicate AtAddress(p: Proxy, ev: Event) {
    p.state == REQUEST && ev.Readable? && p.req.stage != Q.DST_RES && Q.Front(p.req, p.cb, ev.first).Pass?
  }

  /** How much address and port take, as far as can be told from what is buffered of them. */
  function Need(atyp: byte, b: seq<byte>): int {
    if atyp != Q.FQDN then Q.AddrBytes(atyp) as int + 2 else if b == [] then 0 else b[0] as int + 3
  }

  predicate ShortOf(atyp: byte, b: seq<byte>) {
    b != [] && |b| == Need(atyp, b) - 1
  }

  predicate TornOf(atyp: byte, b: seq<byte>) {
    atyp == Q.FQDN && b != [] && |b| < Need(atyp, b) - 1
  }

  /**
   * The read catches a request one byte short: the one amount of buffered data at which the address
   * is decoded although its last port byte is missing.
   */
  ghost predicate Short(p: Proxy, ev: Event) {
    AtAddress(p, ev) &&
    var f := Q.Front(p.req, p.cb, ev.first);
    ShortOf(f.q.atyp, f.client.Receive(ev.second).bytes)
  }

  /** The read catches a name in the middle, or comes while one is being resolved. */
  ghost predicate Torn(p: Proxy, ev: Event) {
    || (p.state == REQUEST && ev.Readable? && p.req.stage == Q.DST_RES)
    || (AtAddress(p, ev) &&
        var f := Q.Front(p.req, p.cb, ev.first);
        TornOf(f.q.atyp, f.client.Receive(ev.second).bytes))
  }

  /** The attempt whose request was the first to be caught one byte short, or 0. */
  ghost function Slip(p: Proxy, evs: seq<Event>): nat
    requires Run(p, evs)
  {
    if evs == [] then 0 else NextSlip(After(p, R.Init(evs)), R.Last(evs), Slip(p, R.Init(evs)))
  }

  ghost function NextSlip(p: Proxy, ev: Event, slip: nat): nat {
    if slip == 0 && Short(p, ev) then p.attempts else slip
  }

  /** No read of the run tears a name. */
  ghost predicate NamesWhole(p: Proxy, evs: seq<Event>)
    requires Run(p, evs)
  {
    evs == [] || (NamesWhole(p, R.Init(evs)) && !Torn(After(p, R.Init(evs)), R.Last(evs)))
  }

  ghost predicate HasNames(pl: Plan) {
    exists d <- pl.dests :: d.atyp == Q.FQDN
  }

  // ----- the invariant -----

  /** `s` is what was received from position `at` of the client's stream on. */
  ghost predicate Unread(input: seq<byte>, s: seq<byte>, at: int) {
    0 <= at <= |input| && s == input[at..]
  }

  ghost predicate InGreeting(p: Proxy, pl: Plan)
    requires |pl.methods| < 256
  {
    && p.cb.Ok() && p.attempts == 0 && (p.armed == OP_READ || p.armed == OP_WRITE)
    && if p.armed.r then G.Tracks(p.greet, p.cb, p.input, 0)
       else p.greet.chosen == G.AUTH_METHOD && Unread(p.input, p.cb.bytes, |GreetingOf(pl)|)
  }

  ghost predicate InAuth(p: Proxy, pl: Plan)
    requires |pl.methods| < 256 && |pl.username| < 256 && |pl.password| < 256
  {
    var at := |GreetingOf(pl)|;
    && p.cb.Ok() && p.attempts == 0 && (p.armed == OP_READ || p.armed == OP_WRITE)
    && if p.armed.r then at <= |p.input| && A.Tracks(p.auth, p.cb, p.input[at..], p.cb.cap)
       else Unread(p.input, p.cb.bytes, at + |AuthOf(pl)|)
  }

  /** The client made more attempts than it planned: its payload was read as a request. */
  ghost predicate Overrun(p: Proxy, pl: Plan) {
    p.attempts > |pl.dests|
  }

  /** The attempt went on to another one after its request was caught one byte short. */
  ghost predicate Astray(p: Proxy, slip: nat) {
    slip != 0 && p.attempts > slip
  }

  /** `s` is what was received behind the `k`-th request, and the last byte of it too if it was caught short. */
  ghost predicate Behind(input: seq<byte>, s: seq<byte>, k: nat, pl: Plan, slip: nat)
    requires Valid(pl) && k <= |pl.dests|
  {
    Unread(input, s, if slip == 0 then Offset(pl, k) else Offset(pl, k) - 1)
  }

  /** The `k`-th request is being read, from the header or from behind it, or its name is being resolved. */
  ghost predicate InRequest(q: Q.Request, b: Buf, input: seq<byte>, k: int, pl: Plan, slip: nat)
    requires Valid(pl)
  {
    && b.Ok() && 0 <= k < |pl.dests|
    && match q.stage
       case VER_CMD_ATYP => slip == 0 && Unread(input, b.bytes, Offset(pl, k))
       case DST_LEN => slip == 0 && q.atyp == pl.dests[k].atyp && Unread(input, b.bytes, Offset(pl, k) + 4)
       case DST_RES => pl.dests[k].atyp == Q.FQDN && Behind(input, b.bytes, k + 1, pl, slip)
  }

  ghost predicate BehindRequest(p: Proxy, s: seq<byte>, pl: Plan, slip: nat)
    requires Valid(pl)
  {
    0 < p.attempts <= |pl.dests| && p.lookups == 0 && Behind(p.input, s, p.attempts, pl, slip)
  }

  ghost predicate OnTrack(p: Proxy, pl: Plan, slip: nat)
    requires Valid(pl)
  {
    match p.state
    case GREETING => slip == 0 && p.lookups == 0 && InGreeting(p, pl)
    case AUTH => slip == 0 && p.lookups == 0 && InAuth(p, pl)
    case REQUEST =>
      && InRequest(p.req, p.cb, p.input, p.attempts - 1, pl, slip)
      && p.lookups == if p.req.stage == Q.DST_RES then 1 else 0
    case CONNECT => p.cb.Ok() && BehindRequest(p, p.cb.bytes, pl, slip)
    case REPLY => p.cb.Ok() && BehindRequest(p, p.cb.bytes, pl, slip)
    case COPY => p.relay.Ok() && BehindRequest(p, p.relay.origin.sent + p.relay.origin.buf.bytes, pl, slip)
    case DONE => true
    case ERROR => true
  }

  ghost predicate Inv(p: Proxy, pl: Plan, slip: nat)
    requires Valid(pl)
  {
    slip <= p.attempts && (Overrun(p, pl) || Astray(p, slip) || OnTrack(p, pl, slip))
  }

  // ----- what every step keeps -----

  lemma GreetingReadKeeps(p: Proxy, r: Recv, pl: Plan)
    requires Valid(pl) && OnTrack(p, pl, 0) && p.armed.r && p.state == GREETING && Fits(p.cb, r)
    requires OnGreetingRead(p, r).input <= Stream(pl)
    ensures OnTrack(OnGreetingRead(p, r), pl, 0)
  {
    if r.Received? {
      G.ReadAgrees(p.greet, p.cb, p.ob, r.data, p.input, 0);
      GreetingOfPrefix(pl, p.input + r.data);
      GreetingHandledKeeps(p, G.GreetingRead(p.greet, p.cb, p.ob, r), r.data, pl);
    }
  }

  lemma GreetingHandledKeeps(p: Proxy, h: Handled<G.Greet>, d: seq<byte>, pl: Plan)
    requires Valid(pl) && p.state == GREETING && p.armed == OP_READ && p.attempts == 0 && p.lookups == 0
    requires h.client.Ok()
    requires h.next != DONE ==>
               var s, m := p.input + d, |GreetingOf(pl)|;
               && G.Agrees(h, p.ob, s, 0)
               && G.Parse(s) == if |s| < m then G.Waiting else G.Chosen(G.AUTH_METHOD, s[m..])
    ensures OnTrack(GreetingHandled(p, h, d), pl, 0)
  {
  }

  lemma GreetingWriteKeeps(p: Proxy, n: int, pl: Plan)
    requires Valid(pl) && OnTrack(p, pl, 0) && !p.armed.r && p.state == GREETING && n <= |p.ob.bytes|
    ensures OnTrack(OnGreetingWrite(p, n), pl, 0)
  {
  }

  lemma AuthReadKeeps(p: Proxy, r: Recv, users: seq<User>, pl: Plan)
    requires Valid(pl) && OnTrack(p, pl, 0) && p.armed.r && p.state == AUTH && Fits(p.cb, r)
    requires OnAuthRead(p, r, users).input <= Stream(pl)
    ensures OnTrack(OnAuthRead(p, r, users), pl, 0)
  {
    if r.Received? {
      AuthPosition(p.input, r.data, pl);
      A.ReadAgrees(p.auth, p.cb, p.ob, users, r.data, p.input[|GreetingOf(pl)|..], p.cb.cap);
      AuthHandledKeeps(p, A.AuthRead(p.auth, p.cb, p.ob, r, users), r.data, users, pl);
    }
  }

  /** What the single pass makes of everything received behind the greeting. */
  lemma AuthPosition(input: seq<byte>, d: seq<byte>, pl: Plan)
    requires Valid(pl) && |GreetingOf(pl)| <= |input| && input + d <= Stream(pl)
    ensures var at, m := |GreetingOf(pl)|, |AuthOf(pl)|;
            var s := input[at..] + d;
            && s == (input + d)[at..]
            && A.Parse(s) == if |s| < m then A.Waiting
                             else A.Credentials(pl.username, pl.password, (input + d)[at + m..])
  {
    var at, m, t := |GreetingOf(pl)|, |AuthOf(pl)|, input + d;
    var s := input[at..] + d;
    assert s == t[at..];
    PrefixBeyond(t, Stream(pl), at);
    assert Stream(pl)[at..] == AuthOf(pl) + From(pl, 0);
    AuthOfPrefix(pl, s);
    assert |s| >= m ==> s[m..] == t[at + m..];
  }

  /** Whatever agrees with the single pass leaves the connection in order. */
  lemma AuthHandledKeeps(p: Proxy, h: Handled<A.AuthSt>, d: seq<byte>, users: seq<User>, pl: Plan)
    requires Valid(pl) && p.state == AUTH && p.armed == OP_READ && p.attempts == 0 && p.lookups == 0
    requires |GreetingOf(pl)| <= |p.input| && h.client.Ok() && h.client.cap == p.cb.cap
    requires h.next != DONE ==>
               var at, m := |GreetingOf(pl)|, |AuthOf(pl)|;
               var s := p.input[at..] + d;
               && A.Agrees(h, p.ob, users, s, p.cb.cap)
               && s == (p.input + d)[at..]
               && A.Parse(s) == if |s| < m then A.Waiting
                                else A.Credentials(pl.username, pl.password, (p.input + d)[at + m..])
    ensures OnTrack(AuthHandled(p, h, d), pl, 0)
  {
  }

  lemma AuthWriteKeeps(p: Proxy, n: int, pl: Plan)
    requires Valid(pl) && OnTrack(p, pl, 0) && !p.armed.r && p.state == AUTH && n <= |p.ob.bytes|
    ensures Inv(OnAuthWrite(p, n), pl, 0)
  {
  }

  ghost predicate FrontIs(f: Q.Head, input: seq<byte>, k: nat, pl: Plan)
    requires Valid(pl)
  {
    match f
    case Stop(r) =>
      || r.result == Q.Closed
      || (r.result == Q.Waits && r.q.stage == Q.VER_CMD_ATYP && InRequest(r.q, r.client, input, k, pl, 0))
    case Pass(q, c) => q.stage == Q.DST_LEN && InRequest(q, c, input, k, pl, 0)
  }

  /** The front of a request read: it ends the connection, waits for the whole header, or the address is next. */
  lemma FrontKeeps(q: Q.Request, cb: Buf, input: seq<byte>, first: Recv, k: nat, pl: Plan)
    requires Valid(pl) && InRequest(q, cb, input, k, pl, 0) && q.stage != Q.DST_RES
    requires q.stage == Q.VER_CMD_ATYP ==> Fits(cb, first)
    requires input + FirstData(q, first) <= Stream(pl)
    ensures FrontIs(Q.Front(q, cb, first), input + FirstData(q, first), k, pl)
  {
    if q.stage == Q.VER_CMD_ATYP {
      var t, at := input + Data(first), Offset(pl, k);
      var b := cb.Receive(first);
      assert b.bytes == t[at..];
      if |b.bytes| >= 4 {
        var d := pl.dests[k];
        StreamFrom(pl, k);
        assert b.bytes <= Stream(pl)[at..] == RequestOf(d) + From(pl, k + 1);
        assert b.bytes[..4] == RequestOf(d)[..4] == [SOCKS5_VERSION, Q.CONNECT_CMD, RSV, d.atyp];
        assert b.bytes == b.bytes[..4] + b.bytes[4..];
        Q.HeaderPasses(q, b, d.atyp, b.bytes[4..]);
        assert b.bytes[4..] == t[at + 4..];
      }
    }
  }

  /**
   * A read of the `k`-th request took nothing or, as far as it was there, all of it, `u` being everything
   * received. It was `short` if it lacked its last byte.
   */
  ghost predicate Consumes(r: Q.Read, q: Q.Request, b: Buf, u: seq<byte>, k: nat, pl: Plan, short: bool)
    requires Valid(pl) && k < |pl.dests|
  {
    match r.result
    case Closed => true
    case Waits => r.q == q && r.client == b && !short
    case Refused(_) => false
    case Resolves => r.q.stage == Q.DST_RES && pl.dests[k].atyp == Q.FQDN && Took(r.client, u, k, pl, short)
    case Connects => Took(r.client, u, k, pl, short)
  }

  ghost predicate Took(c: Buf, u: seq<byte>, k: nat, pl: Plan, short: bool)
    requires Valid(pl) && k < |pl.dests|
  {
    c.Ok() && Unread(u, c.bytes, if short then Offset(pl, k + 1) - 1 else Offset(pl, k + 1))
  }

  /** The address, unless it is a torn name: nothing, or exactly what is there of the request, is consumed. */
  lemma ResolveKeeps(q: Q.Request, b: Buf, u: seq<byte>, k: nat, pl: Plan, junk: byte)
    requires Valid(pl) && k < |pl.dests| && u <= Stream(pl) && b.Ok()
    requires q.stage == Q.DST_LEN && q.atyp == pl.dests[k].atyp
    requires Offset(pl, k) + 4 <= |u| && b.bytes == u[Offset(pl, k) + 4..]
    requires !TornOf(q.atyp, b.bytes)
    ensures Consumes(Q.Resolve(q, b, junk), q, b, u, k, pl, ShortOf(q.atyp, b.bytes))
  {
    var d, at := pl.dests[k], Offset(pl, k);
    AddressNext(u, k, pl);
    if b.bytes != [] {
      var tail, rest := Q.Tail(d.atyp, d.addr, d.hi, d.lo), From(pl, k + 1);
      NeedIsTail(d, rest, b.bytes);
      Q.DecodedExactlyWhenWhole(q, b, d.addr, d.hi, d.lo, rest, |b.bytes|, junk);
      WholeIsTaken(Q.Resolve(q, b, junk), q, b, tail, rest, u, k, pl);
    }
  }

  /** From what decoding promises to where the connection stands in its stream. */
  lemma WholeIsTaken(
      r: Q.Read, q: Q.Request, b: Buf, tail: seq<byte>, rest: seq<byte>, u: seq<byte>, k: nat, pl: Plan)
    requires Valid(pl) && k < |pl.dests| && q.atyp == pl.dests[k].atyp && r.client.Ok()
    requires Offset(pl, k) + 4 <= |u| && b.bytes == u[Offset(pl, k) + 4..]
    requires Offset(pl, k + 1) == Offset(pl, k) + 4 + |tail|
    requires 0 < |b.bytes| <= |tail + rest| && b.bytes == (tail + rest)[..|b.bytes|] && |tail| >= 2
    requires !TornOf(q.atyp, b.bytes) && Need(q.atyp, b.bytes) == |tail|
    requires |b.bytes| >= |tail| ==>
               && r.result == (if q.atyp == Q.FQDN then Q.Resolves else Q.Connects)
               && r.client.bytes + (tail + rest)[|b.bytes|..] == rest
    requires |b.bytes| == |tail| - 1 ==>
               r.result == (if q.atyp == Q.FQDN then Q.Resolves else Q.Connects) && r.client.bytes == []
    requires |b.bytes| < |tail| - 1 ==> r.result == Q.Waits && r.q == q && (q.atyp != Q.FQDN ==> r.client == b)
    requires r.result == Q.Resolves ==> r.q.stage == Q.DST_RES
    ensures Consumes(r, q, b, u, k, pl, ShortOf(q.atyp, b.bytes))
  {
    if |b.bytes| >= |tail| {
      UnreadIsBehind(r.client.bytes, b.bytes, tail, rest);
      assert b.bytes[|tail|..] == u[Offset(pl, k + 1)..];
    }
  }

  lemma NeedIsTail(d: Destination, rest: seq<byte>, b: seq<byte>)
    requires b != [] && |b| <= |Q.Tail(d.atyp, d.addr, d.hi, d.lo) + rest|
    requires b == (Q.Tail(d.atyp, d.addr, d.hi, d.lo) + rest)[..|b|]
    ensures Need(d.atyp, b) == |Q.Tail(d.atyp, d.addr, d.hi, d.lo)|
  {
  }

  /** Behind a header, the stream continues with address and port, and then with what comes next. */
  lemma AddressNext(u: seq<byte>, k: nat, pl: Plan)
    requires Valid(pl) && k < |pl.dests| && u <= Stream(pl) && Offset(pl, k) + 4 <= |u|
    ensures var d := pl.dests[k];
            var full, b := Q.Tail(d.atyp, d.addr, d.hi, d.lo) + From(pl, k + 1), u[Offset(pl, k) + 4..];
            |b| <= |full| && b == full[..|b|]
    ensures Offset(pl, k + 1) == Offset(pl, k) + 4 + |Q.Tail(pl.dests[k].atyp, pl.dests[k].addr, 0, 0)|
  {
    StreamFrom(pl, k);
    AddressIn(pl, k);
    var at, s := Offset(pl, k), Stream(pl);
    assert s[at + 4..] == s[at..][4..];
    PrefixBeyond(u, s, at + 4);
  }

  lemma AddressIn(pl: Plan, k: nat)
    requires k < |pl.dests| && 0 < |pl.methods| < 256 && |pl.username| < 256 && |pl.password| < 256
    ensures var d := pl.dests[k];
            |From(pl, k)| >= 4 && From(pl, k)[4..] == Q.Tail(d.atyp, d.addr, d.hi, d.lo) + From(pl, k + 1)
    ensures Offset(pl, k + 1) == Offset(pl, k) + 4 + |Q.Tail(pl.dests[k].atyp, pl.dests[k].addr, 0, 0)|
  {
  }

  /** Removing the same future from both sides. */
  lemma UnreadIsBehind(unread: seq<byte>, b: seq<byte>, tail: seq<byte>, rest: seq<byte>)
    requires |tail| <= |b| <= |tail + rest| && b == (tail + rest)[..|b|]
    requires unread + (tail + rest)[|b|..] == rest
    ensures unread == b[|tail|..]
  {
    assert b[|tail|..] + (tail + rest)[|b|..] == rest;
    assert |unread| == |b[|tail|..]|;
    assert rest[..|unread|] == unread && rest[..|unread|] == b[|tail|..];
  }

  lemma ReceivedBehind(c: Buf, r: Recv, t: seq<byte>, at: nat)
    requires at <= |t| && c.bytes == t[at..]
    ensures c.Receive(r).bytes == (t + Data(r))[at..]
  {
  }

  /** The connection after a read that is at the `k`-th request, or has taken it. */
  lemma RequestHandledKeeps(p: Proxy, r: Q.Read, q: Q.Request, b: Buf, d: seq<byte>, env: Env, pl: Plan, short: bool)
    requires Valid(pl) && p.state == REQUEST && 0 < p.attempts <= |pl.dests| && p.lookups == 0
    requires Consumes(r, q, b, p.input + d, p.attempts - 1, pl, short)
    requires r.result == Q.Waits ==> q.stage != Q.DST_RES && InRequest(q, b, p.input + d, p.attempts - 1, pl, 0)
    ensures OnTrack(RequestHandled(p, r, d, env), pl, if short then p.attempts else 0)
  {
    if r.result == Q.Connects {
      DialKeeps(p.(req := r.q, cb := r.client, input := p.input + d), env, pl, if short then p.attempts else 0);
    }
  }

  /** What becomes of a connection whose request was taken: it is dialled, and nothing else is consumed. */
  lemma DialKeeps(p: Proxy, env: Env, pl: Plan, slip: nat)
    requires Valid(pl) && p.cb.Ok() && BehindRequest(p, p.cb.bytes, pl, slip)
    ensures OnTrack(Dialed(p, env), pl, slip) && OnTrack(OnConnect(p, env), pl, slip)
  {
    DialLeaves(p, env);
    StillBehind(Dialed(p, env), p, pl, slip);
    StillBehind(OnConnect(p, env), p, pl, slip);
  }

  ghost predicate SameClient(p': Proxy, p: Proxy) {
    && (p'.state == CONNECT || p'.state == REPLY)
    && p'.cb == p.cb && p'.input == p.input && p'.attempts == p.attempts && p'.lookups == p.lookups
  }

  lemma DialLeaves(p: Proxy, env: Env)
    ensures SameClient(Dialed(p, env), p) && SameClient(OnConnect(p, env), p)
  {
  }

  lemma StillBehind(p': Proxy, p: Proxy, pl: Plan, slip: nat)
    requires Valid(pl) && p.cb.Ok() && BehindRequest(p, p.cb.bytes, pl, slip) && SameClient(p', p)
    ensures OnTrack(p', pl, slip)
  {
  }

  lemma RequestReadKeeps(p: Proxy, ev: Event, pl: Plan)
    requires Valid(pl) && OnTrack(p, pl, 0) && p.state == REQUEST && ev.Readable? && p.req.stage != Q.DST_RES
    requires Q.Possible(p.req, p.cb, ev.first, ev.second) && (HasNames(pl) ==> !Torn(p, ev))
    requires OnRequestRead(p, ev.first, ev.second, ev.env).input <= Stream(pl)
    ensures OnTrack(OnRequestRead(p, ev.first, ev.second, ev.env), pl, NextSlip(p, ev, 0))
  {
    var f, d := Q.Front(p.req, p.cb, ev.first), FirstData(p.req, ev.first);
    HeadInput(p, f, d, ev.second, ev.env);
    if f.Pass? {
      PrefixOfSum(p.input, d, Data(ev.second), Stream(pl));
    }
    FrontKeeps(p.req, p.cb, p.input, ev.first, p.attempts - 1, pl);
    NamedIn(pl, p.attempts - 1);
    HeadHandledKeeps(p, f, d, ev.second, ev.env, pl);
  }

  lemma NamedIn(pl: Plan, k: nat)
    requires k < |pl.dests|
    ensures pl.dests[k].atyp == Q.FQDN ==> HasNames(pl)
  {
    assert pl.dests[k] in pl.dests;
  }

  lemma HeadInput(p: Proxy, f: Q.Head, d: seq<byte>, second: Recv, env: Env)
    requires p.state == REQUEST
    ensures HeadHandled(p, f, d, second, env).input == p.input + if f.Pass? then d + Data(second) else d
  {
  }

  lemma PrefixOfSum(a: seq<byte>, b: seq<byte>, c: seq<byte>, s: seq<byte>)
    requires a + (b + c) <= s
    ensures a + b <= s
  {
    assert a + (b + c) == (a + b) + c;
  }

  ghost predicate ShortHead(f: Q.Head, second: Recv) {
    f.Pass? && ShortOf(f.q.atyp, f.client.Receive(second).bytes)
  }

  lemma HeadHandledKeeps(p: Proxy, f: Q.Head, d: seq<byte>, second: Recv, env: Env, pl: Plan)
    requires Valid(pl) && p.state == REQUEST && 0 < p.attempts <= |pl.dests| && p.lookups == 0
    requires FrontIs(f, p.input + d, p.attempts - 1, pl)
    requires f.Pass? ==> Fits(f.client, second) && !TornOf(f.q.atyp, f.client.Receive(second).bytes)
    requires f.Pass? ==> p.input + (d + Data(second)) <= Stream(pl)
    ensures OnTrack(HeadHandled(p, f, d, second, env), pl, if ShortHead(f, second) then p.attempts else 0)
  {
    match f {
      case Stop(r) =>
        RequestHandledKeeps(p, r, r.q, r.client, d, env, pl, false);
      case Pass(q, c) =>
        AddressReadKeeps(p, q, c, d, second, env, pl);
    }
  }

  lemma AddressReadKeeps(p: Proxy, q: Q.Request, c: Buf, d: seq<byte>, second: Recv, env: Env, pl: Plan)
    requires Valid(pl) && p.state == REQUEST && 0 < p.attempts <= |pl.dests| && p.lookups == 0
    requires q.stage == Q.DST_LEN && InRequest(q, c, p.input + d, p.attempts - 1, pl, 0)
    requires Fits(c, second) && !TornOf(q.atyp, c.Receive(second).bytes)
    requires p.input + (d + Data(second)) <= Stream(pl)
    ensures OnTrack(RequestHandled(p, Q.Resolve(q, c.Receive(second), env.junk), d + Data(second), env), pl,
                    if ShortOf(q.atyp, c.Receive(second).bytes) then p.attempts else 0)
  {
    var k, b, u := p.attempts - 1, c.Receive(second), p.input + (d + Data(second));
    ReceivedBehind(c, second, p.input + d, Offset(pl, k) + 4);
    assert u == (p.input + d) + Data(second);
    ResolveKeeps(q, b, u, k, pl, env.junk);
    RequestHandledKeeps(p, Q.Resolve(q, b, env.junk), q, b, d + Data(second), env, pl, ShortOf(q.atyp, b.bytes));
  }

  /** Back in the REQUEST state, the next request is on turn, unless the last one was caught short. */
  lemma ReplyWriteKeeps(p: Proxy, n: int, pl: Plan, slip: nat)
    requires Valid(pl) && p.state == REPLY && OnTrack(p, pl, slip) && n <= |p.ob.bytes| && p.ob.Ok()
    requires slip == 0 || slip == p.attempts
    ensures Inv(OnReplyWrite(p, n), pl, slip)
  {
  }

  lemma RelayedBehind(o: R.End, d: seq<byte>, input: seq<byte>, at: nat)
    requires Unread(input, o.sent + o.buf.bytes, at)
    ensures Unread(input + d, o.sent + o.buf.bytes + d, at)
  {
  }

  lemma CopyKeeps(p: Proxy, ev: R.Event, pl: Plan, slip: nat)
    requires Valid(pl) && p.state == COPY && OnTrack(p, pl, slip) && R.Possible(p.relay, ev)
    ensures OnTrack(OnCopy(p, ev), pl, slip)
  {
    R.StepConserves(p.relay, ev, R.Client);
    R.StepKeepsOk(p.relay, ev);
    var at := if slip == 0 then Offset(pl, p.attempts) else Offset(pl, p.attempts) - 1;
    RelayedBehind(p.relay.origin, R.Brought(R.Client, ev), p.input, at);
    RelayKeeps(p, R.Step(p.relay, ev).0, R.Step(p.relay, ev).1, R.Brought(R.Client, ev), pl, slip);
  }

  lemma RelayKeeps(p: Proxy, r: R.Relay, v: State, d: seq<byte>, pl: Plan, slip: nat)
    requires Valid(pl) && 0 < p.attempts <= |pl.dests| && p.lookups == 0
    requires r.Ok() && (v == COPY || v == DONE || v == ERROR)
    requires Behind(p.input + d, r.origin.sent + r.origin.buf.bytes, p.attempts, pl, slip)
    ensures OnTrack(p.(relay := r, state := v, input := p.input + d), pl, slip)
  {
  }

  /** A connection that is on track: only a read of an address can be caught short. */
  lemma TrackedStepKeeps(p: Proxy, ev: Event, pl: Plan, slip: nat)
    requires Valid(pl) && OnTrack(p, pl, slip) && (slip == 0 || slip == p.attempts)
    requires p.ob.Ok() && Possible(p, ev) && (HasNames(pl) ==> !Torn(p, ev))
    requires Step(p, ev).input <= Stream(pl)
    ensures Inv(Step(p, ev), pl, NextSlip(p, ev, slip))
  {
    match p.state
    case GREETING =>
      if ev.Readable? { GreetingReadKeeps(p, ev.first, pl); } else { GreetingWriteKeeps(p, ev.n, pl); }
    case AUTH =>
      if ev.Readable? { AuthReadKeeps(p, ev.first, ev.env.users, pl); } else { AuthWriteKeeps(p, ev.n, pl); }
    case REQUEST => RequestStepKeeps(p, ev, pl, slip);
    case CONNECT => DialKeeps(p, ev.env, pl, slip);
    case REPLY => ReplyWriteKeeps(p, ev.n, pl, slip);
    case COPY => CopyKeeps(p, RelayEvent(ev), pl, slip);
  }

  lemma RequestStepKeeps(p: Proxy, ev: Event, pl: Plan, slip: nat)
    requires Valid(pl) && p.state == REQUEST && OnTrack(p, pl, slip) && (slip == 0 || slip == p.attempts)
    requires Possible(p, ev) && (HasNames(pl) ==> !Torn(p, ev))
    requires Step(p, ev).input <= Stream(pl)
    ensures OnTrack(Step(p, ev), pl, NextSlip(p, ev, slip))
  {
    if ev.NameResolved? {
      DialKeeps(p.(lookups := p.lookups - 1), ev.env, pl, slip);
    } else {
      NamedIn(pl, p.attempts - 1);
      RequestReadKeeps(p, ev, pl);
    }
  }

  lemma StepKeeps(p: Proxy, ev: Event, pl: Plan, slip: nat)
    requires Valid(pl) && Inv(p, pl, slip) && p.ob.Ok() && Possible(p, ev) && (HasNames(pl) ==> !Torn(p, ev))
    requires Step(p, ev).input <= Stream(pl)
    ensures Inv(Step(p, ev), pl, NextSlip(p, ev, slip))
  {
    if !Overrun(p, pl) && !Astray(p, slip) {
      TrackedStepKeeps(p, ev, pl, slip);
    }
  }

  lemma {:induction false} RunKeeps(cap: nat, auth: A.AuthSt, evs: seq<Event>, pl: Plan)
    requires Valid(pl) && Run(Start(cap, auth), evs) && (HasNames(pl) ==> NamesWhole(Start(cap, auth), evs))
    requires After(Start(cap, auth), evs).input <= Stream(pl)
    ensures Inv(After(Start(cap, auth), evs), pl, Slip(Start(cap, auth), evs)) && After(Start(cap, auth), evs).ob.Ok()
  {
    if evs != [] {
      var p, ev := After(Start(cap, auth), R.Init(evs)), R.Last(evs);
      RunKeeps(cap, auth, R.Init(evs), pl);
      StepKeeps(p, ev, pl, Slip(Start(cap, auth), R.Init(evs)));
    }
  }

  /**
   * Only payload is relayed. However the client's stream is cut and whatever the system calls do, once
   * the relay runs after the `k`-th attempt: if no read caught a request one byte short, what was sent to
   * the origin is a prefix of what the client sent behind its `k`-th request, and with one request, of its
   * payload. And if no earlier request was caught short, what was sent and what waits for the origin are
   * what was received behind the request exactly if the `k`-th was not caught short either.
   */
  lemma OnlyPayloadIsRelayed(cap: nat, auth: A.AuthSt, evs: seq<Event>, pl: Plan)
    requires Valid(pl) && Run(Start(cap, auth), evs) && (HasNames(pl) ==> NamesWhole(Start(cap, auth), evs))
    requires After(Start(cap, auth), evs).input <= Stream(pl)
    ensures var p, slip := After(Start(cap, auth), evs), Slip(Start(cap, auth), evs);
            p.state == COPY && p.attempts <= |pl.dests| ==>
              && 0 < p.attempts
              && (slip == 0 ==>
                    && p.relay.origin.sent <= From(pl, p.attempts)
                    && (|pl.dests| == 1 ==> p.relay.origin.sent <= pl.payload))
              && (slip == 0 || slip == p.attempts ==>
                    (Unread(p.input, p.relay.origin.sent + p.relay.origin.buf.bytes, Offset(pl, p.attempts)) <==> slip == 0))
  {
    RunKeeps(cap, auth, evs, pl);
    var p, slip := After(Start(cap, auth), evs), Slip(Start(cap, auth), evs);
    if p.state == COPY && p.attempts <= |pl.dests| {
      BehindOrNot(p, pl, slip);
      if slip == 0 {
        SentIsPrefix(p, pl);
      }
    }
  }

  lemma BehindOrNot(p: Proxy, pl: Plan, slip: nat)
    requires Valid(pl) && p.state == COPY && p.attempts <= |pl.dests| && Inv(p, pl, slip)
    ensures slip == 0 || slip == p.attempts ==>
              && 0 < p.attempts
              && (Unread(p.input, p.relay.origin.sent + p.relay.origin.buf.bytes, Offset(pl, p.attempts)) <==> slip == 0)
    ensures 0 < p.attempts
  {
  }

  lemma SentIsPrefix(p: Proxy, pl: Plan)
    requires Valid(pl) && p.attempts <= |pl.dests| && p.input <= Stream(pl)
    requires Unread(p.input, p.relay.origin.sent + p.relay.origin.buf.bytes, Offset(pl, p.attempts))
    ensures p.relay.origin.sent <= From(pl, p.attempts)
  {
    StreamFrom(pl, p.attempts);
    PrefixBeyond(p.input, Stream(pl), Offset(pl, p.attempts));
  }
}
