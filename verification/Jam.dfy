/**
 * How large the buffer must be for requests: 791 bytes let every first attempt be read, and no size lets
 * every later one. The runs given here end with a connection that nothing can move any more.
 */
module Jams {
  import opened Bytes
  import opened Buffers
  import opened Protocol
  import opened Users
  import opened Proxies
  import opened Liveness
  import Capacity
  import A = Auths
  import G = Greetings
  import Q = Requests
  import R = Relays
  import W = AddressWalks

  /** The longest part of a request by address that has to be waited for: the header and all of an IPv6 address. */
  const REQUEST_PART := 20

  const ENOUGH := Capacity.GREETING_MAX + Capacity.AUTH_MAX + REQUEST_PART + 1

  // ----- enough -----

  lemma GreetingHasRoom(g: G.Greet, b: Buf, input: seq<byte>)
    requires G.Tracks(g, b, input, 0) && |b.bytes| < if g.stage == G.METHODS then g.nMethods as int else 2
    ensures b.off + |b.bytes| < Capacity.GREETING_MAX
  {
    Capacity.GreetingWaits(input);
  }

  lemma CredentialsHaveRoom(a: A.AuthSt, b: Buf)
    requires Capacity.Reading(a, b) && b.bytes != [] && |b.bytes| < AuthNeed(a)
    ensures b.off + |b.bytes| < Capacity.GREETING_MAX + Capacity.AUTH_MAX
  {
  }

  /** Up to its first attempt, a connection with enough room for all that it may have to wait for is never jammed. */
  lemma NeverJammed(p: Proxy, cap: nat)
    requires Capacity.Inv(p, cap) && p.cb.cap == cap >= ENOUGH && p.attempts <= 1
    ensures !Jammed(p)
  {
    if Jammed(p) {
      match p.state
      case GREETING => GreetingHasRoom(p.greet, p.cb, p.input);
      case AUTH => CredentialsHaveRoom(p.auth, p.cb);
      case REQUEST =>
    }
  }

  /** Up to its first attempt, no connection is ever stuck. */
  ghost predicate FirstAttemptsMove(cap: nat) {
    forall auth: A.AuthSt, evs: seq<Event> ::
      Run(Start(cap, auth), evs) && Live(After(Start(cap, auth), evs)) ==> Waiting(After(Start(cap, auth), evs))
  }

  predicate Live(p: Proxy) {
    p.attempts <= 1 && !Ended(p.state)
  }

  lemma EnoughIsEnough(cap: nat)
    requires cap >= ENOUGH
    ensures FirstAttemptsMove(cap)
  {
    forall auth: A.AuthSt, evs: seq<Event> | Run(Start(cap, auth), evs) && Live(After(Start(cap, auth), evs))
      ensures Waiting(After(Start(cap, auth), evs))
    {
      Capacity.RunKeeps(cap, auth, evs);
      Liveness.RunKeeps(cap, auth, evs);
      NeverJammed(After(Start(cap, auth), evs), cap);
      StuckExactlyWhenJammed(cap, auth, evs);
    }
  }

  // ----- not enough: part of a greeting -----

  /** `n` methods, none of them asking for a password. */
  function Others(n: nat): (s: seq<byte>)
    requires n < 256
    ensures |s| == n && G.AUTH_METHOD !in s
  {
    seq(n, _ => 0)
  }

  lemma PartOfGreetingJams(p: Proxy, d: seq<byte>)
    requires p.state == GREETING && p.armed == OP_READ && G.Tracks(p.greet, p.cb, p.input, 0)
    requires |d| == p.cb.Room() > 0 && |p.input + d| != 2 && G.Parse(p.input + d) == G.Waiting
    ensures Possible(p, Hear(d)) && Jammed(Step(p, Hear(d))) && Step(p, Hear(d)).attempts == p.attempts
  {
    G.ReadAgrees(p.greet, p.cb, p.ob, d, p.input, 0);
  }

  /** Fewer than five bytes do not hold a greeting and part of a request, but part of a longer greeting. */
  lemma GreetingJams(cap: nat, auth: A.AuthSt) returns (evs: seq<Event>)
    requires 0 < cap < 5
    ensures Run(Start(cap, auth), evs) && Live(After(Start(cap, auth), evs)) && Jammed(After(Start(cap, auth), evs))
  {
    if cap == 2 {
      evs := MethodsJam(auth);
    } else {
      var d, p := G.Message(Others(255))[..cap], Start(cap, auth);
      G.PrefixWaits(Others(255), d);
      assert [] + d == d;
      PartOfGreetingJams(p, d);
      RunSnoc(p, [], Hear(d));
      evs := [] + [Hear(d)];
    }
  }

  /** Two bytes hold a header and, once it is consumed, two methods. */
  lemma MethodsJam(auth: A.AuthSt) returns (evs: seq<Event>)
    ensures Run(Start(2, auth), evs) && Live(After(Start(2, auth), evs)) && Jammed(After(Start(2, auth), evs))
  {
    var s, p := G.Message(Others(255)), Start(2, auth);
    var d, d' := s[..2], s[2..4];
    HeaderHeard(p, d);
    RunSnoc(p, [], Hear(d));
    assert d + d' == s[..4];
    G.PrefixWaits(Others(255), d + d');
    PartOfGreetingJams(Step(p, Hear(d)), d');
    RunSnoc(p, [] + [Hear(d)], Hear(d'));
    evs := [] + [Hear(d)] + [Hear(d')];
  }

  lemma HeaderHeard(p: Proxy, d: seq<byte>)
    requires p == Start(2, p.auth) && d == G.Message(Others(255))[..2]
    ensures Possible(p, Hear(d))
    ensures var p' := Step(p, Hear(d));
            && p'.state == GREETING && p'.armed == OP_READ && p'.cb == Buf([], 0, 2) && p'.input == d
            && p'.attempts == 0 && G.Tracks(p'.greet, p'.cb, p'.input, 0)
  {
    G.PrefixWaits(Others(255), d);
    G.ReadAgrees(p.greet, p.cb, p.ob, d, [], 0);
    assert [] + d == d;
  }

  // ----- a buffer filled at once -----

  /** The client's buffer is full, and `s` of it is unread. */
  ghost predicate FullOf(p: Proxy, cap: nat, s: seq<byte>) {
    p.cb.Ok() && p.cb.cap == cap && p.cb.bytes == s && s != [] && p.cb.Room() == 0
  }

  /** Ready for a message of which all that fits has come. */
  ghost predicate Filled(p: Proxy, s: State, cap: nat, unread: seq<byte>) {
    && p.state == s && p.armed == OP_READ && FullOf(p, cap, unread) && p.ob == Buf([], 0, cap) && p.lookups == 0
    && (s == AUTH ==> p.auth == A.Arrived(p.auth) && p.attempts == 0)
    && (s == REQUEST ==> p.req.stage == Q.VER_CMD_ATYP)
  }

  lemma GreetingHeard(cap: nat, auth: A.AuthSt, methods: seq<byte>, rest: seq<byte>)
    requires 0 < |methods| < 256 && rest != [] && cap == 2 + |methods| + |rest|
    requires G.AUTH_METHOD !in methods[..|methods| - 1]
    ensures Possible(Start(cap, auth), Hear(G.Message(methods) + rest))
    ensures var p := Step(Start(cap, auth), Hear(G.Message(methods) + rest));
            && p.state == GREETING && p.armed == OP_WRITE && FullOf(p, cap, rest) && |p.ob.bytes| == 2
            && p.ob.Ok() && p.ob.cap == cap && p.lookups == 0 && p.attempts == 0 && p.req.stage == Q.VER_CMD_ATYP
            && (p.greet.chosen == G.AUTH_METHOD <==> G.AUTH_METHOD in methods)
  {
    var p, d := Start(cap, auth), G.Message(methods) + rest;
    assert [] + d == d;
    G.ReadAgrees(p.greet, p.cb, p.ob, d, [], 0);
    G.ConsumesItsMessageIff(methods, rest);
  }

  lemma GreetingAnswered(p: Proxy, cap: nat, rest: seq<byte>)
    requires p.state == GREETING && p.armed == OP_WRITE && FullOf(p, cap, rest) && |p.ob.bytes| == 2
    requires p.ob.Ok() && p.ob.cap == cap && p.lookups == 0 && p.attempts == 0 && p.req.stage == Q.VER_CMD_ATYP
    ensures Possible(p, Answer(2))
    ensures var p' := Step(p, Answer(2));
            if p.greet.chosen == G.AUTH_METHOD then Filled(p', AUTH, cap, rest) && p'.req.stage == Q.VER_CMD_ATYP
            else Filled(p', REQUEST, cap, rest) && p'.attempts == 1
  {
  }

  /** The greeting and what follows it fill the buffer in one chunk. */
  lemma Greeted(cap: nat, auth: A.AuthSt, methods: seq<byte>, rest: seq<byte>) returns (evs: seq<Event>)
    requires 0 < |methods| < 256 && rest != [] && cap == 2 + |methods| + |rest|
    requires G.AUTH_METHOD !in methods[..|methods| - 1]
    ensures Run(Start(cap, auth), evs)
    ensures var p := After(Start(cap, auth), evs);
            if G.AUTH_METHOD in methods then Filled(p, AUTH, cap, rest) && p.req.stage == Q.VER_CMD_ATYP
            else Filled(p, REQUEST, cap, rest) && p.attempts == 1
  {
    var p, d := Start(cap, auth), G.Message(methods) + rest;
    GreetingHeard(cap, auth, methods, rest);
    RunSnoc(p, [], Hear(d));
    assert After(p, []) == p;
    GreetingAnswered(Step(p, Hear(d)), cap, rest);
    RunSnoc(p, [] + [Hear(d)], Answer(2));
    evs := [] + [Hear(d)] + [Answer(2)];
  }

  // ----- not enough: credentials and part of a first request -----

  const READ: Event := Readable(R.Client, Received([]), Received([]), QUIET)

  /** A name or a password of the given length. */
  function Text(n: nat): (s: CString)
    requires n < 256
    ensures |s| == n
  {
    seq(n, _ => 97)
  }

  function Check(users: seq<User>): Event {
    READ.(env := QUIET.(users := users))
  }

  lemma {:induction false} Plain(s: CString)
    ensures ToCString(s) == s
  {
    if s != [] {
      Plain(s[1..]);
      assert s == [s[0]] + s[1..];
    }
  }

  /** The answer is queued, and what follows the credentials still fills the buffer. */
  ghost predicate Answering(p: Proxy, cap: nat, rest: seq<byte>) {
    && p.state == AUTH && p.armed == OP_WRITE && FullOf(p, cap, rest) && |p.ob.bytes| == 2
    && p.ob.Ok() && p.ob.cap == cap && p.lookups == 0 && p.attempts == 0
    && p.req.stage == Q.VER_CMD_ATYP && p.auth.authenticated
  }

  lemma AuthHeard(p: Proxy, cap: nat, u: CString, w: CString, rest: seq<byte>, users: seq<User>)
    requires 0 < |u| < 256 && 0 < |w| < 256 && rest != [] && cap >= 2 && users == [User(u, w, Default)]
    requires Filled(p, AUTH, cap, A.Message(u, w) + rest) && p.req.stage == Q.VER_CMD_ATYP
    ensures Possible(p, Check(users)) && Answering(Step(p, Check(users)), cap, rest)
  {
    CredentialsRead(p, cap, u, w, rest, users);
  }

  lemma CredentialsRead(p: Proxy, cap: nat, u: CString, w: CString, rest: seq<byte>, users: seq<User>)
    requires 0 < |u| < 256 && 0 < |w| < 256 && rest != [] && cap >= 2 && users == [User(u, w, Default)]
    requires Filled(p, AUTH, cap, A.Message(u, w) + rest) && p.req.stage == Q.VER_CMD_ATYP
    ensures Answering(OnAuthRead(p, Received([]), users), cap, rest)
  {
    var s := p.cb.bytes;
    assert s + [] == s;
    A.ReadAgrees(p.auth, p.cb, p.ob, users, [], s, p.cb.off);
    A.ConsumesItsMessage(u, w, rest);
    IsKnown(u, w);
    AuthHandledLeaves(p, A.AuthRead(p.auth, p.cb, p.ob, Received([]), users), cap, s, u, w, rest, users);
  }

  lemma IsKnown(u: CString, w: CString)
    ensures A.Verified([User(u, w, Default)], ToCString(u), ToCString(w))
  {
    Plain(u);
    Plain(w);
    assert [User(u, w, Default)][0].username == u;
  }

  lemma AuthHandledLeaves(
      p: Proxy, h: Handled<A.AuthSt>, cap: nat, s: seq<byte>, u: CString, w: CString, rest: seq<byte>, users: seq<User>)
    requires p.state == AUTH && p.ob == Buf([], 0, cap) && cap >= 2 && FullOf(p, cap, s) && rest != []
    requires p.lookups == 0 && p.attempts == 0 && p.req.stage == Q.VER_CMD_ATYP
    requires A.Parse(s) == A.Credentials(u, w, rest) && A.Agrees(h, p.ob, users, s, p.cb.off)
    requires A.Verified(users, ToCString(u), ToCString(w)) && EndsWith(h.client, p.cb)
    ensures Answering(AuthHandled(p, h, []), cap, rest)
  {
  }

  lemma AuthAnswered(p: Proxy, cap: nat, rest: seq<byte>)
    requires Answering(p, cap, rest)
    ensures Possible(p, Answer(2))
    ensures Filled(Step(p, Answer(2)), REQUEST, cap, rest) && Step(p, Answer(2)).attempts == 1
  {
  }

  /** Greeting, credentials and the start of a request fill the buffer in one chunk, and the request is on turn. */
  lemma Accepted(cap: nat, auth: A.AuthSt, n: nat, u: nat, w: nat, rest: seq<byte>) returns (evs: seq<Event>)
    requires 0 < n < 256 && 0 < u < 256 && 0 < w < 256 && rest != [] && cap == 5 + n + u + w + |rest|
    ensures Run(Start(cap, auth), evs)
    ensures Filled(After(Start(cap, auth), evs), REQUEST, cap, rest) && After(Start(cap, auth), evs).attempts == 1
  {
    var p, methods, m := Start(cap, auth), Others(n - 1) + [G.AUTH_METHOD], A.Message(Text(u), Text(w));
    assert methods[..n - 1] == Others(n - 1) && methods[n - 1] == G.AUTH_METHOD;
    assert |m + rest| == 3 + u + w + |rest|;
    evs := Greeted(cap, auth, methods, m + rest);
    var users := [User(Text(u), Text(w), Default)];
    AuthHeard(After(p, evs), cap, Text(u), Text(w), rest, users);
    RunSnoc(p, evs, Check(users));
    AuthAnswered(After(p, evs + [Check(users)]), cap, rest);
    RunSnoc(p, evs + [Check(users)], Answer(2));
    evs := evs + [Check(users)] + [Answer(2)];
  }

  /** Less than a header is left. */
  lemma HeaderJams(p: Proxy, cap: nat, s: seq<byte>)
    requires Filled(p, REQUEST, cap, s) && 0 < |s| < 4
    ensures Jammed(p)
  {
  }

  /** A header, and all of an IPv6 address. */
  function LongPart(): (s: seq<byte>)
    ensures |s| == REQUEST_PART
  {
    [SOCKS5_VERSION, Q.CONNECT_CMD, RSV, Q.IPv6_ADDR] + seq(16, _ => 0)
  }

  lemma AddressJams(p: Proxy, cap: nat)
    requires Filled(p, REQUEST, cap, LongPart()) && p.attempts == 1
    ensures Possible(p, READ) && Jammed(Step(p, READ)) && Live(Step(p, READ))
  {
    var address := seq(16, _ => 0 as byte);
    assert p.cb.bytes + [] == p.cb.bytes;
    Q.HeaderPasses(p.req, p.cb, Q.IPv6_ADDR, address);
    assert address + [] == address;
  }

  /** With credentials, every capacity up to that of a greeting, credentials and part of a request jams. */
  lemma FirstRequestJams(cap: nat, auth: A.AuthSt) returns (evs: seq<Event>)
    requires 260 <= cap < ENOUGH
    ensures Run(Start(cap, auth), evs) && Live(After(Start(cap, auth), evs)) && Jammed(After(Start(cap, auth), evs))
  {
    var rest := if cap <= 772 then [SOCKS5_VERSION, Q.CONNECT_CMD] else LongPart();
    var n := if cap < 300 then 200 else 255;
    var both := cap - 5 - n - |rest|;
    var u := if both > 255 then 255 else 1;
    evs := Accepted(cap, auth, n, u, both - u, rest);
    var p := Start(cap, auth);
    if cap <= 772 {
      HeaderJams(After(p, evs), cap, rest);
    } else {
      AddressJams(After(p, evs), cap);
      RunSnoc(p, evs, READ);
      evs := evs + [READ];
    }
  }

  // ----- no capacity is enough for any number of requests -----

  const ADDRESS: seq<byte> := [127, 0, 0, 1]
  const PART: seq<byte> := [SOCKS5_VERSION, Q.CONNECT_CMD]

  const REFUSED := QUIET.(dial := Walked(W.GaveUp(W.ECONNREFUSED)), bound := Some([]))
  const TRY: Event := Readable(R.Client, Received([]), Received([]), REFUSED)

  function OneRequest(): (s: seq<byte>)
    ensures |s| == 10
  {
    Q.Message(Q.IPv4_ADDR, ADDRESS, 0, 80)
  }

  /** `k` requests, and part of another. */
  function Attempts(k: nat): (s: seq<byte>)
    ensures |s| == 10 * k + 2
  {
    if k == 0 then PART else OneRequest() + Attempts(k - 1)
  }

  /** A buffer that loses bytes in front, but not all, stays full. */
  lemma FullAfterDrop(b: Buf, n: nat)
    requires b.Ok() && b.Room() == 0 && n < |b.bytes|
    ensures b.Drop(n).Room() == 0 && b.Drop(n).Ok() && b.Drop(n).bytes == b.bytes[n..]
  {
  }

  /** What decoding the first of several requests leaves is what follows it. */
  lemma RequestTaken(q: Q.Request, b: Buf, k: nat)
    requires k > 0 && b.Ok() && b.Room() == 0 && b.bytes == Attempts(k)
    ensures var f := Q.Header(q, b);
            && f.Pass? && f.client == b.Drop(4)
            && var r := Q.Resolve(f.q, f.client, 0);
               r.result == Q.Connects && r.client == b.Drop(10) && r.client.bytes == Attempts(k - 1)
  {
    var tail, rest := Q.Tail(Q.IPv4_ADDR, ADDRESS, 0, 80), Attempts(k - 1);
    assert b.bytes == [SOCKS5_VERSION, Q.CONNECT_CMD, RSV, Q.IPv4_ADDR] + (tail + rest);
    Q.HeaderPasses(q, b, Q.IPv4_ADDR, tail + rest);
    AddressTaken(Q.Header(q, b).q, b.Drop(4), rest);
    DropTwice(b, 4, 6);
    assert b.bytes[10..] == rest;
  }

  lemma AddressTaken(q: Q.Request, b: Buf, rest: seq<byte>)
    requires q.stage == Q.DST_LEN && q.atyp == Q.IPv4_ADDR && b.Ok() && rest != []
    requires b.bytes == Q.Tail(Q.IPv4_ADDR, ADDRESS, 0, 80) + rest
    ensures Q.Resolve(q, b, 0).result == Q.Connects && Q.Resolve(q, b, 0).client == b.Drop(6)
  {
    DropTwice(b, 4, 1);
    DropTwice(b, 5, 1);
  }

  lemma AttemptFails(p: Proxy, cap: nat, k: nat)
    requires k > 0 && cap >= 5 && Filled(p, REQUEST, cap, Attempts(k))
    ensures Possible(p, TRY)
    ensures var p' := Step(p, TRY);
            && p'.state == REPLY && p'.armed.w && p'.found && p'.rep == W.CONNECTION_REFUSED && p'.lookups == 0
            && FullOf(p', cap, Attempts(k - 1)) && p'.ob.Ok() && p'.ob.cap == cap && |p'.ob.bytes| == 3
  {
    RequestTaken(p.req, p.cb, k);
    FullAfterDrop(p.cb, 10);
    FullAfterDrop(p.cb, 4);
    var f := Q.Header(p.req, p.cb);
    assert p.cb.bytes + [] == p.cb.bytes && f.client.bytes + [] == f.client.bytes;
    RefusedAnswer(p, Q.Resolve(f.q, f.client, 0), cap);
  }

  lemma RefusedAnswer(p: Proxy, r: Q.Read, cap: nat)
    requires p.state == REQUEST && r.result == Q.Connects && p.ob == Buf([], 0, cap) && cap >= 5 && p.lookups == 0
    ensures var p' := RequestHandled(p, r, [] + [], REFUSED);
            && p'.state == REPLY && p'.armed.w && p'.found && p'.rep == W.CONNECTION_REFUSED && p'.lookups == 0
            && p'.cb == r.client && p'.ob.Ok() && p'.ob.cap == cap && |p'.ob.bytes| == 3
  {
  }

  lemma FailureReplied(p: Proxy, cap: nat, s: seq<byte>)
    requires p.state == REPLY && p.armed.w && p.found && p.rep == W.CONNECTION_REFUSED && p.lookups == 0
    requires FullOf(p, cap, s) && p.ob.Ok() && p.ob.cap == cap && |p.ob.bytes| == 3
    ensures Possible(p, Answer(3)) && Filled(Step(p, Answer(3)), REQUEST, cap, s)
  {
  }

  /** One request after another is read, refused and answered; `j` of `k` of them here. */
  lemma {:induction false} SomeFail(p: Proxy, evs: seq<Event>, cap: nat, k: nat, j: nat) returns (evs': seq<Event>)
    requires cap >= 5 && j <= k && Run(p, evs) && Filled(After(p, evs), REQUEST, cap, Attempts(k))
    ensures Run(p, evs') && Filled(After(p, evs'), REQUEST, cap, Attempts(k - j))
    decreases j
  {
    evs' := evs;
    if j > 0 {
      evs' := SomeFail(p, evs, cap, k, j - 1);
      evs' := OneFails(p, evs', cap, k - j + 1, Attempts(k - j + 1), Attempts(k - j));
    }
  }

  lemma OneFails(p: Proxy, evs: seq<Event>, cap: nat, k: nat, s: seq<byte>, rest: seq<byte>) returns (evs': seq<Event>)
    requires cap >= 5 && k > 0 && s == Attempts(k) && rest == Attempts(k - 1)
    requires Run(p, evs) && Filled(After(p, evs), REQUEST, cap, s)
    ensures Run(p, evs') && Filled(After(p, evs'), REQUEST, cap, rest)
  {
    AttemptFails(After(p, evs), cap, k);
    RunSnoc(p, evs, TRY);
    FailureReplied(After(p, evs + [TRY]), cap, rest);
    RunSnoc(p, evs + [TRY], Answer(3));
    evs' := evs + [TRY] + [Answer(3)];
  }

  /**
   * A client that fills the buffer with a greeting, any number of requests that fail and part of another is
   * left in the REQUEST state for ever: no event changes anything, an end of file or a failing call included.
   */
  lemma RequestsJam(cap: nat, auth: A.AuthSt) returns (evs: seq<Event>)
    requires cap >= 5
    ensures Run(Start(cap, auth), evs)
    ensures var p := After(Start(cap, auth), evs);
            && p.state == REQUEST && p.req.stage == Q.VER_CMD_ATYP && p.lookups == 0
            && |p.cb.bytes| == 2 && p.cb.Room() == 0 && Jammed(p)
            && (forall ev :: Possible(p, ev) ==> Step(p, ev) == p)
  {
    var k, n := (cap - 5) / 10, 1 + (cap - 5) % 10;
    evs := Greeted(cap, auth, Others(n), Attempts(k));
    evs := SomeFail(Start(cap, auth), evs, cap, k, k);
    HeaderJams(After(Start(cap, auth), evs), cap, PART);
    StuckExactlyWhenJammed(cap, auth, evs);
  }

  // ----- the results -----

  /** Every capacity that is not enough jams a first attempt. */
  lemma FirstAttemptJams(cap: nat, auth: A.AuthSt) returns (evs: seq<Event>)
    requires 0 < cap < ENOUGH
    ensures Run(Start(cap, auth), evs) && Live(After(Start(cap, auth), evs)) && Jammed(After(Start(cap, auth), evs))
  {
    if cap < 5 {
      evs := GreetingJams(cap, auth);
    } else if cap < 260 {
      evs := Greeted(cap, auth, Others(cap - 4), PART);
      HeaderJams(After(Start(cap, auth), evs), cap, PART);
    } else {
      evs := FirstRequestJams(cap, auth);
    }
  }

  /**
   * The exact capacity for one attempt: up to its first attempt no connection is ever stuck exactly if the
   * buffer holds 791 bytes, the longest greeting, credentials and part of a request by address, and one more.
   */
  lemma FirstAttemptCapacity(cap: nat)
    requires cap > 0
    ensures FirstAttemptsMove(cap) <==> cap >= 791
  {
    if cap >= ENOUGH {
      EnoughIsEnough(cap);
    } else {
      var auth := Capacity.BLANK;
      var evs := FirstAttemptJams(cap, auth);
      StuckExactlyWhenJammed(cap, auth, evs);
    }
  }

  /** No capacity is enough for any number of attempts. */
  lemma NoCapacitySuffices(cap: nat, auth: A.AuthSt) returns (evs: seq<Event>)
    requires cap > 0
    ensures Run(Start(cap, auth), evs)
    ensures !Ended(After(Start(cap, auth), evs).state) && !Waiting(After(Start(cap, auth), evs))
  {
    if cap < 5 {
      evs := FirstAttemptJams(cap, auth);
    } else {
      evs := RequestsJam(cap, auth);
    }
    StuckExactlyWhenJammed(cap, auth, evs);
  }
}
