/**
 * Who gets through: over every run, a connection has passed the negotiation after authenticating with
 * credentials that the user table held at that time exactly if its greeting offered the password method;
 * and it relays only after a success reply was sent whole.
 */
module Access {
  import opened Bytes
  import opened Buffers
  import opened Protocol
  import opened Users
  import opened Proxies
  import G = Greetings
  import A = Auths
  import L = Replies
  import Q = Requests
  import R = Relays

  /** Past the negotiation, and not ended. */
  predicate Past(s: State) {
    s == REQUEST || s == CONNECT || s == REPLY || s == COPY
  }

  // ----- what happened -----

  /** The event authenticates the connection. */
  ghost predicate Authenticates(p: Proxy, ev: Event)
    requires Possible(p, ev)
  {
    p.state == AUTH && !p.auth.authenticated && Step(p, ev).auth.authenticated
  }

  /** The user table by which the connection was last authenticated, if it was. */
  ghost function GrantedBy(p: Proxy, evs: seq<Event>): Option<seq<User>>
    requires Run(p, evs)
  {
    if evs == [] then None
    else if Authenticates(After(p, R.Init(evs)), R.Last(evs)) then Some(R.Last(evs).env.users)
    else GrantedBy(p, R.Init(evs))
  }

  /** The methods that a greeting offers. */
  function Offered(input: seq<byte>): seq<byte>
    requires G.Parse(input).Chosen?
  {
    input[2..2 + input[1]]
  }

  /** The client sent credentials behind its greeting, and the table accepts them. */
  ghost predicate Backed(input: seq<byte>, granted: Option<seq<User>>) {
    && granted.Some? && G.Parse(input).Chosen?
    && var c := A.Parse(G.Parse(input).rest);
       c.Credentials? && A.Verified(granted.value, ToCString(c.username), ToCString(c.password))
  }

  // ----- the invariant -----

  ghost predicate Cleared(input: seq<byte>, granted: Option<seq<User>>) {
    && G.Parse(input).Chosen?
    && if G.Parse(input).chosen == G.AUTH_METHOD then Backed(input, granted) else granted == None
  }

  ghost predicate InGreeting(p: Proxy) {
    && p.cb.Ok()
    && if p.armed.r then G.Tracks(p.greet, p.cb, p.input, 0)
       else G.Parse(p.input) == G.Chosen(p.greet.chosen, p.cb.bytes)
  }

  ghost predicate InAuth(p: Proxy, granted: Option<seq<User>>) {
    && p.cb.Ok() && G.Parse(p.input).Chosen? && G.Parse(p.input).chosen == G.AUTH_METHOD
    && if p.armed.r then granted == None && A.Tracks(p.auth, p.cb, G.Parse(p.input).rest, p.cb.cap)
       else p.auth.authenticated ==> Backed(p.input, granted)
  }

  ghost predicate Inv(p: Proxy, granted: Option<seq<User>>) {
    OneArmed(p) &&
    match p.state
    case GREETING => granted == None && InGreeting(p)
    case AUTH => InAuth(p, granted)
    case REQUEST => Cleared(p.input, granted)
    case CONNECT => Cleared(p.input, granted)
    case REPLY => Cleared(p.input, granted)
    case COPY => Cleared(p.input, granted) && p.rep == L.SUCCEDED && p.found && p.ob.bytes == []
    case DONE => true
    case ERROR => true
  }

  /** Whatever the client sends later, its greeting and its credentials stay what they were. */
  lemma ClearedStays(input: seq<byte>, d: seq<byte>, granted: Option<seq<User>>)
    requires Cleared(input, granted)
    ensures Cleared(input + d, granted)
  {
    G.ParseIsStable(input, d);
    A.ParseIsStable(G.Parse(input).rest, d);
  }

  lemma GreetingReadKeeps(p: Proxy, r: Recv)
    requires p.state == GREETING && p.armed == OP_READ && Inv(p, None) && Fits(p.cb, r)
    ensures Inv(OnGreetingRead(p, r), None)
  {
    if r.Received? {
      G.ReadAgrees(p.greet, p.cb, p.ob, r.data, p.input, 0);
    }
  }

  lemma GreetingWriteKeeps(p: Proxy, n: int)
    requires p.state == GREETING && p.armed == OP_WRITE && Inv(p, None) && n <= |p.ob.bytes|
    ensures Inv(OnGreetingWrite(p, n), None)
  {
    GreetingLeadsOn(p, n);
    GreetingAnswerKeeps(OnGreetingWrite(p, n), p);
  }

  /** The answer goes out in parts, ends the connection, or leads to the state the chosen method asks for. */
  ghost predicate AfterAnswer(p': Proxy, p: Proxy) {
    || p'.state == ERROR
    || p' == p.(ob := p'.ob)
    || (p'.input == p.input && p'.cb == p.cb && p'.armed == OP_READ &&
        if p.greet.chosen == G.AUTH_METHOD then p'.state == AUTH && p'.auth == A.Arrived(p.auth) else p'.state == REQUEST)
  }

  lemma GreetingLeadsOn(p: Proxy, n: int)
    requires p.state == GREETING && n <= |p.ob.bytes|
    ensures AfterAnswer(OnGreetingWrite(p, n), p)
  {
  }

  lemma GreetingAnswerKeeps(p': Proxy, p: Proxy)
    requires p.state == GREETING && p.armed == OP_WRITE && Inv(p, None) && AfterAnswer(p', p)
    ensures Inv(p', None)
  {
  }

  lemma AuthReadKeeps(p: Proxy, r: Recv, users: seq<User>)
    requires p.state == AUTH && p.armed == OP_READ && Inv(p, None) && Fits(p.cb, r)
    ensures var p' := OnAuthRead(p, r, users);
            Inv(p', if p'.auth.authenticated then Some(users) else None)
  {
    if r.Received? {
      var s := G.Parse(p.input).rest;
      G.ParseIsStable(p.input, r.data);
      A.ReadAgrees(p.auth, p.cb, p.ob, users, r.data, s, p.cb.cap);
      AuthHandledKeeps(p, A.AuthRead(p.auth, p.cb, p.ob, r, users), r.data, users);
    }
  }

  /** Whatever agrees with the single pass authenticates exactly if the table accepts what the client sent. */
  lemma AuthHandledKeeps(p: Proxy, h: Handled<A.AuthSt>, d: seq<byte>, users: seq<User>)
    requires p.state == AUTH && p.armed == OP_READ && InAuth(p, None)
    requires A.Stays(h, p.ob) && A.Earned(p.auth, h, users) && Keeps(p.cb, h.client)
    requires G.Parse(p.input + d) == G.Chosen(G.AUTH_METHOD, G.Parse(p.input).rest + d)
    requires h.next != DONE ==> A.Agrees(h, p.ob, users, G.Parse(p.input).rest + d, p.cb.cap)
    ensures Inv(AuthHandled(p, h, d), if h.st.authenticated then Some(users) else None)
  {
  }

  lemma AuthWriteKeeps(p: Proxy, n: int, granted: Option<seq<User>>)
    requires p.state == AUTH && p.armed == OP_WRITE && Inv(p, granted) && n <= |p.ob.bytes|
    ensures Inv(OnAuthWrite(p, n), granted)
  {
    AuthWritten(p, n);
    StaysCleared(OnAuthWrite(p, n), p, granted);
  }

  /** The answer goes out in parts, ends the connection, or lets an authenticated client through. */
  lemma AuthWritten(p: Proxy, n: int)
    requires p.state == AUTH && p.armed == OP_WRITE && n <= |p.ob.bytes|
    ensures Follows(OnAuthWrite(p, n), p)
  {
  }

  /** `p'` comes after a write of AUTH's answer. */
  ghost predicate Follows(p': Proxy, p: Proxy) {
    p'.state == ERROR || p' == p.(ob := p'.ob)
    || (p'.state == REQUEST && p.auth.authenticated && p'.input == p.input)
  }

  lemma StaysCleared(p': Proxy, p: Proxy, granted: Option<seq<User>>)
    requires p.state == AUTH && p.armed == OP_WRITE && InAuth(p, granted) && Follows(p', p) && OneArmed(p')
    ensures Inv(p', granted)
  {
  }

  /** A state behind the negotiation, short of the relay, only has to be cleared. */
  lemma ClearedIsInv(p: Proxy, input: seq<byte>, granted: Option<seq<User>>)
    requires Past(p.state) && p.state != COPY && p.input == input && Cleared(input, granted)
    ensures Inv(p, granted)
  {
  }

  lemma RequestHandledKeeps(p: Proxy, r: Q.Read, d: seq<byte>, env: Env, granted: Option<seq<User>>)
    requires p.state == REQUEST && Cleared(p.input, granted)
    ensures Inv(RequestHandled(p, r, d, env), granted)
  {
    ClearedStays(p.input, d, granted);
    RequestLeadsOn(p, r, d, env);
    if RequestHandled(p, r, d, env).state != DONE {
      ClearedIsInv(RequestHandled(p, r, d, env), p.input + d, granted);
    }
  }

  lemma RequestLeadsOn(p: Proxy, r: Q.Read, d: seq<byte>, env: Env)
    requires p.state == REQUEST
    ensures var p' := RequestHandled(p, r, d, env); p'.state == DONE || (Past(p'.state) && p'.state != COPY)
  {
    if r.result == Q.Connects {
      DialLeadsOn(p.(req := r.q, cb := r.client, input := p.input + d), env);
    }
  }

  lemma RequestReadKeeps(p: Proxy, first: Recv, second: Recv, env: Env, granted: Option<seq<User>>)
    requires p.state == REQUEST && Cleared(p.input, granted)
    ensures Inv(OnRequestRead(p, first, second, env), granted)
  {
    var f, d := Q.Front(p.req, p.cb, first), FirstData(p.req, first);
    match f
    case Stop(r) => RequestHandledKeeps(p, r, d, env, granted);
    case Pass(q, c) => RequestHandledKeeps(p, Q.Resolve(q, c.Receive(second), env.junk), d + Data(second), env, granted);
  }

  lemma DialLeadsOn(p: Proxy, env: Env)
    ensures Dialed(p, env).input == p.input && Past(Dialed(p, env).state) && Dialed(p, env).state != COPY
    ensures OnConnect(p, env).input == p.input && Past(OnConnect(p, env).state) && OnConnect(p, env).state != COPY
  {
  }

  lemma DialKeeps(p: Proxy, env: Env, granted: Option<seq<User>>)
    requires Cleared(p.input, granted)
    ensures Inv(Dialed(p, env), granted) && Inv(OnConnect(p, env), granted)
  {
    DialLeadsOn(p, env);
    ClearedIsInv(Dialed(p, env), p.input, granted);
    ClearedIsInv(OnConnect(p, env), p.input, granted);
  }

  lemma ReplyWriteKeeps(p: Proxy, n: int, granted: Option<seq<User>>)
    requires p.state == REPLY && Inv(p, granted) && n <= |p.ob.bytes|
    ensures Inv(OnReplyWrite(p, n), granted)
  {
    ReplyLeadsOn(p, n);
    ReplyKeeps(OnReplyWrite(p, n), p, granted);
  }

  /** A reply goes out in parts, ends the connection, or leads to the relay or to another request. */
  ghost predicate AfterReply(p': Proxy, p: Proxy) {
    || p'.state == ERROR
    || ((p'.state == REPLY || p'.state == REQUEST) && p'.input == p.input)
    || (p'.state == COPY && p'.input == p.input && p'.rep == L.SUCCEDED && p'.found && p'.ob.bytes == [])
  }

  lemma ReplyLeadsOn(p: Proxy, n: int)
    requires p.state == REPLY && n <= |p.ob.bytes|
    ensures AfterReply(OnReplyWrite(p, n), p)
  {
  }

  lemma ReplyKeeps(p': Proxy, p: Proxy, granted: Option<seq<User>>)
    requires Cleared(p.input, granted) && AfterReply(p', p)
    ensures Inv(p', granted)
  {
    if p'.state == REPLY || p'.state == REQUEST {
      ClearedIsInv(p', p.input, granted);
    }
  }

  lemma CopyKeeps(p: Proxy, ev: R.Event, granted: Option<seq<User>>)
    requires p.state == COPY && Inv(p, granted) && R.Possible(p.relay, ev)
    ensures Inv(OnCopy(p, ev), granted)
  {
    ClearedStays(p.input, R.Brought(R.Client, ev), granted);
  }

  lemma GreetingStepKeeps(p: Proxy, ev: Event, granted: Option<seq<User>>)
    requires Inv(p, granted) && Possible(p, ev) && p.state == GREETING
    ensures Inv(Step(p, ev), granted)
  {
    if ev.Readable? {
      GreetingReadKeeps(p, ev.first);
    } else {
      GreetingWriteKeeps(p, ev.n);
    }
  }

  lemma AuthStepKeeps(p: Proxy, ev: Event, granted: Option<seq<User>>)
    requires Inv(p, granted) && Possible(p, ev) && p.state == AUTH
    ensures Inv(Step(p, ev), if Authenticates(p, ev) then Some(ev.env.users) else granted)
  {
    if ev.Readable? {
      AuthReadKeeps(p, ev.first, ev.env.users);
    } else {
      AuthWriteKeeps(p, ev.n, granted);
      assert OnAuthWrite(p, ev.n).auth == p.auth;
    }
  }

  lemma RequestStepIs(p: Proxy, ev: Event)
    requires Possible(p, ev) && p.state == REQUEST
    ensures Step(p, ev) == if ev.NameResolved? then Dialed(p.(lookups := p.lookups - 1), ev.env)
                           else OnRequestRead(p, ev.first, ev.second, ev.env)
  {
  }

  lemma LaterStepKeeps(p: Proxy, ev: Event, granted: Option<seq<User>>)
    requires Inv(p, granted) && Possible(p, ev) && Past(p.state)
    ensures Inv(Step(p, ev), granted)
  {
    match p.state
    case REQUEST =>
      RequestStepIs(p, ev);
      if ev.NameResolved? { DialKeeps(p.(lookups := p.lookups - 1), ev.env, granted); }
      else { RequestReadKeeps(p, ev.first, ev.second, ev.env, granted); }
    case CONNECT => DialKeeps(p, ev.env, granted);
    case REPLY => ReplyWriteKeeps(p, ev.n, granted);
    case COPY => CopyKeeps(p, RelayEvent(ev), granted);
  }

  lemma {:induction false} RunKeeps(cap: nat, auth: A.AuthSt, evs: seq<Event>)
    requires Run(Start(cap, auth), evs)
    ensures Inv(After(Start(cap, auth), evs), GrantedBy(Start(cap, auth), evs))
  {
    if evs != [] {
      var p, ev, granted := After(Start(cap, auth), R.Init(evs)), R.Last(evs), GrantedBy(Start(cap, auth), R.Init(evs));
      RunKeeps(cap, auth, R.Init(evs));
      if p.state == GREETING {
        GreetingStepKeeps(p, ev, granted);
      } else if p.state == AUTH {
        AuthStepKeeps(p, ev, granted);
      } else {
        LaterStepKeeps(p, ev, granted);
      }
    }
  }

  // ----- the result -----

  /** The map that a table stands for holds the name with the password. */
  ghost predicate Holds(users: seq<User>, name: CString, password: CString) {
    forall m: Table | Stands(users, m) :: name in m && m[name].password == password
  }

  lemma VerifiedIsHeld(users: seq<User>, name: CString, password: CString)
    requires A.Verified(users, name, password)
    ensures Holds(users, name, password)
  {
    forall m: Table | Stands(users, m) ensures name in m && m[name].password == password {
      FindMeansIn(users, m, name);
    }
  }

  /**
   * Over every run, of a connection past the negotiation: it was authenticated exactly if the methods it
   * offered include the password method; and if it was, then with the credentials the client sent behind
   * its greeting, which the user table held at that instant. The relay is entered only when a success
   * reply has left the buffer entirely.
   */
  lemma AuthenticatedIffOffered(cap: nat, auth: A.AuthSt, evs: seq<Event>)
    requires Run(Start(cap, auth), evs)
    ensures var p, granted := After(Start(cap, auth), evs), GrantedBy(Start(cap, auth), evs);
            Past(p.state) ==>
              && G.Parse(p.input).Chosen?
              && (granted.Some? <==> G.AUTH_METHOD in Offered(p.input))
              && (granted.Some? ==>
                    var c := A.Parse(G.Parse(p.input).rest);
                    c.Credentials? && Holds(granted.value, ToCString(c.username), ToCString(c.password)))
              && (p.state == COPY ==> p.rep == L.SUCCEDED && p.found && p.ob.bytes == [])
  {
    RunKeeps(cap, auth, evs);
    if Past(After(Start(cap, auth), evs).state) {
      PastMeans(After(Start(cap, auth), evs), GrantedBy(Start(cap, auth), evs));
    }
  }

  /** What the invariant says of a connection past the negotiation. */
  lemma PastMeans(p: Proxy, granted: Option<seq<User>>)
    requires Inv(p, granted) && Past(p.state)
    ensures G.Parse(p.input).Chosen?
    ensures granted.Some? <==> G.AUTH_METHOD in Offered(p.input)
    ensures granted.Some? ==>
              var c := A.Parse(G.Parse(p.input).rest);
              c.Credentials? && Holds(granted.value, ToCString(c.username), ToCString(c.password))
    ensures p.state == COPY ==> p.rep == L.SUCCEDED && p.found && p.ob.bytes == []
  {
    if granted.Some? {
      var c := A.Parse(G.Parse(p.input).rest);
      VerifiedIsHeld(granted.value, ToCString(c.username), ToCString(c.password));
    }
  }
}
