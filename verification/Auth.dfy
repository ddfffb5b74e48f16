/** The AUTH state: username/password authentication, resumable at any byte (RFC 1929 section 2). */
module Auths {
  import opened Bytes
  import opened Buffers
  import opened Protocol
  import opened Users

  const AUTH_VERSION: byte := 0x01
  const AUTH_SUCCESS: byte := 0x00
  const AUTH_FAILURE: byte := 0x01

  datatype Stage = AUTH_VER | AUTH_ULEN | AUTH_UNAME | AUTH_PLEN | AUTH_PASSWD

  const FIELD_SIZE := 256

  /** A fixed-size text field. */
  type Field = s: seq<byte> | |s| == FIELD_SIZE witness seq(FIELD_SIZE, _ => 0)

  datatype AuthSt =
    AuthSt(stage: Stage, ulen: byte, plen: byte, username: Field, password: Field, authenticated: bool)

  /** The state on arrival; the text fields keep whatever they held. */
  function Arrived(a: AuthSt): AuthSt {
    a.(stage := AUTH_VER, ulen := 0, plen := 0, authenticated := false)
  }

  // ----- what the handlers do -----

  /** The field after `s` and a terminating NUL were stored at its front. */
  function Store(f: Field, s: seq<byte>): Field
    requires |s| < FIELD_SIZE
  {
    s + [0] + f[|s| + 1..]
  }

  /** A read stays in this state or ends the connection, arms nothing but the answer, and keeps its buffer in order. */
  ghost predicate Stays(h: Handled<AuthSt>, ob: Buf) {
    && (h.next == AUTH || h.next == ERROR || h.next == DONE)
    && (h.arm == None || h.arm == Some(OP_WRITE))
    && Keeps(ob, h.origin)
  }

  /** Authentication is gained only by concluding with stored credentials that the table accepts. */
  ghost predicate Earned(a: AuthSt, h: Handled<AuthSt>, users: seq<User>) {
    !a.authenticated ==>
      && (h.st.authenticated ==> h.arm == Some(OP_WRITE))
      && (h.st.authenticated ==> Verified(users, ToCString(h.st.username), ToCString(h.st.password)))
  }

  function Wait(a: AuthSt, b: Buf, ob: Buf): (h: Handled<AuthSt>)
    ensures Keeps(b, h.client) && Stays(h, ob)
  {
    Handled(a, b, ob, AUTH, None)
  }

  function Fail(a: AuthSt, b: Buf, ob: Buf): (h: Handled<AuthSt>)
    ensures Keeps(b, h.client) && Stays(h, ob)
  {
    Handled(a, b, ob, ERROR, None)
  }

  /** Both fields are there: the table is asked and the answer queued. */
  function Conclude(a: AuthSt, b: Buf, ob: Buf, users: seq<User>): (h: Handled<AuthSt>)
    ensures Keeps(b, h.client) && Stays(h, ob) && Earned(a, h, users)
  {
    var ok := a.authenticated || Verified(users, ToCString(a.username), ToCString(a.password));
    Handled(a.(authenticated := ok), b, ob.Put(AUTH_VERSION).Put(if ok then AUTH_SUCCESS else AUTH_FAILURE),
            AUTH, Some(OP_WRITE))
  }

  function AtPasswd(a: AuthSt, b: Buf, ob: Buf, users: seq<User>): (h: Handled<AuthSt>)
    ensures Keeps(b, h.client) && Stays(h, ob) && Earned(a, h, users)
  {
    if |b.bytes| < a.plen then Wait(a, b, ob)
    else Conclude(a.(password := Store(a.password, b.bytes[..a.plen])), b.Drop(a.plen), ob, users)
  }

  function AtPlen(a: AuthSt, b: Buf, ob: Buf, users: seq<User>): (h: Handled<AuthSt>)
    ensures Keeps(b, h.client) && Stays(h, ob) && Earned(a, h, users)
  {
    if b.bytes == [] then Wait(a, b, ob)
    else
      var a' := a.(plen := b.Peek());
      if a'.plen == 0 then Fail(a', b.Next(), ob) else AtPasswd(a'.(stage := AUTH_PASSWD), b.Next(), ob, users)
  }

  function AtUname(a: AuthSt, b: Buf, ob: Buf, users: seq<User>): (h: Handled<AuthSt>)
    ensures Keeps(b, h.client) && Stays(h, ob) && Earned(a, h, users)
  {
    if |b.bytes| < a.ulen then Wait(a, b, ob)
    else AtPlen(a.(username := Store(a.username, b.bytes[..a.ulen]), stage := AUTH_PLEN), b.Drop(a.ulen), ob, users)
  }

  function AtUlen(a: AuthSt, b: Buf, ob: Buf, users: seq<User>): (h: Handled<AuthSt>)
    ensures Keeps(b, h.client) && Stays(h, ob) && Earned(a, h, users)
  {
    if b.bytes == [] then Wait(a, b, ob)
    else
      var a' := a.(ulen := b.Peek());
      if a'.ulen == 0 then Fail(a', b.Next(), ob) else AtUname(a'.(stage := AUTH_UNAME), b.Next(), ob, users)
  }

  function AtVer(a: AuthSt, b: Buf, ob: Buf, users: seq<User>): (h: Handled<AuthSt>)
    ensures Keeps(b, h.client) && Stays(h, ob) && Earned(a, h, users)
  {
    if b.bytes == [] then Wait(a, b, ob)
    else if b.Peek() != AUTH_VERSION then Fail(a, b.Next(), ob)
    else AtUlen(a.(stage := AUTH_ULEN), b.Next(), ob, users)
  }

  /** The table accepts the pair. */
  function Verified(users: seq<User>, username: CString, password: CString): bool {
    ListStatus(users, username, password) == USER_OK
  }

  /** The stages, from the current one on. */
  function Process(a: AuthSt, b: Buf, ob: Buf, users: seq<User>): (h: Handled<AuthSt>)
    ensures Keeps(b, h.client) && Stays(h, ob) && Earned(a, h, users)
  {
    match a.stage
    case AUTH_VER => AtVer(a, b, ob, users)
    case AUTH_ULEN => AtUlen(a, b, ob, users)
    case AUTH_UNAME => AtUname(a, b, ob, users)
    case AUTH_PLEN => AtPlen(a, b, ob, users)
    case AUTH_PASSWD => AtPasswd(a, b, ob, users)
  }

  function AuthRead(a: AuthSt, cb: Buf, ob: Buf, recv: Recv, users: seq<User>): (h: Handled<AuthSt>)
    ensures Keeps(cb.Receive(recv), h.client) && Stays(h, ob) && Earned(a, h, users)
  {
    if recv.RecvError? then Fail(a, cb, ob)
    else
      var b := cb.Receive(recv);
      if b.bytes == [] then Handled(a, b, ob, DONE, None) else Process(a, b, ob, users)
  }

  function AuthWrite(a: AuthSt, ob: Buf, n: int): Written
    requires n <= |ob.bytes|
  {
    if n < 0 then Written(ob, ERROR, None)
    else
      var b := ob.Drop(n);
      if b.bytes != [] then Written(b, AUTH, None)
      else if !a.authenticated then Written(b, ERROR, None)
      else Written(b, REQUEST, Some(OP_READ))
  }

  // ----- the message, parsed in a single pass -----

  datatype Parsed = Waiting | Malformed | Credentials(username: seq<byte>, password: seq<byte>, rest: seq<byte>)

  /** The credentials at the front of a stream. */
  function Parse(s: seq<byte>): Parsed {
    if |s| < 1 then Waiting
    else if s[0] != AUTH_VERSION then Malformed
    else if |s| < 2 then Waiting
    else
      var u: nat := s[1];
      if u == 0 then Malformed
      else if |s| < 3 + u then Waiting
      else
        var p: nat := s[2 + u];
        if p == 0 then Malformed
        else if |s| < 3 + u + p then Waiting
        else Credentials(s[2..2 + u], s[3 + u..3 + u + p], s[3 + u + p..])
  }

  // ----- one read against the single pass -----

  /** The parser is where the stream `s`, which began at offset `base` of its buffer, has brought it. */
  ghost predicate Tracks(a: AuthSt, b: Buf, s: seq<byte>, base: nat) {
    && b.Ok() && !a.authenticated
    && b.off + |b.bytes| <= base + |s|
    && match a.stage
       case AUTH_VER => b.bytes == s
       case AUTH_ULEN => HasVer(s) && b.bytes == s[1..]
       case AUTH_UNAME => HasUlen(s, a.ulen) && b.bytes == s[2..]
       case AUTH_PLEN => HasUname(s, a) && b.bytes == s[2 + a.ulen as nat..]
       case AUTH_PASSWD => HasPlen(s, a) && b.bytes == s[3 + a.ulen as nat..]
  }

  ghost predicate HasVer(s: seq<byte>) {
    |s| >= 1 && s[0] == AUTH_VERSION
  }

  ghost predicate HasUlen(s: seq<byte>, u: nat) {
    HasVer(s) && |s| >= 2 && s[1] == u != 0
  }

  ghost predicate HasUname(s: seq<byte>, a: AuthSt) {
    var u: nat := a.ulen;
    HasUlen(s, u) && |s| >= 2 + u && ToCString(a.username) == ToCString(s[2..2 + u])
  }

  ghost predicate HasPlen(s: seq<byte>, a: AuthSt) {
    var u: nat := a.ulen;
    HasUname(s, a) && |s| >= 3 + u && s[2 + u] == a.plen != 0
  }

  /** What a read must have done, given that the stream is now `s`. */
  ghost predicate Agrees(h: Handled<AuthSt>, ob: Buf, users: seq<User>, s: seq<byte>, base: nat) {
    match Parse(s)
    case Waiting => h.next == AUTH && h.arm == None && h.origin == ob && Tracks(h.st, h.client, s, base)
    case Malformed => h.next == ERROR
    case Credentials(u, p, rest) =>
      && h.next == AUTH && h.arm == Some(OP_WRITE)
      && h.st.authenticated == Verified(users, ToCString(u), ToCString(p))
      && ToCString(h.st.username) == ToCString(u) && ToCString(h.st.password) == ToCString(p)
      && h.client.bytes == rest && h.client.off <= base + |s| - |rest|
      && h.origin == ob.Put(AUTH_VERSION).Put(if h.st.authenticated then AUTH_SUCCESS else AUTH_FAILURE)
  }

  /** What was stored is what the field says as a C string: an embedded NUL cuts both alike. */
  lemma {:induction false} StoredText(f: Field, s: seq<byte>)
    requires |s| < FIELD_SIZE
    ensures ToCString(Store(f, s)) == ToCString(s)
  {
    TerminatedText(s, f[|s| + 1..]);
    assert Store(f, s) == s + [0] + f[|s| + 1..];
  }

  lemma {:induction false} TerminatedText(s: seq<byte>, more: seq<byte>)
    ensures ToCString(s + [0] + more) == ToCString(s)
  {
    if s != [] {
      assert (s + [0] + more)[1..] == s[1..] + [0] + more;
      TerminatedText(s[1..], more);
    }
  }

  lemma PasswdAgrees(a: AuthSt, b: Buf, ob: Buf, users: seq<User>, s: seq<byte>, base: nat)
    requires a.stage == AUTH_PASSWD && Tracks(a, b, s, base)
    ensures var h := AtPasswd(a, b, ob, users); EndsWith(h.client, b) && Agrees(h, ob, users, s, base)
  {
    var u: nat, p: nat := a.ulen, a.plen;
    if |b.bytes| >= p {
      var username, password := s[2..2 + u], s[3 + u..3 + u + p];
      assert b.bytes[..p] == password;
      assert b.bytes[p..] == s[3 + u + p..];
      StoredText(a.password, password);
      WholeParses(s, u, p);
    } else {
      PartWaits(s, u, p);
    }
  }

  lemma WholeParses(s: seq<byte>, u: nat, p: nat)
    requires HasUlen(s, u) && p != 0 && |s| >= 3 + u + p && s[2 + u] == p
    ensures Parse(s) == Credentials(s[2..2 + u], s[3 + u..3 + u + p], s[3 + u + p..])
  {
  }

  lemma PartWaits(s: seq<byte>, u: nat, p: nat)
    requires HasUlen(s, u) && p != 0 && 3 + u <= |s| < 3 + u + p && s[2 + u] == p
    ensures Parse(s) == Waiting
  {
  }

  lemma PlenAgrees(a: AuthSt, b: Buf, ob: Buf, users: seq<User>, s: seq<byte>, base: nat)
    requires a.stage == AUTH_PLEN && Tracks(a, b, s, base)
    ensures var h := AtPlen(a, b, ob, users); EndsWith(h.client, b) && Agrees(h, ob, users, s, base)
  {
    var u: nat := a.ulen;
    if b.bytes != [] {
      assert b.bytes[0] == s[2 + u] && b.bytes[1..] == s[3 + u..];
      if b.bytes[0] != 0 {
        PasswdAgrees(a.(plen := b.Peek(), stage := AUTH_PASSWD), b.Next(), ob, users, s, base);
      }
    }
  }

  lemma UnameAgrees(a: AuthSt, b: Buf, ob: Buf, users: seq<User>, s: seq<byte>, base: nat)
    requires a.stage == AUTH_UNAME && Tracks(a, b, s, base)
    ensures var h := AtUname(a, b, ob, users); EndsWith(h.client, b) && Agrees(h, ob, users, s, base)
  {
    var u: nat := a.ulen;
    if |b.bytes| >= u {
      assert b.bytes[..u] == s[2..2 + u] && b.bytes[u..] == s[2 + u..];
      StoredText(a.username, b.bytes[..u]);
      PlenAgrees(a.(username := Store(a.username, b.bytes[..u]), stage := AUTH_PLEN), b.Drop(u), ob, users, s, base);
    }
  }

  lemma UlenAgrees(a: AuthSt, b: Buf, ob: Buf, users: seq<User>, s: seq<byte>, base: nat)
    requires a.stage == AUTH_ULEN && Tracks(a, b, s, base)
    ensures var h := AtUlen(a, b, ob, users); EndsWith(h.client, b) && Agrees(h, ob, users, s, base)
  {
    if b.bytes != [] {
      assert b.bytes[0] == s[1] && b.bytes[1..] == s[2..];
      if b.bytes[0] != 0 {
        UnameAgrees(a.(ulen := b.Peek(), stage := AUTH_UNAME), b.Next(), ob, users, s, base);
      }
    }
  }

  lemma ProcessAgrees(a: AuthSt, b: Buf, ob: Buf, users: seq<User>, s: seq<byte>, base: nat)
    requires Tracks(a, b, s, base)
    ensures var h := Process(a, b, ob, users); EndsWith(h.client, b) && Agrees(h, ob, users, s, base)
  {
    match a.stage
    case AUTH_VER =>
      if b.bytes != [] && b.Peek() == AUTH_VERSION {
        UlenAgrees(a.(stage := AUTH_ULEN), b.Next(), ob, users, s, base);
      }
    case AUTH_ULEN => UlenAgrees(a, b, ob, users, s, base);
    case AUTH_UNAME => UnameAgrees(a, b, ob, users, s, base);
    case AUTH_PLEN => PlenAgrees(a, b, ob, users, s, base);
    case AUTH_PASSWD => PasswdAgrees(a, b, ob, users, s, base);
  }

  /** More input keeps the parser where it was. */
  lemma TracksMore(a: AuthSt, b: Buf, s: seq<byte>, base: nat, d: seq<byte>)
    requires Tracks(a, b, s, base) && |d| <= b.Room()
    ensures Tracks(a, b.Fill(d), s + d, base)
  {
    var u: nat := a.ulen;
    match a.stage
    case AUTH_VER =>
    case AUTH_ULEN => Longer(s, d, 1);
    case AUTH_UNAME => Longer(s, d, 2);
    case AUTH_PLEN => Longer(s, d, 2 + u);
    case AUTH_PASSWD => Longer(s, d, 3 + u);
  }

  lemma Longer(s: seq<byte>, d: seq<byte>, at: nat)
    requires at <= |s|
    ensures (s + d)[at..] == s[at..] + d
    ensures forall i, j :: 0 <= i <= j <= |s| ==> (s + d)[i..j] == s[i..j]
  {
  }

  /** One read, whatever was received before and however it was cut, agrees with the single pass. */
  lemma ReadAgrees(a: AuthSt, cb: Buf, ob: Buf, users: seq<User>, d: seq<byte>, s: seq<byte>, base: nat)
    requires Tracks(a, cb, s, base) && |d| <= cb.Room()
    ensures var h := AuthRead(a, cb, ob, Received(d), users);
            && EndsWith(h.client, cb.Fill(d))
            && if cb.bytes + d == [] then h == Handled(a, cb.Fill(d), ob, DONE, None)
               else Agrees(h, ob, users, s + d, base)
  {
    TracksMore(a, cb, s, base, d);
    ProcessAgrees(a, cb.Fill(d), ob, users, s + d, base);
  }

  // ----- chunk independence -----

  /** How an exchange of reads ended: as the last read left it, and with what was left unread. */
  datatype Exchange = Exchange(next: State, arm: Option<Interest>, auth: AuthSt, rest: seq<byte>)

  /** Reads one chunk after another for as long as the parser waits. */
  function Outcome(a: AuthSt, cb: Buf, ob: Buf, chunks: seq<seq<byte>>, users: seq<User>): Exchange
    decreases chunks
  {
    if chunks == [] then Exchange(AUTH, None, a, cb.bytes)
    else
      var h := AuthRead(a, cb, ob, Received(chunks[0]), users);
      if h.next == AUTH && h.arm == None then Outcome(h.st, h.client, h.origin, chunks[1..], users)
      else Exchange(h.next, h.arm, h.st, h.client.bytes + Concat(chunks[1..]))
  }

  /** Every chunk is non-empty and fits in the room there is when it is read. */
  ghost predicate Deliverable(a: AuthSt, cb: Buf, ob: Buf, chunks: seq<seq<byte>>, users: seq<User>)
    decreases chunks
  {
    chunks != [] ==>
      && 0 < |chunks[0]| <= cb.Room()
      && var h := AuthRead(a, cb, ob, Received(chunks[0]), users);
         (h.next == AUTH && h.arm == None ==> Deliverable(h.st, h.client, h.origin, chunks[1..], users))
  }

  lemma ParseIsStable(s: seq<byte>, more: seq<byte>)
    ensures Parse(s) == Malformed ==> Parse(s + more) == Malformed
    ensures Parse(s).Credentials? ==>
              var p := Parse(s); Parse(s + more) == Credentials(p.username, p.password, p.rest + more)
  {
    if Parse(s).Credentials? {
      var t := s + more;
      var u: nat := s[1];
      var p: nat := s[2 + u];
      assert t[2..2 + u] == s[2..2 + u];
      assert t[3 + u..3 + u + p] == s[3 + u..3 + u + p];
      assert t[3 + u + p..] == s[3 + u + p..] + more;
    }
  }

  /** How the single pass and a whole exchange of reads must agree on a stream. */
  ghost predicate SameOutcome(o: Exchange, s: seq<byte>, users: seq<User>) {
    match Parse(s)
    case Waiting => o.next == AUTH && o.arm == None
    case Malformed => o.next == ERROR
    case Credentials(u, p, rest) =>
      && o.next == AUTH && o.arm == Some(OP_WRITE) && o.rest == rest
      && ToCString(o.auth.username) == ToCString(u) && ToCString(o.auth.password) == ToCString(p)
      && o.auth.authenticated == Verified(users, ToCString(u), ToCString(p))
  }

  lemma OutcomeGoesOn(h: Handled<AuthSt>, ob: Buf, users: seq<User>, s: seq<byte>, base: nat)
    requires Agrees(h, ob, users, s, base) && h.next == AUTH && h.arm == None
    ensures Parse(s) == Waiting && Tracks(h.st, h.client, s, base)
  {
  }

  /** Once the parser no longer waits, what comes later is left unread. */
  lemma OutcomeStops(h: Handled<AuthSt>, ob: Buf, users: seq<User>, s: seq<byte>, base: nat, more: seq<byte>)
    requires Agrees(h, ob, users, s, base) && !(h.next == AUTH && h.arm == None)
    ensures SameOutcome(Exchange(h.next, h.arm, h.st, h.client.bytes + more), s + more, users)
  {
    ParseIsStable(s, more);
  }

  lemma {:induction false} OutcomeIsParse(
      a: AuthSt, cb: Buf, ob: Buf, chunks: seq<seq<byte>>, users: seq<User>, s: seq<byte>, base: nat)
    requires Tracks(a, cb, s, base) && Deliverable(a, cb, ob, chunks, users)
    requires chunks == [] ==> Parse(s) == Waiting
    ensures SameOutcome(Outcome(a, cb, ob, chunks, users), s + Concat(chunks), users)
    decreases chunks
  {
    if chunks == [] {
      assert s + Concat(chunks) == s;
    } else {
      var h, t := AuthRead(a, cb, ob, Received(chunks[0]), users), s + chunks[0];
      assert t + Concat(chunks[1..]) == s + Concat(chunks);
      assert cb.bytes + chunks[0] != [] by {
        assert (cb.bytes + chunks[0])[|cb.bytes|] == chunks[0][0];
      }
      ReadAgrees(a, cb, ob, users, chunks[0], s, base);
      assert Agrees(h, ob, users, t, base);
      if h.next == AUTH && h.arm == None {
        OutcomeGoesOn(h, ob, users, t, base);
        OutcomeIsParse(h.st, h.client, h.origin, chunks[1..], users, t, base);
      } else {
        OutcomeStops(h, ob, users, t, base, Concat(chunks[1..]));
      }
    }
  }

  /**
   * From arrival, with whatever the client already sent buffered in `cb`, how its bytes are cut into
   * chunks makes no difference: waiting, failing, or completing with the same credentials and the same
   * unread rest as a single pass, authenticated exactly when the user table's map holds that pair.
   */
  lemma ChunkIndependence(a: AuthSt, cb: Buf, ob: Buf, chunks: seq<seq<byte>>, users: seq<User>, m: Table)
    requires cb.Ok() && chunks != [] && Deliverable(Arrived(a), cb, ob, chunks, users)
    requires Stands(users, m)
    ensures var o, s := Outcome(Arrived(a), cb, ob, chunks, users), cb.bytes + Concat(chunks);
            && SameOutcome(o, s, users)
            && (Parse(s).Credentials? ==>
                  var u, p := ToCString(Parse(s).username), ToCString(Parse(s).password);
                  o.auth.authenticated <==> u in m && m[u].password == p)
  {
    OutcomeIsParse(Arrived(a), cb, ob, chunks, users, cb.bytes, cb.off);
    var s := cb.bytes + Concat(chunks);
    if Parse(s).Credentials? {
      FindMeansIn(users, m, ToCString(Parse(s).username));
    }
  }

  // ----- exactly its own message -----

  function Message(username: seq<byte>, password: seq<byte>): seq<byte>
    requires |username| < 256 && |password| < 256
  {
    [AUTH_VERSION, |username|] + username + [|password|] + password
  }

  /** The single pass inverts the encoding, consuming the message and nothing behind it. */
  lemma ConsumesItsMessage(username: seq<byte>, password: seq<byte>, rest: seq<byte>)
    requires 0 < |username| < 256 && 0 < |password| < 256
    ensures Parse(Message(username, password) + rest) == Credentials(username, password, rest)
  {
    var u, p := |username|, |password|;
    var s := Message(username, password) + rest;
    assert s[2..2 + u] == username && s[2 + u] == p;
    assert s[3 + u..3 + u + p] == password && s[3 + u + p..] == rest;
  }

  /** Credentials only partly there keep the parser waiting. */
  lemma PrefixWaits(username: seq<byte>, password: seq<byte>, s: seq<byte>)
    requires 0 < |username| < 256 && 0 < |password| < 256
    requires s <= Message(username, password) && |s| < 3 + |username| + |password|
    ensures Parse(s) == Waiting
  {
    var m := Message(username, password);
    assert m[0] == AUTH_VERSION && m[1] == |username| && m[2 + |username|] == |password|;
    assert forall i :: 0 <= i < |s| ==> s[i] == m[i];
  }

  /** A user name that is there is stored, and the next length read. */
  lemma UnameGoesOn(a: AuthSt, b: Buf, ob: Buf, users: seq<User>)
    requires |b.bytes| >= a.ulen
    ensures AtUname(a, b, ob, users)
         == AtPlen(a.(username := Store(a.username, b.bytes[..a.ulen]), stage := AUTH_PLEN), b.Drop(a.ulen), ob, users)
  {
  }

  // ----- the handlers -----

  class Auth {
    var stage: Stage
    var ulen: byte
    var plen: byte
    const username: array<byte>
    const password: array<byte>
    var authenticated: bool

    constructor ()
      ensures fresh(username) && fresh(password) && username != password
      ensures username.Length == password.Length == FIELD_SIZE
    {
      stage, ulen, plen, authenticated := AUTH_VER, 0, 0, false;
      username := new byte[FIELD_SIZE](_ => 0);
      password := new byte[FIELD_SIZE](_ => 0);
    }

    /** The text fields have their size and share no storage with each other or the buffers. */
    ghost predicate Apart(client: Buffer, origin: Buffer)
      reads this, client, origin
    {
      && username.Length == password.Length == FIELD_SIZE && username != password
      && username != client.data && password != client.data
      && username != origin.data && password != origin.data
      && client != origin && client.data != origin.data
      && client.Valid() && origin.Valid()
    }

    ghost function View(): AuthSt
      requires username.Length == password.Length == FIELD_SIZE
      reads this, username, password
    {
      AuthSt(stage, ulen, plen, username[..], password[..], authenticated)
    }

    method Arrival()
      requires username.Length == password.Length == FIELD_SIZE
      modifies this
      ensures View() == Arrived(old(View()))
    {
      stage := AUTH_VER;
      ulen := 0;
      plen := 0;
      authenticated := false;
    }

    /** `n` buffered bytes copied into a text field and terminated. */
    method CopyField(client: Buffer, field: array<byte>, n: byte)
      requires client.Valid() && field != client.data && field.Length == FIELD_SIZE && n <= |client.View().bytes|
      modifies client, client.data, field
      ensures client.Valid() && client.View() == old(client.View()).Drop(n)
      ensures field[..] == Store(old(field[..]), old(client.View()).bytes[..n])
    {
      ghost var b := client.View();
      ghost var was := field[..];
      var i := 0;
      while i < n
        invariant 0 <= i <= n && client.Valid() && client.View() == b.Drop(i)
        invariant field[..i] == b.bytes[..i] && field[i..] == was[i..]
      {
        ghost var before := field[..];
        var c := client.Read();
        field[i] := c;
        DropTwice(b, i, 1);
        assert field[..i + 1] == before[..i] + [c];
        assert field[i + 1..] == before[i..][1..];
        i := i + 1;
      }
      ghost var text := field[..n];
      field[n] := 0;
      assert field[..n] == text;
      assert field[n + 1..] == was[n + 1..];
      assert field[..] == field[..n] + [0] + field[n + 1..];
    }

    method Read(client: Buffer, origin: Buffer, recv: Recv, users: UserTable) returns (next: State, arm: Option<Interest>)
      requires Apart(client, origin) && Fits(client.View(), recv) && users.Valid()
      modifies this, username, password, client, client.data, origin, origin.data, users.users`iter
      ensures Apart(client, origin) && users.Valid()
      ensures Handled(View(), client.View(), origin.View(), next, arm)
           == AuthRead(old(View()), old(client.View()), old(origin.View()), recv, users.users.contents)
    {
      var readn := client.Deposit(recv);
      if readn < 0 {
        return ERROR, None;
      }
      client.WriteAdv(readn);
      assert origin.View() == old(origin.View()) && client.View() == old(client.View()).Receive(recv);
      var toRead := client.ReadCount();
      if toRead == 0 {
        return DONE, None;
      }
      next, arm := ProcessBuffered(client, origin, users);
    }

    method ProcessBuffered(client: Buffer, origin: Buffer, users: UserTable) returns (next: State, arm: Option<Interest>)
      requires Apart(client, origin) && users.Valid()
      modifies this, username, password, client, client.data, origin, origin.data, users.users`iter
      ensures Apart(client, origin) && users.Valid()
      ensures Handled(View(), client.View(), origin.View(), next, arm)
           == Process(old(View()), old(client.View()), old(origin.View()), users.users.contents)
    {
      if stage == AUTH_VER {
        next, arm := ReadVersion(client, origin, users);
      } else if stage == AUTH_ULEN {
        next, arm := ReadUlen(client, origin, users);
      } else if stage == AUTH_UNAME {
        next, arm := ReadUsername(client, origin, users);
      } else if stage == AUTH_PLEN {
        next, arm := ReadPlen(client, origin, users);
      } else {
        next, arm := ReadPassword(client, origin, users);
      }
    }

    // Each stage falls into the next one when it has what it needs.

    method ReadVersion(client: Buffer, origin: Buffer, users: UserTable) returns (next: State, arm: Option<Interest>)
      requires Apart(client, origin) && users.Valid()
      modifies this, username, password, client, client.data, origin, origin.data, users.users`iter
      ensures Apart(client, origin) && users.Valid()
      ensures Handled(View(), client.View(), origin.View(), next, arm)
           == AtVer(old(View()), old(client.View()), old(origin.View()), users.users.contents)
    {
      var toRead := client.ReadCount();
      if toRead < 1 {
        return AUTH, None;
      }
      var ver := client.Read();
      if ver != AUTH_VERSION {
        return ERROR, None;
      }
      stage := AUTH_ULEN;
      next, arm := ReadUlen(client, origin, users);
    }

    method ReadUlen(client: Buffer, origin: Buffer, users: UserTable) returns (next: State, arm: Option<Interest>)
      requires Apart(client, origin) && users.Valid()
      modifies this, username, password, client, client.data, origin, origin.data, users.users`iter
      ensures Apart(client, origin) && users.Valid()
      ensures Handled(View(), client.View(), origin.View(), next, arm)
           == AtUlen(old(View()), old(client.View()), old(origin.View()), users.users.contents)
    {
      var toRead := client.ReadCount();
      if toRead < 1 {
        return AUTH, None;
      }
      ulen := client.Read();
      if ulen == 0 {
        return ERROR, None;
      }
      stage := AUTH_UNAME;
      next, arm := ReadUsername(client, origin, users);
    }

    method ReadUsername(client: Buffer, origin: Buffer, users: UserTable) returns (next: State, arm: Option<Interest>)
      requires Apart(client, origin) && users.Valid()
      modifies this, username, password, client, client.data, origin, origin.data, users.users`iter
      ensures Apart(client, origin) && users.Valid()
      ensures Handled(View(), client.View(), origin.View(), next, arm)
           == AtUname(old(View()), old(client.View()), old(origin.View()), users.users.contents)
    {
      ghost var a, b, ob, us := View(), client.View(), origin.View(), users.users.contents;
      var toRead := client.ReadCount();
      if toRead < ulen {
        return AUTH, None;
      }
      UnameGoesOn(a, b, ob, us);
      StoreUsername(client, origin);
      assert origin.View() == ob && client.View() == b.Drop(a.ulen);
      next, arm := ReadPlen(client, origin, users);
    }

    method StoreUsername(client: Buffer, ghost origin: Buffer)
      requires Apart(client, origin) && ulen <= |client.View().bytes|
      modifies this`stage, username, client, client.data
      ensures Apart(client, origin) && origin.View() == old(origin.View())
      ensures client.View() == old(client.View()).Drop(ulen)
      ensures View()
           == old(View()).(username := Store(old(View()).username, old(client.View()).bytes[..ulen]), stage := AUTH_PLEN)
    {
      CopyField(client, username, ulen);
      stage := AUTH_PLEN;
    }

    method StorePassword(client: Buffer, ghost origin: Buffer)
      requires Apart(client, origin) && plen <= |client.View().bytes|
      modifies password, client, client.data
      ensures Apart(client, origin) && origin.View() == old(origin.View())
      ensures client.View() == old(client.View()).Drop(plen)
      ensures View() == old(View()).(password := Store(old(View()).password, old(client.View()).bytes[..plen]))
    {
      CopyField(client, password, plen);
    }

    method ReadPlen(client: Buffer, origin: Buffer, users: UserTable) returns (next: State, arm: Option<Interest>)
      requires Apart(client, origin) && users.Valid()
      modifies this, username, password, client, client.data, origin, origin.data, users.users`iter
      ensures Apart(client, origin) && users.Valid()
      ensures Handled(View(), client.View(), origin.View(), next, arm)
           == AtPlen(old(View()), old(client.View()), old(origin.View()), users.users.contents)
    {
      var toRead := client.ReadCount();
      if toRead < 1 {
        return AUTH, None;
      }
      plen := client.Read();
      if plen == 0 {
        return ERROR, None;
      }
      stage := AUTH_PASSWD;
      next, arm := ReadPassword(client, origin, users);
    }

    method ReadPassword(client: Buffer, origin: Buffer, users: UserTable) returns (next: State, arm: Option<Interest>)
      requires Apart(client, origin) && users.Valid()
      modifies this, username, password, client, client.data, origin, origin.data, users.users`iter
      ensures Apart(client, origin) && users.Valid()
      ensures Handled(View(), client.View(), origin.View(), next, arm)
           == AtPasswd(old(View()), old(client.View()), old(origin.View()), users.users.contents)
    {
      var toRead := client.ReadCount();
      if toRead < plen {
        return AUTH, None;
      }
      StorePassword(client, origin);
      next, arm := Answer(client, origin, users);
    }

    method CheckCredentials(users: UserTable)
      requires username.Length == password.Length == FIELD_SIZE && users.Valid()
      modifies this`authenticated, users.users`iter
      ensures users.Valid()
      ensures authenticated ==
                (old(authenticated) || Verified(users.users.contents, ToCString(username[..]), ToCString(password[..])))
    {
      var st := users.AuthenticateUser(ToCString(username[..]), ToCString(password[..]));
      if st != USER_BADUSERNAME && st != USER_WRONGPASSWORD {
        authenticated := true;
      }
    }

    method Answer(ghost client: Buffer, origin: Buffer, users: UserTable)
      returns (next: State, arm: Option<Interest>)
      requires Apart(client, origin) && users.Valid()
      modifies this`authenticated, origin, origin.data, users.users`iter
      ensures Apart(client, origin) && users.Valid()
      ensures Handled(View(), client.View(), origin.View(), next, arm)
           == Conclude(old(View()), old(client.View()), old(origin.View()), users.users.contents)
    {
      CheckCredentials(users);
      origin.Write(AUTH_VERSION);
      origin.Write(if authenticated then AUTH_SUCCESS else AUTH_FAILURE);
      next, arm := AUTH, Some(OP_WRITE);
    }

    /** `n` is what `send` returned. */
    method Write(origin: Buffer, n: int) returns (next: State, arm: Option<Interest>)
      requires username.Length == password.Length == FIELD_SIZE && username != origin.data && password != origin.data
      requires origin.Valid() && n <= |origin.View().bytes|
      modifies origin, origin.data
      ensures origin.Valid()
      ensures Written(origin.View(), next, arm) == AuthWrite(View(), old(origin.View()), n)
    {
      origin.ReadAdv(n);
      if n < 0 {
        return ERROR, None;
      }
      var left := origin.CanRead();
      if left {
        return AUTH, None;
      }
      if !authenticated {
        return ERROR, None;
      }
      return REQUEST, Some(OP_READ);
    }
  }
}
