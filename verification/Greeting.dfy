/** The GREETING state: method negotiation, resumable at any byte (RFC 1928 section 3). */
module Greetings {
  import opened Bytes
  import opened Buffers
  import opened Protocol

  const NO_AUTH_METHOD: byte := 0x00
  const AUTH_METHOD: byte := 0x02
  const AUTH_METHOD_INVALID: byte := 0xFF

  datatype Stage = VER_N_NMETHODS | METHODS

  datatype Greet = Greet(stage: Stage, nMethods: byte, chosen: byte)

  const START := Greet(VER_N_NMETHODS, 0, NO_AUTH_METHOD)

  // ----- what the handlers do -----

  datatype Scanned = Scanned(found: bool, chosen: byte, rest: Buf)

  /** Looks at up to `n` methods, stopping behind the first one that asks for a password. */
  function Scan(b: Buf, n: nat, chosen: byte): (s: Scanned)
    ensures Keeps(b, s.rest)
    decreases n
  {
    if n == 0 || b.bytes == [] then Scanned(false, chosen, b)
    else if b.Peek() == AUTH_METHOD then Scanned(true, AUTH_METHOD, b.Next())
    else Scan(b.Next(), n - 1, if b.Peek() == NO_AUTH_METHOD && chosen != AUTH_METHOD then NO_AUTH_METHOD else chosen)
  }

  function ReadMethods(g: Greet, cb: Buf, ob: Buf): (h: Handled<Greet>)
    ensures Keeps(cb, h.client) && Keeps(ob, h.origin)
  {
    if |cb.bytes| < g.nMethods then Handled(g, cb, ob, GREETING, None)
    else
      var s := Scan(cb, g.nMethods, g.chosen);
      var m := if s.chosen == NO_AUTH_METHOD && !s.found then AUTH_METHOD_INVALID else s.chosen;
      Handled(g.(chosen := m), s.rest, ob.Put(SOCKS5_VERSION).Put(m), GREETING, Some(OP_WRITE))
  }

  /** The stages, on what is buffered. */
  function Process(g: Greet, b: Buf, ob: Buf): (h: Handled<Greet>)
    ensures Keeps(b, h.client) && Keeps(ob, h.origin)
  {
    if g.stage == METHODS then ReadMethods(g, b, ob)
    else if |b.bytes| < 2 then Handled(g, b, ob, GREETING, None)
    else if b.Peek() != SOCKS5_VERSION then Handled(g, b.Next(), ob, ERROR, None)
    else
      var n, b' := b.Next().Peek(), b.Next().Next();
      if n == 0 then Handled(g.(nMethods := n), b', ob, ERROR, None)
      else ReadMethods(g.(nMethods := n, stage := METHODS), b', ob)
  }

  function GreetingRead(g: Greet, cb: Buf, ob: Buf, recv: Recv): (h: Handled<Greet>)
    ensures (Fits(cb, recv) ==> Keeps(cb, h.client)) && Keeps(ob, h.origin)
  {
    if recv.RecvError? then Handled(g, cb, ob, ERROR, None)
    else
      var b := cb.Receive(recv);
      if b.bytes == [] then Handled(g, b, ob, DONE, None) else Process(g, b, ob)
  }

  function GreetingWrite(g: Greet, ob: Buf, n: int): Written
    requires n <= |ob.bytes|
  {
    if n < 0 then Written(ob, ERROR, None)
    else
      var b := ob.Drop(n);
      if b.bytes != [] then Written(b, GREETING, None)
      else Written(b, if g.chosen == AUTH_METHOD then AUTH else REQUEST, Some(OP_READ))
  }

  // ----- the message, parsed in a single pass -----

  datatype Parsed = Waiting | Malformed | Chosen(chosen: byte, rest: seq<byte>)

  /** How many of the methods are read: through the first that asks for a password, or all. */
  function Through(methods: seq<byte>): (k: nat)
    ensures AUTH_METHOD in methods ==>
              0 < k <= |methods| && methods[k - 1] == AUTH_METHOD && AUTH_METHOD !in methods[..k - 1]
    ensures AUTH_METHOD !in methods ==> k == |methods|
  {
    if methods == [] then 0 else if methods[0] == AUTH_METHOD then 1 else 1 + Through(methods[1..])
  }

  /** The greeting at the front of a stream. */
  function Parse(s: seq<byte>): Parsed {
    if |s| < 2 then Waiting
    else if s[0] != SOCKS5_VERSION || s[1] == 0 then Malformed
    else if |s| - 2 < s[1] then Waiting
    else
      var methods := s[2..2 + s[1]];
      Chosen(if AUTH_METHOD in methods then AUTH_METHOD else AUTH_METHOD_INVALID, s[2 + Through(methods)..])
  }

  // ----- one read against the single pass -----

  /** With `k` methods before the first that asks for a password, or `n` in all, the scan stops behind it, or at the end. */
  lemma {:induction false} ScanStops(b: Buf, n: nat, k: nat)
    requires b.Ok() && k <= n <= |b.bytes|
    requires forall i :: 0 <= i < k ==> b.bytes[i] != AUTH_METHOD
    requires k < n ==> b.bytes[k] == AUTH_METHOD
    ensures Scan(b, n, NO_AUTH_METHOD)
         == if k < n then Scanned(true, AUTH_METHOD, b.Drop(k + 1)) else Scanned(false, NO_AUTH_METHOD, b.Drop(n))
    decreases n
  {
    if k > 0 {
      var b' := b.Drop(1);
      assert Scan(b, n, NO_AUTH_METHOD) == Scan(b', n - 1, NO_AUTH_METHOD);
      ScanStops(b', n - 1, k - 1);
      DropTwice(b, 1, if k < n then k else n - 1);
    }
  }

  lemma ScanIsThrough(b: Buf, n: nat, chosen: byte)
    requires b.Ok() && n <= |b.bytes| && chosen == NO_AUTH_METHOD
    ensures var methods := b.bytes[..n];
            Scan(b, n, chosen) == Scanned(AUTH_METHOD in methods,
                                          if AUTH_METHOD in methods then AUTH_METHOD else NO_AUTH_METHOD,
                                          b.Drop(Through(methods)))
  {
    var methods := b.bytes[..n];
    var k := if AUTH_METHOD in methods then Through(methods) - 1 else n;
    assert forall i :: 0 <= i < k ==> methods[i] in methods[..k];
    ScanStops(b, n, k);
  }

  /** The parser is where the stream `s`, which began at offset `base` of its buffer, has brought it. */
  ghost predicate Tracks(g: Greet, b: Buf, s: seq<byte>, base: nat) {
    && b.Ok() && g.chosen == NO_AUTH_METHOD
    && b.off + |b.bytes| <= base + |s|
    && match g.stage
       case VER_N_NMETHODS => b.bytes == s
       case METHODS => |s| >= 2 && s[0] == SOCKS5_VERSION && s[1] == g.nMethods != 0 && b.bytes == s[2..]
  }

  /** What a read must have done, given that the stream is now `s`. */
  ghost predicate Agrees(h: Handled<Greet>, ob: Buf, s: seq<byte>, base: nat) {
    match Parse(s)
    case Waiting => h.next == GREETING && h.arm == None && h.origin == ob && Tracks(h.st, h.client, s, base)
    case Malformed => h.next == ERROR
    case Chosen(m, rest) =>
      && h.next == GREETING && h.arm == Some(OP_WRITE) && h.st.chosen == m
      && h.client.bytes == rest && h.client.off <= base + |s| - |rest|
      && h.origin == ob.Put(SOCKS5_VERSION).Put(m)
  }

  /** One read, whatever was received before and however it was cut, agrees with the single pass. */
  lemma ReadAgrees(g: Greet, cb: Buf, ob: Buf, d: seq<byte>, s: seq<byte>, base: nat)
    requires Tracks(g, cb, s, base) && |d| <= cb.Room()
    ensures var h := GreetingRead(g, cb, ob, Received(d));
            && EndsWith(h.client, cb.Fill(d))
            && if cb.bytes + d == [] then h == Handled(g, cb.Fill(d), ob, DONE, None) else Agrees(h, ob, s + d, base)
  {
    var b, t := cb.Fill(d), s + d;
    if b.bytes != [] {
      if g.stage == METHODS {
        assert b.bytes == t[2..];
        MethodsAgree(g, b, ob, t, base);
      } else if |b.bytes| >= 2 && b.bytes[0] == SOCKS5_VERSION && b.bytes[1] != 0 {
        DropTwice(b, 1, 1);
        MethodsAgree(g.(nMethods := b.bytes[1], stage := METHODS), b.Drop(2), ob, t, base);
      }
    }
  }

  lemma MethodsAgree(g: Greet, b: Buf, ob: Buf, t: seq<byte>, base: nat)
    requires g.stage == METHODS && Tracks(g, b, t, base)
    ensures var h := ReadMethods(g, b, ob); EndsWith(h.client, b) && Agrees(h, ob, t, base)
  {
    if |b.bytes| >= g.nMethods {
      assert b.bytes[..g.nMethods] == t[2..2 + g.nMethods];
      ScanIsThrough(b, g.nMethods, g.chosen);
      assert t[2..][Through(b.bytes[..g.nMethods])..] == t[2 + Through(b.bytes[..g.nMethods])..];
    }
  }

  // ----- chunk independence -----

  /** Reads one chunk after another for as long as the parser waits; `Chosen` counts what it left unread. */
  function Outcome(g: Greet, cb: Buf, ob: Buf, chunks: seq<seq<byte>>): Parsed
    decreases chunks
  {
    if chunks == [] then Waiting
    else
      var h := GreetingRead(g, cb, ob, Received(chunks[0]));
      if h.next != GREETING then Malformed
      else if h.arm == None then Outcome(h.st, h.client, h.origin, chunks[1..])
      else Chosen(h.st.chosen, h.client.bytes + Concat(chunks[1..]))
  }

  /** Every chunk is non-empty and fits in the room there is when it is read. */
  ghost predicate Deliverable(g: Greet, cb: Buf, ob: Buf, chunks: seq<seq<byte>>)
    decreases chunks
  {
    chunks != [] ==>
      && 0 < |chunks[0]| <= cb.Room()
      && var h := GreetingRead(g, cb, ob, Received(chunks[0]));
         (h.next == GREETING && h.arm == None ==> Deliverable(h.st, h.client, h.origin, chunks[1..]))
  }

  lemma ParseIsStable(s: seq<byte>, more: seq<byte>)
    ensures Parse(s) == Malformed ==> Parse(s + more) == Malformed
    ensures Parse(s).Chosen? ==> Parse(s + more) == Chosen(Parse(s).chosen, Parse(s).rest + more)
  {
    if Parse(s).Chosen? {
      var t, methods := s + more, s[2..2 + s[1]];
      assert t[2..2 + s[1]] == methods;
      var k := 2 + Through(methods);
      assert t[k..] == s[k..] + more;
    }
  }

  lemma {:induction false} OutcomeIsParse(g: Greet, cb: Buf, ob: Buf, chunks: seq<seq<byte>>, s: seq<byte>, base: nat)
    requires Tracks(g, cb, s, base) && Deliverable(g, cb, ob, chunks)
    requires Parse(s) == Waiting
    ensures Outcome(g, cb, ob, chunks) == Parse(s + Concat(chunks))
    decreases chunks
  {
    if chunks == [] {
      assert s + Concat(chunks) == s;
    } else {
      var h := GreetingRead(g, cb, ob, Received(chunks[0]));
      ReadAgrees(g, cb, ob, chunks[0], s, base);
      assert s + chunks[0] + Concat(chunks[1..]) == s + Concat(chunks);
      if h.next == GREETING && h.arm == None {
        OutcomeIsParse(h.st, h.client, h.origin, chunks[1..], s + chunks[0], base);
      } else {
        ParseIsStable(s + chunks[0], Concat(chunks[1..]));
      }
    }
  }

  /** From arrival on an empty buffer, how the client's bytes are cut into chunks makes no difference. */
  lemma ChunkIndependence(cap: nat, ob: Buf, chunks: seq<seq<byte>>)
    requires Deliverable(START, Buf([], 0, cap), ob, chunks)
    ensures Outcome(START, Buf([], 0, cap), ob, chunks) == Parse(Concat(chunks))
  {
    OutcomeIsParse(START, Buf([], 0, cap), ob, chunks, [], 0);
    assert [] + Concat(chunks) == Concat(chunks);
  }

  // ----- exactly its own message -----

  /** A version 5 greeting offering `methods`. */
  function Message(methods: seq<byte>): seq<byte>
    requires |methods| < 256
  {
    [SOCKS5_VERSION, |methods|] + methods
  }

  /**
   * The whole greeting is consumed, and nothing behind it, exactly when no method follows the first
   * one that asks for a password.
   */
  lemma ConsumesItsMessageIff(methods: seq<byte>, rest: seq<byte>)
    requires 0 < |methods| < 256
    ensures var p := Parse(Message(methods) + rest);
            && p.Chosen? && (p.chosen == AUTH_METHOD <==> AUTH_METHOD in methods)
            && (p.rest == rest <==> AUTH_METHOD !in methods[..|methods| - 1])
  {
    var s := Message(methods) + rest;
    var k := Through(methods);
    assert s[2..2 + |methods|] == methods;
    assert s[2 + k..] == methods[k..] + rest;
    if AUTH_METHOD in methods && k < |methods| {
      assert methods[..|methods| - 1][k - 1] == AUTH_METHOD;
    }
    if AUTH_METHOD in methods[..|methods| - 1] {
      var i :| 0 <= i < |methods| - 1 && methods[i] == AUTH_METHOD;
      assert i < k - 1 ==> methods[i] in methods[..k - 1];
      assert |Parse(s).rest| > |rest|;
    }
  }

  /** Leftover methods are real: a greeting offering password authentication first, then none. */
  lemma LeftoverExample()
    ensures Parse(Message([0x02, 0x00])) == Chosen(AUTH_METHOD, [0x00])
  {
    var methods: seq<byte> := [0x02, 0x00];
    assert Message(methods)[2..4] == methods;
    assert methods[0] == AUTH_METHOD;
    assert Message(methods)[3..] == [0x00];
  }

  /** A greeting only partly there keeps the parser waiting. */
  lemma PrefixWaits(methods: seq<byte>, s: seq<byte>)
    requires 0 < |methods| < 256 && s <= Message(methods) && |s| < 2 + |methods|
    ensures Parse(s) == Waiting
  {
  }

  // ----- the handlers -----

  class Greeting {
    var stage: Stage
    var nMethods: byte
    var chosen: byte

    ghost function View(): Greet
      reads this
    {
      Greet(stage, nMethods, chosen)
    }

    method Arrival()
      modifies this
      ensures View() == START.(nMethods := old(nMethods))
    {
      stage := VER_N_NMETHODS;
      chosen := NO_AUTH_METHOD;
    }

    method Read(client: Buffer, origin: Buffer, recv: Recv) returns (next: State, arm: Option<Interest>)
      requires client != origin && client.data != origin.data && client.Valid() && origin.Valid()
      requires Fits(client.View(), recv)
      modifies this, client, client.data, origin, origin.data
      ensures client.Valid() && origin.Valid()
      ensures Handled(View(), client.View(), origin.View(), next, arm)
           == GreetingRead(old(View()), old(client.View()), old(origin.View()), recv)
    {
      var readn := client.Deposit(recv);
      if readn < 0 {
        return ERROR, None;
      }
      client.WriteAdv(readn);
      assert origin.View() == old(origin.View()) && client.View() == old(client.View()).Receive(recv);
      var toRead := client.ReadCount();
      if toRead == 0 {
        return DONE, None;
      }
      next, arm := ProcessBuffered(client, origin);
    }

    method ProcessBuffered(client: Buffer, origin: Buffer) returns (next: State, arm: Option<Interest>)
      requires client != origin && client.data != origin.data && client.Valid() && origin.Valid()
      modifies this, client, client.data, origin, origin.data
      ensures client.Valid() && origin.Valid()
      ensures Handled(View(), client.View(), origin.View(), next, arm)
           == Process(old(View()), old(client.View()), old(origin.View()))
    {
      if stage == VER_N_NMETHODS {
        var toRead := client.ReadCount();
        if toRead < 2 {
          return GREETING, None;
        }
        var ok := ReadHeader(client);
        if !ok {
          return ERROR, None;
        }
      }
      arm := ChooseMethod(client, origin);
      next := GREETING;
    }

    /** The version and the number of methods. */
    method ReadHeader(client: Buffer) returns (ok: bool)
      requires client.Valid()
      modifies this`nMethods, this`stage, client, client.data
      ensures client.Valid()
      ensures var b := old(client.View());
              if b.Peek() != SOCKS5_VERSION then
                !ok && View() == old(View()) && client.View() == b.Next()
              else
                && (ok <==> nMethods != 0)
                && View() == old(View()).(nMethods := b.Next().Peek(), stage := if ok then METHODS else old(stage))
                && client.View() == b.Next().Next()
    {
      var ver := client.Read();
      if ver != SOCKS5_VERSION {
        return false;
      }
      nMethods := client.Read();
      if nMethods == 0 {
        return false;
      }
      stage := METHODS;
      ok := true;
    }

    /** The METHODS stage. */
    method ChooseMethod(client: Buffer, origin: Buffer) returns (arm: Option<Interest>)
      requires client != origin && client.data != origin.data && client.Valid() && origin.Valid()
      requires stage == METHODS
      modifies this`chosen, client, client.data, origin, origin.data
      ensures client.Valid() && origin.Valid()
      ensures Handled(View(), client.View(), origin.View(), GREETING, arm)
           == ReadMethods(old(View()), old(client.View()), old(origin.View()))
    {
      var toRead := client.ReadCount();
      if toRead < nMethods {
        return None;
      }
      var found := ScanMethods(client);
      if chosen == NO_AUTH_METHOD && !found {
        chosen := AUTH_METHOD_INVALID;
      }
      origin.Write(SOCKS5_VERSION);
      origin.Write(chosen);
      arm := Some(OP_WRITE);
    }

    method ScanMethods(client: Buffer) returns (found: bool)
      requires client.Valid()
      modifies this`chosen, client, client.data
      ensures client.Valid()
      ensures Scanned(found, chosen, client.View()) == Scan(old(client.View()), nMethods, old(chosen))
    {
      found := false;
      var i := 0;
      ghost var all := Scan(client.View(), nMethods, chosen);
      var any := client.CanRead();
      while i < nMethods && any
        invariant 0 <= i <= nMethods && client.Valid() && !found
        invariant any <==> client.View().bytes != []
        invariant all == Scan(client.View(), nMethods - i, chosen)
      {
        var m := client.Read();
        if m == AUTH_METHOD {
          chosen := AUTH_METHOD;
          found := true;
          break;
        } else if m == NO_AUTH_METHOD && chosen != AUTH_METHOD {
          chosen := NO_AUTH_METHOD;
        }
        i := i + 1;
        any := client.CanRead();
      }
    }

    /** `n` is what `send` returned. */
    method Write(origin: Buffer, n: int) returns (next: State, arm: Option<Interest>)
      requires origin.Valid() && n <= |origin.View().bytes|
      modifies origin, origin.data
      ensures origin.Valid()
      ensures Written(origin.View(), next, arm) == GreetingWrite(View(), old(origin.View()), n)
    {
      if n < 0 {
        return ERROR, None;
      }
      origin.ReadAdv(n);
      var left := origin.CanRead();
      if left {
        return GREETING, None;
      }
      if chosen == AUTH_METHOD {
        return AUTH, Some(OP_READ);
      }
      return REQUEST, Some(OP_READ);
    }
  }
}
