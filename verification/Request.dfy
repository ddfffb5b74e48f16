/** The REQUEST state: the client's request, decoded from what is buffered (RFC 1928 section 4). */
module Requests {
  import opened Bytes
  import opened Buffers
  import opened Protocol

  const CONNECT_CMD: byte := 0x01
  const IPv4_ADDR: byte := 0x01
  const FQDN: byte := 0x03
  const IPv6_ADDR: byte := 0x04
  const IPv4_ADDR_LEN: byte := 4
  const IPv6_ADDR_LEN: byte := 16

  const COMMAND_NOT_SUPPORTED: byte := 0x07
  const ADDRESS_TYPE_NOT_SUPPORTED: byte := 0x08
  const INVALID_SOCKS5_VERSION: byte := 0x09
  const INVALID_RSV: byte := 0x10
  const INVALID_FQDN_LENGHT: byte := 0x11

  predicate ValidAtyp(c: byte) {
    c == IPv4_ADDR || c == FQDN || c == IPv6_ADDR
  }

  function AddrBytes(atyp: byte): byte {
    if atyp == IPv4_ADDR then IPv4_ADDR_LEN else IPv6_ADDR_LEN
  }

  datatype Stage = VER_CMD_ATYP | DST_LEN | DST_RES

  /** The request, with the raw address (or name) and the port its text stands for. */
  datatype Request = Request(stage: Stage, cmd: byte, atyp: byte, host: seq<byte>, port: int)

  /** `Waits` for more, `Closed` by the client, `Refused` with a reply code, or decoded. */
  datatype Result = Waits | Closed | Refused(rep: byte) | Resolves | Connects

  datatype Read = Read(q: Request, client: Buf, result: Result)

  // ----- the port as text -----

  /** `%u`. */
  function Decimal(n: nat): (t: seq<byte>)
    ensures t != []
  {
    if n < 10 then [48 + n] else Decimal(n / 10) + [48 + n % 10]
  }

  /** `atoi` on digits. */
  function Atoi(t: seq<byte>): int {
    if t == [] then 0 else Atoi(t[..|t| - 1]) * 10 + (t[|t| - 1] as int - 48)
  }

  lemma {:induction false} AtoiDecimal(n: nat)
    ensures Atoi(Decimal(n)) == n
  {
    if n >= 10 {
      AtoiDecimal(n / 10);
      assert Decimal(n)[..|Decimal(n)| - 1] == Decimal(n / 10);
    }
  }

  const PORT_MAX_LENGHT := 6

  /** A 16-bit port and its terminating NUL fit the text field, so `snprintf` never cuts it. */
  lemma PortFits(n: nat)
    requires n < 0x1_0000
    ensures |Decimal(n)| < PORT_MAX_LENGHT
  {
    assert |Decimal(n / 10000)| == 1;
    assert |Decimal(n / 1000)| <= 2;
    assert |Decimal(n / 100)| <= 3;
    assert |Decimal(n / 10)| <= 4;
  }

  // ----- what the handler does -----

  function Port(hi: byte, lo: byte): nat {
    hi * 256 + lo
  }

  /** What `n` single-byte reads take from a buffer: a missing byte reads as 0. */
  function Taken(b: Buf, n: nat): seq<byte> {
    if n <= |b.bytes| then b.bytes[..n] else b.bytes + seq(n - |b.bytes|, _ => 0)
  }

  function Skip(b: Buf, n: nat): (r: Buf)
    ensures Keeps(b, r)
  {
    if n <= |b.bytes| then b.Drop(n) else b.Drop(|b.bytes|)
  }

  /** Address and port taken from the buffer. */
  function Decode(q: Request, b: Buf, n: nat): (r: Read)
    ensures Keeps(b, r.client) && !r.result.Refused?
  {
    var p := Skip(b, n);
    var q' := q.(host := Taken(b, n), port := Port(p.Peek(), p.Next().Peek()));
    Read(q', p.Next().Next(), if q.atyp == FQDN then Resolves else Connects)
  }

  /**
   * The length of a name is kept in a local variable. A read that comes while a name is being resolved
   * finds it uninitialized: `junk` is what it holds then.
   */
  function Resolve(q: Request, b: Buf, junk: byte): (r: Read)
    ensures Keeps(b, r.client) && (r.result.Refused? ==> r.result.rep == INVALID_FQDN_LENGHT)
  {
    if q.stage != DST_LEN then Decode(q, b, if q.atyp == FQDN then junk else AddrBytes(q.atyp))
    else if b.bytes == [] then Read(q, b, Closed)
    else if q.atyp == FQDN && b.Peek() == 0 then Read(q, b.Next(), Refused(INVALID_FQDN_LENGHT))
    else
      var n: nat := if q.atyp == FQDN then b.Peek() else AddrBytes(q.atyp);
      var b' := if q.atyp == FQDN then b.Next() else b;
      if |b'.bytes| < n + 1 then Read(q, b', Waits) else Decode(q.(stage := DST_RES), b', n)
  }

  /** The header either ends the read or passes on to the address. */
  datatype Head = Stop(read: Read) | Pass(q: Request, client: Buf)

  /** What a header leaves in the buffer, and the code it is refused with. */
  ghost predicate HeadOk(h: Head, b: Buf) {
    match h
    case Stop(r) => Keeps(b, r.client) && (r.result.Refused? ==> r.result.rep in HEADER_CODES)
    case Pass(_, c) => Keeps(b, c)
  }

  function Header(q: Request, b: Buf): (h: Head)
    ensures HeadOk(h, b)
  {
    if b.bytes == [] then Stop(Read(q, b, Closed))
    else if |b.bytes| < 4 then Stop(Read(q, b, Waits))
    else if b.bytes[0] != SOCKS5_VERSION then Stop(Read(q, b.Drop(1), Refused(INVALID_SOCKS5_VERSION)))
    else
      var q1 := q.(cmd := b.bytes[1]);
      if q1.cmd != CONNECT_CMD then Stop(Read(q1, b.Drop(2), Refused(COMMAND_NOT_SUPPORTED)))
      else if b.bytes[2] != RSV then Stop(Read(q1, b.Drop(3), Refused(INVALID_RSV)))
      else
        var q2 := q1.(atyp := b.bytes[3]);
        if !ValidAtyp(q2.atyp) then Stop(Read(q2, b.Drop(4), Refused(ADDRESS_TYPE_NOT_SUPPORTED)))
        else Pass(q2.(stage := DST_LEN), b.Drop(4))
  }

  /** What the address is read from, once the header is behind. */
  function Front(q: Request, cb: Buf, first: Recv): (h: Head)
    ensures HeadOk(h, if q.stage == VER_CMD_ATYP then cb.Receive(first) else cb)
  {
    if q.stage == VER_CMD_ATYP then Header(q, cb.Receive(first)) else Pass(q, cb)
  }

  /** Up to two receives: one for the header, one more for the address. A failed receive is ignored. */
  function RequestRead(q: Request, cb: Buf, first: Recv, second: Recv, junk: byte): Read {
    var f := Front(q, cb, first);
    if f.Stop? then f.read else Resolve(f.q, f.client.Receive(second), junk)
  }

  /** The receives fit in the room the buffer offers them. */
  ghost predicate Possible(q: Request, cb: Buf, first: Recv, second: Recv) {
    && (q.stage == VER_CMD_ATYP ==> Fits(cb, first))
    && (Front(q, cb, first).Pass? ==> Fits(Front(q, cb, first).client, second))
  }

  // ----- the message -----

  /** A destination address of the given type: a name carries its length. */
  function Address(atyp: byte, addr: seq<byte>): seq<byte>
    requires |addr| < 256
  {
    (if atyp == FQDN then [|addr|] else []) + addr
  }

  predicate ValidAddress(atyp: byte, addr: seq<byte>) {
    ValidAtyp(atyp) && if atyp == FQDN then 0 < |addr| < 256 else |addr| == AddrBytes(atyp) as int
  }

  function Tail(atyp: byte, addr: seq<byte>, hi: byte, lo: byte): seq<byte>
    requires |addr| < 256
  {
    Address(atyp, addr) + [hi, lo]
  }

  /** A CONNECT request. */
  function Message(atyp: byte, addr: seq<byte>, hi: byte, lo: byte): seq<byte>
    requires |addr| < 256
  {
    [SOCKS5_VERSION, CONNECT_CMD, RSV, atyp] + Tail(atyp, addr, hi, lo)
  }

  /**
   * The destination was decoded as sent, and what is unread, in the buffer and still to come, is
   * exactly what the client sent behind the request.
   */
  ghost predicate DecodedAs(
      r: Read, atyp: byte, addr: seq<byte>, hi: byte, lo: byte, toCome: seq<byte>, rest: seq<byte>) {
    && r.result == (if atyp == FQDN then Resolves else Connects) && r.q.atyp == atyp
    && r.q.host == addr && r.q.port == Port(hi, lo)
    && r.client.bytes + toCome == rest
  }

  /**
   * With the first `k` bytes behind the header buffered, the request is decoded as sent exactly when
   * all of it is there. One byte short of that it is decoded too, but with a port that lacks its low
   * byte and that byte left to be taken for payload; shorter still it waits, having consumed the
   * length byte if the address is a name, and nothing otherwise.
   */
  lemma DecodedExactlyWhenWhole(
      q: Request, b: Buf, addr: seq<byte>, hi: byte, lo: byte, rest: seq<byte>, k: nat, junk: byte)
    requires b.Ok() && q.stage == DST_LEN && ValidAddress(q.atyp, addr)
    requires var full := Tail(q.atyp, addr, hi, lo) + rest; 0 < k <= |full| && b.bytes == full[..k]
    ensures var full, r := Tail(q.atyp, addr, hi, lo) + rest, Resolve(q, b, junk);
            var need := |Tail(q.atyp, addr, hi, lo)|;
            && (DecodedAs(r, q.atyp, addr, hi, lo, full[k..], rest) <==> k >= need)
            && (k == need - 1 ==> r.result in {Resolves, Connects} && r.client.bytes == [] && r.q.port == Port(hi, 0))
            && (k < need - 1 ==> r.result == Waits && r.q == q && r.client == if q.atyp == FQDN then b.Drop(1) else b)
  {
    var body := addr + [hi, lo] + rest;
    var full := Tail(q.atyp, addr, hi, lo) + rest;
    if q.atyp == FQDN {
      assert full == [|addr|] + body;
      assert b.bytes[0] == |addr| && b.bytes[1..] == body[..k - 1];
      assert full[k..] == body[k - 1..];
      if k - 1 > |addr| {
        DecodeTakes(q.(stage := DST_RES), b.Drop(1), addr, hi, lo, rest, k - 1);
      }
    } else {
      assert full == body;
      if k > |addr| {
        DecodeTakes(q.(stage := DST_RES), b, addr, hi, lo, rest, k);
      }
    }
  }

  /** What decoding takes out of the first `j` bytes of address, port and whatever follows. */
  lemma DecodeTakes(q: Request, b: Buf, addr: seq<byte>, hi: byte, lo: byte, rest: seq<byte>, j: nat)
    requires b.Ok()
    requires var body := addr + [hi, lo] + rest; |addr| < j <= |body| && b.bytes == body[..j]
    ensures var body, r := addr + [hi, lo] + rest, Decode(q, b, |addr|);
            && r.q.host == addr && r.q.atyp == q.atyp && r.result == (if q.atyp == FQDN then Resolves else Connects)
            && r.q.port == Port(hi, if j == |addr| + 1 then 0 else lo)
            && (j == |addr| + 1 ==> r.client.bytes == [] && body[j..] == [lo] + rest)
            && (j > |addr| + 1 ==> r.client.bytes + body[j..] == rest)
  {
    var n, body := |addr|, addr + [hi, lo] + rest;
    assert body[..j][..n] == addr;
    var p := b.Drop(n);
    assert p.bytes == body[..j][n..] && p.bytes[0] == hi;
    if j == n + 1 {
      assert body[j..] == [lo] + rest;
    } else {
      assert p.bytes[1] == lo && p.bytes[1..][1..] + body[j..] == rest;
    }
  }

  /**
   * A name torn once, with its request whole at the next read: the length was lost, and the first byte of the
   * name is taken for it. The request is still consumed exactly, if under another name, exactly when that byte
   * is one less than the length, or the length itself while nothing came behind the request.
   */
  lemma TornNameConsumedIff(
      q: Request, b: Buf, b': Buf, addr: seq<byte>, hi: byte, lo: byte, rest: seq<byte>, k: nat, m: nat, junk: byte)
    requires b.Ok() && b'.Ok() && q.stage == DST_LEN && q.atyp == FQDN && ValidAddress(FQDN, addr)
    requires var full, need := Tail(FQDN, addr, hi, lo) + rest, |Tail(FQDN, addr, hi, lo)|;
             0 < k < need - 1 && need <= m <= |full| && b.bytes == full[..k] && b'.bytes == full[1..m]
    ensures Resolve(q, b, junk) == Read(q, b.Drop(1), Waits)
    ensures var full, need, r := Tail(FQDN, addr, hi, lo) + rest, |Tail(FQDN, addr, hi, lo)|, Resolve(q, b', junk);
            r.result == Resolves && r.client.bytes == full[need..m]
            <==> addr[0] != 0 && (addr[0] as int == |addr| - 1 || (addr[0] as int == |addr| && m == need))
  {
    var full, need := Tail(FQDN, addr, hi, lo) + rest, |Tail(FQDN, addr, hi, lo)|;
    var n: nat := addr[0];
    assert full[0] == |addr| && full[1] == n;
    if n > 0 && n + 3 <= m {
      TornNameTakes(q, b', n);
      if m >= n + 4 {
        assert b'.bytes[n + 3..] == full[n + 4..m];
        assert full[n + 4..m] == full[need..m] ==> |full[n + 4..m]| == |full[need..m]|;
      }
    }
  }

  /** What is left behind a name whose length is the next byte. */
  lemma TornNameTakes(q: Request, b: Buf, n: nat)
    requires b.Ok() && q.stage == DST_LEN && q.atyp == FQDN && 0 < n && n + 2 <= |b.bytes| && b.bytes[0] == n
    ensures Resolve(q, b, 0).result == Resolves
    ensures forall junk :: Resolve(q, b, junk) == Resolve(q, b, 0)
    ensures Resolve(q, b, 0).client.bytes == if |b.bytes| == n + 2 then [] else b.bytes[n + 3..]
  {
    DropTwice(b, 1, n);
    if |b.bytes| > n + 2 {
      DropTwice(b, 1 + n, 1);
      DropTwice(b, 2 + n, 1);
    }
  }

  /**
   * A read that comes while a name is being resolved takes up to two bytes more than the uninitialized
   * length says, whatever they are, and asks for another resolution.
   */
  lemma ReadWhileResolving(q: Request, b: Buf, junk: byte)
    requires b.Ok() && q.stage == DST_RES && q.atyp == FQDN
    ensures var r := Resolve(q, b, junk);
            && r.result == Resolves && r.q.stage == DST_RES && |r.q.host| == junk as int
            && r.client.bytes == if |b.bytes| <= junk as int + 2 then [] else b.bytes[junk as int + 2..]
  {
    if |b.bytes| > junk as int + 2 {
      DropTwice(b, junk, 1);
      DropTwice(b, junk as int + 1, 1);
    }
  }

  /** The first of the four header bytes that is not that of a supported CONNECT request, or 4. */
  function FirstBad(h: seq<byte>): nat
    requires |h| == 4
  {
    if h[0] != SOCKS5_VERSION then 0
    else if h[1] != CONNECT_CMD then 1
    else if h[2] != RSV then 2
    else if !ValidAtyp(h[3]) then 3
    else 4
  }

  /** The reply code for each header byte. */
  const HEADER_CODES: seq<byte> := [INVALID_SOCKS5_VERSION, COMMAND_NOT_SUPPORTED, INVALID_RSV, ADDRESS_TYPE_NOT_SUPPORTED]

  /** A whole header is refused at its first bad byte, with that byte's code, and consumed through it; else it passes. */
  lemma HeaderVerdict(q: Request, b: Buf)
    requires b.Ok() && |b.bytes| >= 4
    ensures var k := FirstBad(b.bytes[..4]);
            match Header(q, b)
            case Stop(r) => k < 4 && r.result == Refused(HEADER_CODES[k]) && r.client == b.Drop(k + 1)
            case Pass(q', c) => k == 4 && c == b.Drop(4) && q'.atyp == b.bytes[3] && q'.stage == DST_LEN
  {
  }

  /** A header is consumed as sent. */
  lemma HeaderPasses(q: Request, b: Buf, atyp: byte, more: seq<byte>)
    requires b.Ok() && ValidAtyp(atyp)
    requires b.bytes == [SOCKS5_VERSION, CONNECT_CMD, RSV, atyp] + more
    ensures Header(q, b) == Pass(q.(cmd := CONNECT_CMD, atyp := atyp, stage := DST_LEN), b.Drop(4))
    ensures b.Drop(4).bytes == more
  {
  }

  lemma TakeOne(b: Buf, i: nat)
    requires b.Ok()
    ensures Taken(b, i + 1) == Taken(b, i) + [Skip(b, i).Peek()]
    ensures Skip(b, i + 1) == Skip(b, i).Next()
  {
    if i < |b.bytes| {
      DropTwice(b, i, 1);
    }
  }

  // ----- the handler -----

  class RequestState {
    var stage: Stage
    var cmd: byte
    var atyp: byte
    var host: seq<byte>
    /** The port as decimal text, read back by `atoi` when the address is resolved. */
    var port: seq<byte>

    ghost function View(): Request
      reads this
    {
      Request(stage, cmd, atyp, host, Atoi(port))
    }

    method Arrival()
      modifies this`stage
      ensures View() == old(View()).(stage := VER_CMD_ATYP)
    {
      stage := VER_CMD_ATYP;
    }

    /** `junk` is what the local variable for the address length holds before it is assigned. */
    method ReadRequest(client: Buffer, first: Recv, second: Recv, junk: byte) returns (r: Result)
      requires client.Valid() && Possible(View(), client.View(), first, second)
      modifies this, client, client.data
      ensures client.Valid()
      ensures Read(View(), client.View(), r) == RequestRead(old(View()), old(client.View()), first, second, junk)
    {
      if stage == VER_CMD_ATYP {
        client.Receive(first);
        var toRead := client.ReadCount();
        if toRead == 0 {
          return Closed;
        }
        if toRead < 4 {
          return Waits;
        }
        var refused := ReadHeader(client);
        if refused.Some? {
          return Refused(refused.value);
        }
      }
      client.Receive(second);
      r := ResolveAddress(client, junk);
    }

    /** The four header bytes; a reply code if they are not those of a CONNECT request. */
    method ReadHeader(client: Buffer) returns (refused: Option<byte>)
      requires client.Valid() && |client.View().bytes| >= 4
      modifies this`stage, this`cmd, this`atyp, client, client.data
      ensures client.Valid()
      ensures Header(old(View()), old(client.View()))
           == if refused == None then Pass(View(), client.View())
              else Stop(Read(View(), client.View(), Refused(refused.value)))
    {
      ghost var b := client.View();
      var ver := client.Read();
      if ver != SOCKS5_VERSION {
        return Some(INVALID_SOCKS5_VERSION);
      }
      cmd := client.Read();
      DropTwice(b, 1, 1);
      if cmd != CONNECT_CMD {
        return Some(COMMAND_NOT_SUPPORTED);
      }
      var rsv := client.Read();
      DropTwice(b, 2, 1);
      if rsv != RSV {
        return Some(INVALID_RSV);
      }
      atyp := client.Read();
      DropTwice(b, 3, 1);
      if !ValidAtyp(atyp) {
        return Some(ADDRESS_TYPE_NOT_SUPPORTED);
      }
      stage := DST_LEN;
      refused := None;
    }

    method ResolveAddress(client: Buffer, junk: byte) returns (r: Result)
      requires client.Valid()
      modifies this, client, client.data
      ensures client.Valid()
      ensures Read(View(), client.View(), r) == Resolve(old(View()), old(client.View()), junk)
    {
      var toRead := client.ReadCount();
      var addrBytes := junk;
      if stage == DST_LEN {
        if toRead == 0 {
          return Closed;
        }
        if atyp == FQDN {
          addrBytes := client.Read();
          toRead := toRead - 1;
          if addrBytes == 0 {
            return Refused(INVALID_FQDN_LENGHT);
          }
        } else {
          addrBytes := AddrBytes(atyp);
        }
        if toRead < addrBytes as int + 1 {
          return Waits;
        }
        stage := DST_RES;
      }
      r := GetDestination(client, if atyp == FQDN then addrBytes else AddrBytes(atyp));
    }

    method GetDestination(client: Buffer, n: byte) returns (r: Result)
      requires client.Valid()
      modifies this`host, this`port, client, client.data
      ensures client.Valid()
      ensures Read(View(), client.View(), r) == Decode(old(View()), old(client.View()), n)
    {
      ghost var p := Skip(client.View(), n);
      GetAddress(client, n);
      assert client.View() == p;
      ghost var q := View();
      GetPort(client);
      assert View() == q.(port := Atoi(port)) && client.View() == p.Next().Next();
      r := if atyp == FQDN then Resolves else Connects;
    }

    method GetAddress(client: Buffer, n: byte)
      requires client.Valid()
      modifies this`host, client, client.data
      ensures client.Valid() && client.View() == Skip(old(client.View()), n)
      ensures host == Taken(old(client.View()), n)
    {
      ghost var b := client.View();
      host := [];
      for i := 0 to n
        invariant client.Valid() && client.View() == Skip(b, i)
        invariant host == Taken(b, i)
      {
        var c := client.Read();
        host := host + [c];
        TakeOne(b, i);
      }
    }

    method GetPort(client: Buffer)
      requires client.Valid()
      modifies this`port, client, client.data
      ensures client.Valid() && client.View() == old(client.View()).Next().Next()
      ensures Atoi(port) == Port(old(client.View()).Peek(), old(client.View()).Next().Peek())
      ensures |port| < PORT_MAX_LENGHT
    {
      var p1 := client.Read();
      var p2 := client.Read();
      AtoiDecimal(Port(p1, p2));
      PortFits(Port(p1, p2));
      port := Decimal(Port(p1, p2));
    }
  }
}
