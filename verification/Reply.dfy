/** The REPLY state: the answer to a request, and where it leads (RFC 1928 section 6). */
module Replies {
  import opened Bytes
  import opened Buffers
  import opened Protocol

  const SUCCEDED: byte := 0x00

  function PutAll(b: Buf, s: seq<byte>): (r: Buf)
    ensures Keeps(b, r)
    decreases |s|
  {
    if s == [] then b else PutAll(b.Put(s[0]), s[1..])
  }

  /** Version, code and reserved byte, then the address and port the origin's descriptor is bound to, if they can be had. */
  function Announce(ob: Buf, rep: byte, bound: Option<seq<byte>>): (r: Buf)
    ensures Keeps(ob, r)
  {
    var b := ob.Put(SOCKS5_VERSION).Put(rep).Put(RSV);
    if bound.Some? then PutAll(b, bound.value) else b
  }

  /** A failed send is only noticed by what is left to be sent. */
  function ReplyWrite(rep: byte, found: bool, ob: Buf, n: int): (w: Written)
    requires n <= |ob.bytes|
    ensures Keeps(ob, w.origin)
  {
    if !found then Written(ob, ERROR, None)
    else
      var b := if n > -1 then ob.Drop(n) else ob;
      if b.bytes != [] then Written(b, REPLY, None)
      else if rep == SUCCEDED then Written(b, COPY, None)
      else Written(b, REQUEST, Some(OP_READ))
  }

  /** With room for it, an answer is what was pending, then the three bytes, then the address, in order. */
  lemma AnnounceIsInOrder(ob: Buf, rep: byte, bound: Option<seq<byte>>)
    requires var more := if bound.Some? then bound.value else []; 3 + |more| <= ob.Room()
    ensures var more := if bound.Some? then bound.value else [];
            Announce(ob, rep, bound).bytes == ob.bytes + [SOCKS5_VERSION, rep, RSV] + more
  {
    if bound.Some? {
      PutAllAppends(ob.Put(SOCKS5_VERSION).Put(rep).Put(RSV), bound.value);
    }
  }

  lemma {:induction false} PutAllAppends(b: Buf, s: seq<byte>)
    requires |s| <= b.Room()
    ensures PutAll(b, s).bytes == b.bytes + s
    decreases |s|
  {
    if s != [] {
      PutAllAppends(b.Put(s[0]), s[1..]);
      assert b.bytes + s == b.bytes + [s[0]] + s[1..];
    } else {
      assert b.bytes + s == b.bytes;
    }
  }

  class Reply {
    var rep: byte
    var found: bool

    method Arrival(origin: Buffer, bound: Option<seq<byte>>)
      requires origin.Valid()
      modifies this`found, origin, origin.data
      ensures origin.Valid() && origin.View() == Announce(old(origin.View()), rep, bound) && found == bound.Some?
    {
      origin.Write(SOCKS5_VERSION);
      origin.Write(rep);
      origin.Write(RSV);
      found := bound.Some?;
      if found {
        WriteAll(origin, bound.value);
      }
    }

    method WriteAll(origin: Buffer, s: seq<byte>)
      requires origin.Valid()
      modifies origin, origin.data
      ensures origin.Valid() && origin.View() == PutAll(old(origin.View()), s)
    {
      ghost var all := PutAll(origin.View(), s);
      var i := 0;
      assert s[0..] == s;
      while i < |s|
        invariant 0 <= i <= |s| && origin.Valid()
        invariant PutAll(origin.View(), s[i..]) == all
      {
        assert s[i..][1..] == s[i + 1..];
        origin.Write(s[i]);
        i := i + 1;
      }
    }

    /** `n` is what `send` returned. */
    method Write(origin: Buffer, n: int) returns (next: State, arm: Option<Interest>)
      requires origin.Valid() && n <= |origin.View().bytes|
      modifies origin, origin.data
      ensures origin.Valid()
      ensures Written(origin.View(), next, arm) == ReplyWrite(rep, found, old(origin.View()), n)
    {
      if !found {
        return ERROR, None;
      }
      origin.ReadAdv(n);
      var left := origin.CanRead();
      if left {
        return REPLY, None;
      }
      if rep == SUCCEDED {
        return COPY, None;
      }
      return REQUEST, Some(OP_READ);
    }
  }
}
