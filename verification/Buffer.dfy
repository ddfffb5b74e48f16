/**
 * The direct-access buffer: one array with a read and a write index.
 * `Buf` is what a buffer means: the unread bytes, where they start, and the capacity.
 */
module Buffers {
  import opened Bytes

  datatype Buf = Buf(bytes: seq<byte>, off: nat, cap: nat) {
    /** The bytes lie inside the array, and an empty buffer is always rewound. */
    ghost predicate Ok() {
      off + |bytes| <= cap && (bytes == [] ==> off == 0)
    }

    /** How many bytes can still be written. */
    function Room(): (r: int) {
      cap - off - |bytes|
    }

    /** Bytes arriving behind the write index. */
    function Fill(chunk: seq<byte>): (r: Buf)
      ensures Ok() && |chunk| <= Room() ==> r.Ok()
    {
      Buf(bytes + chunk, off, cap)
    }

    /** A system call that delivered `r` behind the write index. */
    function Receive(r: Recv): (b: Buf)
      ensures Fits(this, r) ==> Keeps(this, b)
    {
      if r.Received? then Fill(r.data) else this
    }

    /** One byte behind the write index, lost when there is no room. */
    function Put(c: byte): (r: Buf)
      ensures Keeps(this, r)
    {
      if Room() > 0 then Fill([c]) else this
    }

    /** `n` bytes leaving at the read index. */
    function Drop(n: nat): (r: Buf)
      requires n <= |bytes|
      ensures Keeps(this, r)
      ensures r.bytes == bytes[n..]
    {
      if n == |bytes| then Buf([], 0, cap) else Buf(bytes[n..], off + n, cap)
    }

    /** The first unread byte, or 0. */
    function Peek(): byte {
      if bytes == [] then 0 else bytes[0]
    }

    /** The buffer after reading one byte, if there is one. */
    function Next(): (r: Buf)
      ensures Keeps(this, r)
    {
      if bytes == [] then this else Drop(1)
    }
  }

  /** Still the same storage, and in order if it was. */
  ghost predicate Keeps(b: Buf, b': Buf) {
    b'.cap == b.cap && (b.Ok() ==> b'.Ok())
  }

  /** A receive that fits in the room the buffer offered. */
  ghost predicate Fits(b: Buf, r: Recv) {
    r.Received? ==> |r.data| <= b.Room()
  }

  /** Dropping bytes one part after another is dropping them at once. */
  lemma DropTwice(b: Buf, m: nat, n: nat)
    requires m + n <= |b.bytes| && b.Ok()
    ensures b.Drop(m).Drop(n) == b.Drop(m + n)
  {
    assert b.bytes[m..][n..] == b.bytes[m + n..];
  }

  class Buffer {
    const data: array<byte>
    var read: nat
    var write: nat

    ghost predicate Valid()
      reads this
    {
      read <= write <= data.Length && (read == write ==> read == 0)
    }

    ghost function View(): (b: Buf)
      requires Valid()
      reads this, data
      ensures b.Ok()
    {
      Buf(data[read..write], read, data.Length)
    }

    /** The buffer over the given storage, empty. */
    constructor (storage: array<byte>)
      ensures Valid() && data == storage && View() == Buf([], 0, storage.Length)
    {
      data := storage;
      new;
      Reset();
    }

    method Reset()
      modifies this
      ensures Valid() && View() == Buf([], 0, data.Length)
    {
      read := 0;
      write := 0;
    }

    method CanWrite() returns (b: bool)
      requires Valid()
      ensures b <==> View().Room() > 0
    {
      b := data.Length - write > 0;
    }

    method CanRead() returns (b: bool)
      requires Valid()
      ensures b <==> View().bytes != []
    {
      b := write - read > 0;
    }

    /** The count that `buffer_read_ptr` reports. */
    method ReadCount() returns (n: nat)
      requires Valid()
      ensures n == |View().bytes|
    {
      n := write - read;
    }

    /** A system call storing what it received at the write index; nothing becomes readable yet. */
    method Deposit(r: Recv) returns (n: int)
      requires Valid() && Fits(View(), r)
      modifies data
      ensures View() == old(View())
      ensures n == if r.Received? then |r.data| else -1
      ensures r.Received? ==> data[write..write + |r.data|] == r.data
    {
      if r.RecvError? {
        return -1;
      }
      forall i | 0 <= i < |r.data| {
        data[write + i] := r.data[i];
      }
      n := |r.data|;
      assert data[read..write] == old(data[read..write]);
    }

    /** Publishes bytes already stored at the write index; a negative count is ignored. */
    method WriteAdv(n: int)
      requires Valid() && n <= View().Room()
      modifies this
      ensures Valid()
      ensures View() == if n > -1 then old(View()).Fill(data[old(write)..old(write) + n]) else old(View())
    {
      if n > -1 {
        write := write + n;
        assert data[read..write] == data[old(read)..old(write)] + data[old(write)..write];
      }
    }

    /** `recv` into the buffer followed by the advance of the write index. */
    method Receive(r: Recv)
      requires Valid() && Fits(View(), r)
      modifies this, data
      ensures Valid() && View() == old(View()).Receive(r)
    {
      var n := Deposit(r);
      WriteAdv(n);
    }

    /** Consumes bytes at the read index, rewinding an emptied buffer; a negative count is ignored. */
    method ReadAdv(n: int)
      requires Valid() && n <= |View().bytes|
      modifies this, data
      ensures Valid()
      ensures View() == if n > -1 then old(View()).Drop(n) else old(View())
    {
      if n > -1 {
        ghost var before := data[read..write];
        read := read + n;
        assert data[read..write] == before[n..];
        if read == write {
          Compact();
        }
      }
    }

    method Read() returns (c: byte)
      requires Valid()
      modifies this, data
      ensures Valid()
      ensures c == old(View()).Peek() && View() == old(View()).Next()
    {
      var any := CanRead();
      if any {
        c := data[read];
        ReadAdv(1);
      } else {
        c := 0;
      }
    }

    method Write(c: byte)
      requires Valid()
      modifies this, data
      ensures Valid() && View() == old(View()).Put(c)
    {
      var any := CanWrite();
      if any {
        ghost var before := data[read..write];
        data[write] := c;
        assert data[read..write] == before;
        WriteAdv(1);
      }
    }

    /**
     * Moves the unread bytes to the front. The move is overlapping, so all the bytes are read
     * before any is stored. Also called on a buffer that was just emptied and not yet rewound.
     */
    method Compact()
      requires read <= write <= data.Length
      modifies this, data
      ensures Valid()
      ensures View() == Buf(old(data[read..write]), 0, data.Length)
    {
      if read == 0 {
      } else if read == write {
        read := 0;
        write := 0;
      } else {
        var n := write - read;
        forall i | 0 <= i < n {
          data[i] := data[read + i];
        }
        read := 0;
        write := n;
      }
    }
  }
}
