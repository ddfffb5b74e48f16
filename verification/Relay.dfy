/**
 * The COPY state: two endpoints relaying through two bounded buffers.
 * `Step` is what one readiness event does to the pair; the class runs it in place.
 */
module Relays {
  import opened Bytes
  import opened Buffers
  import opened Protocol

  datatype Side = Client | Origin {
    function Peer(): Side {
      if Client? then Origin else Client
    }
  }

  /**
   * One endpoint: the bytes waiting to be sent to it, the interests it remembers, the interests
   * its selector slot holds (if it has one), and all the bytes it was sent.
   */
  datatype End = End(buf: Buf, interests: Interest, armed: Interest, registered: bool, sent: seq<byte>) {
    function Arm(i: Interest): End {
      if registered then this.(armed := i) else this
    }
  }

  datatype Relay = Relay(client: End, origin: End) {
    function At(x: Side): End {
      if x.Client? then client else origin
    }

    function With(x: Side, mine: End, peers: End): Relay {
      if x.Client? then Relay(mine, peers) else Relay(peers, mine)
    }

    ghost predicate Ok() {
      client.buf.Ok() && origin.buf.Ok()
    }

    /** Reading from `x` could store something. */
    predicate HasRoom(x: Side) {
      At(x.Peer()).buf.Room() > 0
    }

    /** Writing to `x` could send something. */
    predicate HasData(x: Side) {
      At(x).buf.bytes != []
    }
  }

  datatype Event = Readable(x: Side, recv: Recv) | Writable(x: Side, n: int)

  /** The system call outcome is one the buffers allow. */
  ghost predicate Possible(s: Relay, ev: Event) {
    match ev
    case Readable(x, recv) => Fits(s.At(x.Peer()).buf, recv)
    case Writable(x, n) => n <= |s.At(x).buf.bytes|
  }

  /** The selector only reports what its slot asks for. */
  ghost predicate Dispatched(s: Relay, ev: Event) {
    if ev.Readable? then s.At(ev.x).armed.r else s.At(ev.x).armed.w
  }

  /** The call behind the event moved at least one byte. */
  predicate Transfers(ev: Event) {
    match ev
    case Readable(_, recv) => recv.Received? && recv.data != []
    case Writable(_, n) => n > 0
  }

  /** The pair on arrival, given what the handshake left in the client's and the origin's buffer. */
  function Arrival(clientBuffer: Buf, originBuffer: Buf, clientRegistered: bool, originRegistered: bool): Relay {
    var pending := clientBuffer.bytes != [];
    var origin := End(clientBuffer, if pending then OP_WRITE else OP_READ, OP_NOOP, originRegistered, []);
    var client := End(originBuffer, OP_READ, OP_NOOP, clientRegistered, []);
    Relay(client.Arm(if pending then OP_NOOP else client.interests), origin.Arm(origin.interests))
  }

  /** The interests of an endpoint that match its own buffer and its peer's. */
  function Wanted(me: End, peer: End): Interest {
    Interest(peer.buf.Room() > 0, me.buf.bytes != [])
  }

  /** An endpoint and its peer after a handler ran for the endpoint. */
  datatype Pair = Pair(me: End, peer: End, verdict: State)

  function Resume(me: End, peer: End): Pair {
    Pair(me, peer, if me.interests == OP_NOOP && peer.interests == OP_NOOP then DONE else COPY)
  }

  /** Both ends re-armed from the buffers; the second slot is not touched when the first is missing. */
  function Refresh(me: End, peer: End): Pair {
    var ret, oet := Wanted(me, peer), Wanted(peer, me);
    if !me.registered || !peer.registered then Pair(me.Arm(ret), peer, ERROR)
    else Resume(me.Arm(ret).(interests := ret), peer.Arm(oet).(interests := oet))
  }

  /** The end without one of its interests. */
  function NoRead(e: End): End {
    var i := e.interests.(r := false);
    e.Arm(i).(interests := i)
  }

  function NoWrite(e: End): End {
    var i := e.interests.(w := false);
    e.Arm(i).(interests := i)
  }

  function ReadFrom(from: End, to: End, recv: Recv): Pair {
    if to.buf.Room() <= 0 then Pair(from, to, COPY)
    else if recv.Received? && recv.data != [] then Refresh(from, to.(buf := to.buf.Fill(recv.data)))
    else Resume(NoRead(from), NoWrite(to))
  }

  function WriteTo(to: End, from: End, n: int): Pair
    requires n <= |to.buf.bytes|
  {
    if to.buf.bytes == [] then Pair(to, from, COPY)
    else if n > 0 then Refresh(to.(buf := to.buf.Drop(n), sent := to.sent + to.buf.bytes[..n]), from)
    else Resume(NoWrite(to), NoRead(from))
  }

  function Step(s: Relay, ev: Event): (Relay, State)
    requires Possible(s, ev)
  {
    var p := match ev
      case Readable(x, recv) => ReadFrom(s.At(x), s.At(x.Peer()), recv)
      case Writable(x, n) => WriteTo(s.At(x), s.At(x.Peer()), n);
    (s.With(ev.x, p.me, p.peer), p.verdict)
  }

  // ----- runs -----

  function Init<T>(s: seq<T>): seq<T>
    requires s != []
  {
    s[..|s| - 1]
  }

  function Last<T>(s: seq<T>): T
    requires s != []
  {
    s[|s| - 1]
  }

  /** `evs` is a run from `s`: every system call outcome is possible when it happens. */
  ghost predicate Run(s: Relay, evs: seq<Event>)
    decreases |evs|, 0
  {
    evs == [] || (Run(s, Init(evs)) && Possible(After(s, Init(evs)), Last(evs)))
  }

  ghost function After(s: Relay, evs: seq<Event>): Relay
    requires Run(s, evs)
    decreases |evs|, 1
  {
    if evs == [] then s else Step(After(s, Init(evs)), Last(evs)).0
  }

  /** The verdict of the last event of a run. */
  ghost function VerdictOf(s: Relay, evs: seq<Event>): State
    requires evs != [] && Run(s, evs)
  {
    Step(After(s, Init(evs)), Last(evs)).1
  }

  /** Moreover, every event of the run was asked for, while the relay went on. */
  ghost predicate DispatchedRun(s: Relay, evs: seq<Event>)
    requires Run(s, evs)
  {
    evs == [] || (DispatchedRun(s, Init(evs)) && GoesOn(s, Init(evs)) && Dispatched(After(s, Init(evs)), Last(evs)))
  }

  ghost predicate GoesOn(s: Relay, evs: seq<Event>)
    requires Run(s, evs)
  {
    evs == [] || VerdictOf(s, evs) == COPY
  }

  /** What an event brings from `x`. */
  function Brought(x: Side, ev: Event): seq<byte> {
    if ev.Readable? && ev.x == x && ev.recv.Received? then ev.recv.data else []
  }

  /** What `x` sent to the proxy during the run. */
  ghost function InputOf(x: Side, evs: seq<Event>): seq<byte> {
    if evs == [] then [] else InputOf(x, Init(evs)) + Brought(x, Last(evs))
  }

  /**
   * The directions, named by their source, that met an end of file or a failure since the last
   * event that transferred something; `start` are those down to begin with.
   */
  ghost function Down(start: set<Side>, evs: seq<Event>): set<Side> {
    if evs == [] then start
    else if Transfers(Last(evs)) then {}
    else Down(start, Init(evs)) + {if Last(evs).Readable? then Last(evs).x else Last(evs).x.Peer()}
  }

  // ----- stream integrity -----

  lemma StepKeepsOk(s: Relay, ev: Event)
    requires s.Ok() && Possible(s, ev)
    ensures Step(s, ev).0.Ok()
  {
  }

  lemma {:induction false} RunKeeps(s: Relay, evs: seq<Event>)
    requires s.Ok() && Run(s, evs)
    ensures After(s, evs).Ok()
  {
    if evs != [] {
      RunKeeps(s, Init(evs));
      StepKeepsOk(After(s, Init(evs)), Last(evs));
    }
  }

  /**
   * In each direction, over any run: what was buffered, sent and not yet sent, followed by what the
   * source then delivered, is what the destination was sent followed by what is still buffered for it.
   */
  lemma {:induction false} StreamIntegrity(s: Relay, evs: seq<Event>, x: Side)
    requires s.Ok() && Run(s, evs)
    ensures var to, to' := s.At(x.Peer()), After(s, evs).At(x.Peer());
            to.sent + to.buf.bytes + InputOf(x, evs) == to'.sent + to'.buf.bytes
  {
    if evs != [] {
      StreamIntegrity(s, Init(evs), x);
      RunKeeps(s, Init(evs));
      var to, mid := s.At(x.Peer()), After(s, Init(evs));
      StepConserves(mid, Last(evs), x);
      assert to.sent + to.buf.bytes + InputOf(x, evs)
          == (to.sent + to.buf.bytes + InputOf(x, Init(evs))) + Brought(x, Last(evs));
    }
  }

  lemma StepConserves(s: Relay, ev: Event, x: Side)
    requires s.Ok() && Possible(s, ev)
    ensures var to, to' := s.At(x.Peer()), Step(s, ev).0.At(x.Peer());
            to'.sent + to'.buf.bytes == to.sent + to.buf.bytes + Brought(x, ev)
  {
    match ev
    case Readable(y, recv) => ReadConserves(s.At(y), s.At(y.Peer()), recv);
    case Writable(y, n) => WriteConserves(s.At(y), s.At(y.Peer()), n);
  }

  lemma ReadConserves(from: End, to: End, recv: Recv)
    requires Fits(to.buf, recv) && to.buf.Ok()
    ensures var p := ReadFrom(from, to, recv);
            && p.me.sent == from.sent && p.me.buf == from.buf && p.peer.sent == to.sent
            && p.peer.buf.bytes == to.buf.bytes + if recv.Received? then recv.data else []
  {
  }

  lemma WriteConserves(to: End, from: End, n: int)
    requires n <= |to.buf.bytes|
    ensures var p := WriteTo(to, from, n);
            && p.peer.sent == from.sent && p.peer.buf == from.buf
            && p.me.sent + p.me.buf.bytes == to.sent + to.buf.bytes
  {
    if n > 0 {
      assert to.buf.bytes == to.buf.bytes[..n] + to.buf.bytes[n..];
    }
  }

  // ----- arming -----

  /** `x` is armed for exactly what the buffers allow, and the direction from `x` is armed at one end at least. */
  ghost predicate ArmedExactly(s: Relay, x: Side) {
    && s.At(x).armed == s.At(x).interests == Interest(s.HasRoom(x), s.HasData(x))
    && (s.At(x).armed.r || s.At(x.Peer()).armed.w)
  }

  /** One step arms exactly what the buffers allow, and fails only for want of a selector slot. */
  lemma ExactArming(s: Relay, ev: Event)
    requires s.Ok() && s.client.buf.cap > 0 && s.origin.buf.cap > 0
    requires Possible(s, ev) && Transfers(ev)
    ensures Step(s, ev).1 == ERROR <==> !(s.client.registered && s.origin.registered)
    ensures Step(s, ev).1 != ERROR ==>
              var s' := Step(s, ev).0;
              && Step(s, ev).1 == COPY
              && ArmedExactly(s', Client) && ArmedExactly(s', Origin)
  {
  }

  /** The directions that are not armed on arrival: with data pending, only that data is waited for. */
  ghost function UnarmedOnArrival(clientBuffer: Buf): set<Side> {
    if clientBuffer.bytes == [] then {} else {Origin}
  }

  /** The two ways an undisturbed relay can look; `down` are the directions given up. */
  ghost predicate Settled(s: Relay, down: set<Side>) {
    SettledAt(s, down, Client) && SettledAt(s, down, Origin)
  }

  ghost predicate SettledAt(s: Relay, down: set<Side>, x: Side) {
    && s.At(x).armed == s.At(x).interests
    && (s.At(x).interests.r ==> s.HasRoom(x))
    && (s.At(x).interests.w ==> s.HasData(x))
    && (x in down <==> !s.At(x).interests.r && !s.At(x.Peer()).interests.w)
  }

  ghost predicate Pipelined(s: Relay, down: set<Side>) {
    && s.client.armed == OP_NOOP && s.client.interests == OP_READ
    && s.origin.armed == s.origin.interests == OP_WRITE
    && s.HasData(Origin) && down == {Origin}
  }

  ghost predicate Healthy(s: Relay, down: set<Side>) {
    && s.Ok() && s.client.buf.cap > 0 && s.origin.buf.cap > 0
    && s.client.registered && s.origin.registered
    && (Settled(s, down) || Pipelined(s, down))
  }

  /** A dispatched event that moves nothing gives up exactly its own direction. */
  lemma FailureSettles(s: Relay, ev: Event, down: set<Side>)
    requires Healthy(s, down) && Possible(s, ev) && Dispatched(s, ev) && !Transfers(ev)
    ensures Settled(Step(s, ev).0, down + {if ev.Readable? then ev.x else ev.x.Peer()})
    ensures Step(s, ev).1 == Resume(Step(s, ev).0.client, Step(s, ev).0.origin).verdict
  {
  }

  lemma BothDown(down: set<Side>)
    ensures down == {Client, Origin} <==> Client in down && Origin in down
  {
    if Client in down && Origin in down {
      forall x | x in down ensures x in {Client, Origin} {
        assert x.Client? || x.Origin?;
      }
    }
  }

  lemma StepKeepsHealthy(s: Relay, ev: Event, down: set<Side>)
    requires Healthy(s, down) && Possible(s, ev) && Dispatched(s, ev)
    ensures var down' := if Transfers(ev) then {} else down + {if ev.Readable? then ev.x else ev.x.Peer()};
            && Healthy(Step(s, ev).0, down')
            && (Step(s, ev).1 == DONE <==> down' == {Client, Origin})
            && Step(s, ev).1 != ERROR
  {
    if Transfers(ev) {
      ExactArming(s, ev);
    } else {
      FailureSettles(s, ev, down);
    }
    var down' := if Transfers(ev) then {} else down + {if ev.Readable? then ev.x else ev.x.Peer()};
    BothDown(down');
  }

  lemma {:induction false} RunKeepsHealthy(cb: Buf, ob: Buf, evs: seq<Event>)
    requires cb.Ok() && ob.Ok() && cb.cap > 0 && ob.cap > 0 && ob.bytes == []
    requires var s := Arrival(cb, ob, true, true); Run(s, evs) && DispatchedRun(s, evs)
    ensures Healthy(After(Arrival(cb, ob, true, true), evs), Down(UnarmedOnArrival(cb), evs))
  {
    var s := Arrival(cb, ob, true, true);
    if evs != [] {
      RunKeepsHealthy(cb, ob, Init(evs));
      StepKeepsHealthy(After(s, Init(evs)), Last(evs), Down(UnarmedOnArrival(cb), Init(evs)));
    }
  }

  /** Every event the selector can report finds work, and every direction that is not given up has something armed. */
  ghost predicate Awake(s: Relay, down: set<Side>) {
    && (forall ev :: Dispatched(s, ev) ==> if ev.Readable? then s.HasRoom(ev.x) else s.HasData(ev.x))
    && (forall x: Side :: x in down || s.At(x).armed.r || s.At(x.Peer()).armed.w)
  }

  /** The relay is awake at every point of every run from an arrival, with the origin's slot there or not. */
  ghost predicate NeverStalls(cb: Buf, ob: Buf, registered: bool) {
    forall evs: seq<Event> ::
      Run(Arrival(cb, ob, true, registered), evs) && DispatchedRun(Arrival(cb, ob, true, registered), evs)
      ==> Awake(After(Arrival(cb, ob, true, registered), evs), Down(UnarmedOnArrival(cb), evs))
  }

  /** The relay never stalls exactly if it was entered with a selector slot for the origin. */
  lemma NeverStallsIffRegistered(cb: Buf, ob: Buf, registered: bool)
    requires cb.Ok() && ob.Ok() && cb.cap > 0 && ob.cap > 0 && ob.bytes == []
    ensures NeverStalls(cb, ob, registered) <==> registered
  {
    var s := Arrival(cb, ob, true, registered);
    if registered {
      forall evs: seq<Event> | Run(s, evs) && DispatchedRun(s, evs)
        ensures Awake(After(s, evs), Down(UnarmedOnArrival(cb), evs))
      {
        RunKeepsHealthy(cb, ob, evs);
        HealthyIsAwake(After(s, evs), Down(UnarmedOnArrival(cb), evs));
      }
    } else {
      var x := if cb.bytes == [] then Origin else Client;
      assert Run(s, []) && DispatchedRun(s, []);
      assert !(x in UnarmedOnArrival(cb) || s.At(x).armed.r || s.At(x.Peer()).armed.w);
    }
  }

  lemma HealthyIsAwake(s: Relay, down: set<Side>)
    requires Healthy(s, down)
    ensures Awake(s, down)
  {
  }

  ghost predicate Dead(s: Relay) {
    s.client.armed == OP_NOOP && !s.origin.registered && s.origin.armed == OP_NOOP
  }

  /**
   * Without a slot for the origin, data that is pending on arrival is never sent, as no event can come;
   * and with nothing pending one event can come, from the client: it fails the relay if it brings data, and
   * leaves it waiting for nothing otherwise.
   */
  lemma {:induction false} UnregisteredStalls(cb: Buf, ob: Buf, evs: seq<Event>)
    requires cb.Ok() && ob.Ok() && cb.cap > 0 && ob.cap > 0 && ob.bytes == []
    requires var s := Arrival(cb, ob, true, false); Run(s, evs) && DispatchedRun(s, evs)
    ensures cb.bytes != [] ==> evs == []
    ensures |evs| <= 1 && (|evs| == 1 ==> Transfers(evs[0]) || Down(UnarmedOnArrival(cb), evs) == {Client})
    ensures |evs| == 1 ==> VerdictOf(Arrival(cb, ob, true, false), evs) == if Transfers(evs[0]) then ERROR else COPY
    ensures cb.bytes != [] || (|evs| == 1 && !Transfers(evs[0])) ==> Dead(After(Arrival(cb, ob, true, false), evs))
  {
    var s := Arrival(cb, ob, true, false);
    if evs != [] {
      UnregisteredStalls(cb, ob, Init(evs));
      UnregisteredEvent(cb, ob, Last(evs));
      assert After(s, []) == s;
    }
  }

  /** The only event that an arrival without a slot for the origin can meet. */
  lemma UnregisteredEvent(cb: Buf, ob: Buf, ev: Event)
    requires cb.Ok() && ob.Ok() && cb.cap > 0 && ob.cap > 0 && ob.bytes == []
    ensures var s := Arrival(cb, ob, true, false);
            Possible(s, ev) && Dispatched(s, ev) ==>
              && cb.bytes == [] && ev.Readable? && ev.x == Client
              && Step(s, ev).1 == (if Transfers(ev) then ERROR else COPY)
              && (!Transfers(ev) ==> Dead(Step(s, ev).0))
  {
  }

  /**
   * The relay reports DONE exactly when both directions have failed since anything last moved, and an
   * error exactly when something moved without a slot for the origin.
   */
  lemma DoneExactlyWhenBothDown(cb: Buf, ob: Buf, registered: bool, evs: seq<Event>)
    requires cb.Ok() && ob.Ok() && cb.cap > 0 && ob.cap > 0 && ob.bytes == []
    requires evs != []
    requires var s := Arrival(cb, ob, true, registered); Run(s, evs) && DispatchedRun(s, evs)
    ensures var v := VerdictOf(Arrival(cb, ob, true, registered), evs);
            && (v == DONE <==> Down(UnarmedOnArrival(cb), evs) == {Client, Origin})
            && (v == ERROR <==> !registered && Transfers(Last(evs)))
  {
    var s, down := Arrival(cb, ob, true, registered), Down(UnarmedOnArrival(cb), evs);
    if registered {
      RunKeepsHealthy(cb, ob, Init(evs));
      StepKeepsHealthy(After(s, Init(evs)), Last(evs), Down(UnarmedOnArrival(cb), Init(evs)));
    } else {
      UnregisteredStalls(cb, ob, evs);
      assert down == {} || down == {Client};
      assert Origin !in down;
    }
  }

  // ----- the handlers -----

  /** `struct copy_st`, with the interest held by the selector slot of its descriptor. */
  class CopySt {
    var buffer: Buffer
    var interests: Interest
    var other: CopySt?
    var armed: Interest
    var registered: bool
    ghost var sent: seq<byte>

    constructor (buffer: Buffer, registered: bool)
      ensures this.buffer == buffer && this.registered == registered && this.armed == OP_NOOP
    {
      this.buffer := buffer;
      this.registered := registered;
      interests, armed, other, sent := OP_NOOP, OP_NOOP, null, [];
    }

    ghost function View(): End
      requires buffer.Valid()
      reads this, buffer, buffer.data
    {
      End(buffer.View(), interests, armed, registered, sent)
    }

    /** This endpoint and `peer` point at each other and share no storage. */
    ghost predicate Linked(peer: CopySt)
      reads this, peer, buffer, peer.buffer
    {
      && this != peer && other == peer && peer.other == this
      && buffer != peer.buffer && buffer.data != peer.buffer.data
      && buffer.Valid() && peer.buffer.Valid()
    }

    /** `selector_set_interest` on this endpoint's descriptor. */
    method SetInterest(i: Interest) returns (ok: bool)
      modifies this`armed
      ensures ok == registered && armed == if registered then i else old(armed)
    {
      if registered {
        armed := i;
      }
      ok := registered;
    }

    method StopReading()
      requires buffer.Valid()
      modifies this`interests, this`armed
      ensures View() == NoRead(old(View()))
    {
      interests := interests.(r := false);
      var _ := SetInterest(interests);
    }

    method StopWriting()
      requires buffer.Valid()
      modifies this`interests, this`armed
      ensures View() == NoWrite(old(View()))
    {
      interests := interests.(w := false);
      var _ := SetInterest(interests);
    }

    /** An endpoint can read if its peer's buffer has space, and write if its own has data. */
    method InterestsFor(peer: CopySt) returns (i: Interest)
      requires buffer.Valid() && peer.buffer.Valid()
      ensures i == Wanted(View(), peer.View())
    {
      i := OP_NOOP;
      var room := peer.buffer.CanWrite();
      if room {
        i := i.(r := true);
      }
      var data := buffer.CanRead();
      if data {
        i := i.(w := true);
      }
    }

    method UpdateTargetInterests(ghost peer: CopySt) returns (ok: bool)
      requires Linked(peer)
      modifies this, peer
      ensures Linked(peer) && buffer == old(buffer) && peer.buffer == old(peer.buffer)
      ensures var p := Refresh(old(View()), old(peer.View()));
              && View() == p.me && peer.View() == p.peer
              && (ok <==> p.verdict != ERROR)
    {
      var ret := InterestsFor(other);
      var oet := other.InterestsFor(this);
      ok := SetInterest(ret);
      if ok {
        ok := other.SetInterest(oet);
      }
      if ok {
        interests := ret;
        other.interests := oet;
      }
    }

    /** What was just stored behind the peer's write index becomes readable, and both ends are re-armed. */
    method TakeIn(ghost peer: CopySt, n: nat, ghost d: seq<byte>) returns (ok: bool)
      requires Linked(peer) && 0 < n == |d| <= peer.buffer.View().Room()
      requires peer.buffer.data[peer.buffer.write..peer.buffer.write + n] == d
      modifies this, peer, peer.buffer
      ensures Linked(peer) && buffer == old(buffer) && peer.buffer == old(peer.buffer)
      ensures var p := Refresh(old(View()), old(peer.View()).(buf := old(peer.View()).buf.Fill(d)));
              && View() == p.me && peer.View() == p.peer
              && (ok <==> p.verdict != ERROR)
    {
      other.buffer.WriteAdv(n);
      ok := UpdateTargetInterests(peer);
    }

    method CopyRead(ghost peer: CopySt, recv: Recv) returns (v: State)
      requires Linked(peer) && Fits(peer.buffer.View(), recv)
      modifies this, peer, peer.buffer, peer.buffer.data
      ensures Linked(peer) && buffer == old(buffer) && peer.buffer == old(peer.buffer)
      ensures Pair(View(), peer.View(), v) == ReadFrom(old(View()), old(peer.View()), recv)
    {
      var to := other;
      var room := to.buffer.CanWrite();
      if !room {
        return COPY;
      }
      var readBytes := to.buffer.Deposit(recv);
      assert to.View() == old(peer.View()) && View() == old(View());
      if readBytes > 0 {
        var ok := TakeIn(peer, readBytes, recv.data);
        if !ok {
          return ERROR;
        }
      } else {
        StopReading();
        to.StopWriting();
      }
      v := if interests == OP_NOOP && to.interests == OP_NOOP then DONE else COPY;
    }

    method CopyWrite(ghost peer: CopySt, n: int) returns (v: State)
      requires Linked(peer) && n <= |buffer.View().bytes|
      modifies this, peer, buffer, buffer.data
      ensures Linked(peer) && buffer == old(buffer) && peer.buffer == old(peer.buffer)
      ensures Pair(View(), peer.View(), v) == WriteTo(old(View()), old(peer.View()), n)
    {
      var any := buffer.CanRead();
      if !any {
        return COPY;
      }
      if n > 0 {
        sent := sent + buffer.View().bytes[..n];
        buffer.ReadAdv(n);
        var ok := UpdateTargetInterests(peer);
        if !ok {
          return ERROR;
        }
      } else {
        StopWriting();
        other.StopReading();
      }
      v := if interests == OP_NOOP && other.interests == OP_NOOP then DONE else COPY;
    }
  }

  /** The part of a connection that the COPY state works on. */
  class Connection {
    const clientBuffer: Buffer
    const originBuffer: Buffer
    const client: CopySt
    const origin: CopySt

    constructor (clientBuffer: Buffer, originBuffer: Buffer, client: CopySt, origin: CopySt)
      ensures this.clientBuffer == clientBuffer && this.originBuffer == originBuffer
      ensures this.client == client && this.origin == origin
    {
      this.clientBuffer, this.originBuffer := clientBuffer, originBuffer;
      this.client, this.origin := client, origin;
    }

    ghost predicate Valid()
      reads this, client, origin, client.buffer, origin.buffer
    {
      client.Linked(origin) && client.buffer == originBuffer && origin.buffer == clientBuffer
    }

    ghost function View(): Relay
      requires Valid()
      reads this, client, origin, client.buffer, origin.buffer, client.buffer.data, origin.buffer.data
    {
      Relay(client.View(), origin.View())
    }

    /** The buffers are swapped on purpose: an endpoint holds the buffer of bytes to send to it. */
    method CopyArrival()
      requires client != origin && clientBuffer != originBuffer && clientBuffer.data != originBuffer.data
      requires clientBuffer.Valid() && originBuffer.Valid()
      requires client.registered || client.armed == OP_NOOP
      requires origin.registered || origin.armed == OP_NOOP
      modifies client, origin
      ensures Valid()
      ensures View() == Arrival(clientBuffer.View(), originBuffer.View(), old(client.registered), old(origin.registered))
    {
      client.buffer := originBuffer;
      origin.buffer := clientBuffer;
      origin.other := client;
      client.other := origin;
      client.sent, origin.sent := [], [];
      var toWriteToOrigin := origin.buffer.ReadCount();
      origin.interests := if toWriteToOrigin > 0 then OP_WRITE else OP_READ;
      client.interests := OP_READ;
      var _ := origin.SetInterest(origin.interests);
      var _ := client.SetInterest(if toWriteToOrigin > 0 then OP_NOOP else client.interests);
    }

    /** One readiness event, handed to the endpoint whose descriptor it names. */
    method Handle(ev: Event) returns (v: State)
      requires Valid() && Possible(View(), ev)
      modifies client, origin, clientBuffer, originBuffer, clientBuffer.data, originBuffer.data
      ensures Valid() && View() == Step(old(View()), ev).0 && v == Step(old(View()), ev).1
    {
      var from, to := client, origin;
      if ev.x == Origin {
        from, to := origin, client;
      }
      match ev {
        case Readable(_, recv) => v := from.CopyRead(to, recv);
        case Writable(_, n) => v := from.CopyWrite(to, n);
      }
    }
  }
}
