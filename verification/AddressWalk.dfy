/**
 * The walk over the addresses a name resolved to: recursive while addresses fail at once,
 * continued by the CONNECT state when a pending connection fails later.
 */
module AddressWalks {
  import opened Bytes
  import opened Protocol
  import opened Replies

  datatype Errno = ENETUNREACH | EHOSTUNREACH | ECONNREFUSED | ETIMEDOUT | OTHER_ERRNO

  /** What happens when one address is tried; `fd` is the descriptor that `socket` gave. */
  datatype Attempt =
    | NoSocket
    | NoNonBlocking(fd: nat)
    | Connected(fd: nat)
    | InProgress(fd: nat, registers: bool)
    | Failed(fd: nat, errno: Errno)

  /** How a walk ends; `NullDereference` is the walk stepping off the end of the list. */
  datatype Ending = ConnectionDone | ConnectionInProgress | RegisterFailed | GaveUp(errno: Errno) | NullDereference

  /** The ending of a walk that returned to its caller. */
  type Returned = e: Ending | !e.NullDereference? witness ConnectionDone

  /** The socket came up, so `connect` was called. */
  predicate Tried(o: Attempt) {
    !o.NoSocket? && !o.NoNonBlocking?
  }

  /** The address is given up and the next one taken; a failed `connect` on the last address is not. */
  predicate MovesOn(o: Attempt, last: bool) {
    !Tried(o) || (o.Failed? && !last)
  }

  function EndingOf(o: Attempt): (e: Ending)
    requires Tried(o)
    ensures e != NullDereference
  {
    match o
    case Connected(_) => ConnectionDone
    case InProgress(_, registers) => if registers then ConnectionInProgress else RegisterFailed
    case Failed(_, errno) => GaveUp(errno)
  }

  /**
   * A connection's addresses: those left, the current one first, and those passed, in order, with
   * the ones `connect` was called for; the origin's descriptor, or -1, and whether it has a selector slot.
   */
  datatype Walk<A> = Walk(left: seq<A>, passed: seq<A>, tried: seq<A>, fd: int, registered: bool)

  function Next<A>(w: Walk<A>): Walk<A>
    requires w.left != []
  {
    w.(left := w.left[1..], passed := w.passed + [w.left[0]])
  }

  /** The current address is tried: a descriptor that is given up is closed. */
  function Note<A>(w: Walk<A>, o: Attempt): Walk<A>
    requires w.left != []
  {
    var w' := if Tried(o) then w.(tried := w.tried + [w.left[0]]) else w;
    w'.(fd := if MovesOn(o, |w.left| == 1) then -1 else o.fd, registered := o.InProgress? && o.registers)
  }

  /** `try_connection`, the outcomes of the addresses left being `outs`. */
  function WalkOn<A>(w: Walk<A>, outs: seq<Attempt>): (Walk<A>, Ending)
    requires |outs| == |w.left|
    decreases |w.left|
  {
    if w.left == [] then (w, NullDereference)
    else if MovesOn(outs[0], |w.left| == 1) then WalkOn(Next(Note(w, outs[0])), outs[1..])
    else (Note(w, outs[0]), EndingOf(outs[0]))
  }

  // ----- what the client is told -----

  const GENERAL_FAILURE := 0
  const SELECTOR_REGISTER_FAILED := 1
  const CONNECTION_IN_PROGRESS := 2
  const CONNECTION_DONE := 3

  const SERVER_FAILURE: byte := 0x01
  const NETWORK_UNREACHABLE: byte := 0x03
  const HOST_UNREACHABLE: byte := 0x04
  const CONNECTION_REFUSED: byte := 0x05
  const TTL_EXPIRED: byte := 0x06

  /** The reply codes that double as results of the walk. */
  predicate IsUnreachable(ret: int) {
    ret == NETWORK_UNREACHABLE as int || ret == HOST_UNREACHABLE as int
    || ret == CONNECTION_REFUSED as int || ret == TTL_EXPIRED as int
  }

  /** The value that `try_connection` returns. */
  function ResultOf(e: Returned): int {
    match e
    case ConnectionDone => CONNECTION_DONE
    case ConnectionInProgress => CONNECTION_IN_PROGRESS
    case RegisterFailed => SELECTOR_REGISTER_FAILED
    case GaveUp(ENETUNREACH) => NETWORK_UNREACHABLE as int
    case GaveUp(EHOSTUNREACH) => HOST_UNREACHABLE as int
    case GaveUp(ECONNREFUSED) => CONNECTION_REFUSED as int
    case GaveUp(ETIMEDOUT) => TTL_EXPIRED as int
    case GaveUp(OTHER_ERRNO) => GENERAL_FAILURE
  }

  /** The switch both callers make on that value: the code to reply with, unless the connection is in progress. */
  function ReplyTo(ret: int): Option<byte> {
    if ret == GENERAL_FAILURE || ret == SELECTOR_REGISTER_FAILED then Some(SERVER_FAILURE)
    else if IsUnreachable(ret) then Some(ret as byte)
    else if ret == CONNECTION_IN_PROGRESS then None
    else Some(SUCCEDED)
  }

  /**
   * No walk is reported as a success: `CONNECTION_DONE` and `NETWORK_UNREACHABLE` are the same number,
   * so an address that connects at once is answered as an unreachable network.
   */
  lemma NoWalkSucceeds(e: Returned)
    ensures ReplyTo(ResultOf(e)) != Some(SUCCEDED)
    ensures ReplyTo(ResultOf(e)) == None <==> e == ConnectionInProgress
    ensures ReplyTo(ResultOf(ConnectionDone)) == ReplyTo(ResultOf(GaveUp(ENETUNREACH)))
  {
  }

  /**
   * What `getsockopt` says of a pending connection: that it failed itself, that no error is pending on the
   * socket, or which one is. A connection still in progress has none either.
   */
  datatype Pending = Unknown | NoError | Broken(optVal: int)

  /**
   * The code when the last address broke. The error is compared with reply codes, and what is replied
   * on a match is the 0 that `getsockopt` returned.
   */
  function LastReply(optVal: int): byte {
    if IsUnreachable(optVal) then SUCCEDED else SERVER_FAILURE
  }

  /** What the CONNECT state does then: answers the client, waits for another address, or walks off the list. */
  datatype Verdict = Answers(rep: byte) | Waits | Crashes

  function VerdictOf(e: Ending): Verdict {
    if e == NullDereference then Crashes
    else
      var rep := ReplyTo(ResultOf(e));
      if rep == None then Waits else Answers(rep.value)
  }

  /** `connect_to_dest`: the walk is begun, if there is anything to walk to. */
  function Connect<A>(w: Walk<A>, outs: seq<Attempt>): (Walk<A>, Verdict)
    requires |outs| == |w.left|
  {
    if w.left == [] then (w, Answers(SERVER_FAILURE))
    else
      var (w', e) := WalkOn(w, outs);
      (w', VerdictOf(e))
  }

  /** `connect_write`. A broken connection is closed and loses its slot first. */
  function Resume<A>(w: Walk<A>, p: Pending, outs: seq<Attempt>): (Walk<A>, Verdict)
    requires w.left != [] && |outs| == |w.left| - 1
  {
    match p
    case Unknown => (w, Answers(SERVER_FAILURE))
    case NoError => (w, Answers(SUCCEDED))
    case Broken(optVal) =>
      var closed := w.(fd := -1, registered := false);
      if |w.left| == 1 then (closed, Answers(LastReply(optVal)))
      else
        var (w', e) := WalkOn(Next(closed), outs);
        (w', VerdictOf(e))
  }

  // ----- one walk -----

  /** Nothing is skipped, repeated or reordered, and nothing beyond the current address was tried. */
  ghost predicate InOrder<A>(w: Walk<A>, all: seq<A>) {
    w.passed + w.left == all
  }

  lemma {:induction false} WalkKeepsOrder<A>(w: Walk<A>, outs: seq<Attempt>, all: seq<A>)
    requires |outs| == |w.left| && InOrder(w, all)
    ensures InOrder(WalkOn(w, outs).0, all)
    ensures |WalkOn(w, outs).0.left| <= |w.left|
    decreases |w.left|
  {
    if w.left != [] && MovesOn(outs[0], |w.left| == 1) {
      var w' := Next(Note(w, outs[0]));
      assert w'.passed + w'.left == w.passed + ([w.left[0]] + w.left[1..]);
      WalkKeepsOrder(w', outs[1..], all);
    }
  }

  /** With every socket coming up, everything passed was tried, and the current address too. */
  lemma {:induction false} WalkTriesAll<A>(w: Walk<A>, outs: seq<Attempt>)
    requires |outs| == |w.left| && w.left != []
    requires forall i :: 0 <= i < |outs| ==> Tried(outs[i])
    requires w.tried == w.passed
    ensures var (w', e) := WalkOn(w, outs);
            w'.left != [] && w'.tried == w'.passed + [w'.left[0]] && e != NullDereference
    decreases |w.left|
  {
    if MovesOn(outs[0], |w.left| == 1) {
      WalkTriesAll(Next(Note(w, outs[0])), outs[1..]);
    }
  }

  /**
   * The origin has a selector slot after a walk exactly if a connection is pending, and an open
   * descriptor exactly if the walk stayed on the list.
   */
  lemma {:induction false} SlotExactlyWhenPending<A>(w: Walk<A>, outs: seq<Attempt>)
    requires |outs| == |w.left| && (w.left == [] ==> w.fd == -1 && !w.registered)
    ensures var (w', e) := WalkOn(w, outs);
            && (w'.registered <==> e == ConnectionInProgress)
            && (w'.fd != -1 <==> e != NullDereference)
    decreases |w.left|
  {
    if w.left != [] && MovesOn(outs[0], |w.left| == 1) {
      SlotExactlyWhenPending(Next(Note(w, outs[0])), outs[1..]);
    }
  }

  /**
   * The walk steps off the end exactly when the last address gets no usable socket and nothing
   * before it ends the walk.
   */
  lemma {:induction false} OffTheEndExactlyWhen<A>(w: Walk<A>, outs: seq<Attempt>)
    requires |outs| == |w.left|
    ensures WalkOn(w, outs).1 == NullDereference <==>
              (outs != [] ==> !Tried(outs[|outs| - 1])) && forall i :: 0 <= i < |outs| ==> !Tried(outs[i]) || outs[i].Failed?
    decreases |w.left|
  {
    if w.left != [] {
      if MovesOn(outs[0], |w.left| == 1) {
        OffTheEndExactlyWhen(Next(Note(w, outs[0])), outs[1..]);
        assert forall i :: 0 < i < |outs| ==> outs[i] == outs[1..][i - 1];
        assert |outs| > 1 ==> outs[1..][|outs| - 2] == outs[|outs| - 1];
      } else {
        assert |outs| == 1 || !outs[0].Failed?;
      }
    }
  }

  // ----- the whole life of a connection attempt -----

  /** One later event in the CONNECT state, with the outcomes of the addresses it may go on to. */
  datatype Retry = Retry(p: Pending, outs: seq<Attempt>)

  /** Events arrive only while a connection is pending. */
  ghost predicate Run<A>(w: Walk<A>, pending: bool, retries: seq<Retry>)
    decreases retries
  {
    retries != [] ==>
      && pending && w.left != [] && |retries[0].outs| == |w.left| - 1
      && var (w', v) := Resume(w, retries[0].p, retries[0].outs);
         Run(w', v.Waits?, retries[1..])
  }

  ghost function After<A>(w: Walk<A>, pending: bool, retries: seq<Retry>): Walk<A>
    requires Run(w, pending, retries)
    decreases retries
  {
    if retries == [] then w
    else
      var (w', v) := Resume(w, retries[0].p, retries[0].outs);
      After(w', v.Waits?, retries[1..])
  }

  /** The number of times the walk was taken up again. */
  ghost function Resumed<A>(w: Walk<A>, pending: bool, retries: seq<Retry>): nat
    requires Run(w, pending, retries)
    decreases retries
  {
    if retries == [] then 0
    else
      var (w', v) := Resume(w, retries[0].p, retries[0].outs);
      (if w'.left != w.left then 1 else 0) + Resumed(w', v.Waits?, retries[1..])
  }

  ghost predicate AllTried(retries: seq<Retry>) {
    forall i, j :: 0 <= i < |retries| && 0 <= j < |retries[i].outs| ==> Tried(retries[i].outs[j])
  }

  /** With sockets coming up: everything passed was tried, and so was the current address. */
  ghost predicate TriedThrough<A>(w: Walk<A>) {
    w.left != [] && w.tried == w.passed + [w.left[0]]
  }

  lemma ResumeKeeps<A>(w: Walk<A>, p: Pending, outs: seq<Attempt>, all: seq<A>)
    requires w.left != [] && |outs| == |w.left| - 1 && InOrder(w, all)
    ensures var (w', v) := Resume(w, p, outs);
            && InOrder(w', all)
            && (w'.left == w.left || |w'.left| < |w.left|)
            && (TriedThrough(w) && (forall j :: 0 <= j < |outs| ==> Tried(outs[j])) ==> TriedThrough(w'))
  {
    if p.Broken? && |w.left| > 1 {
      var next := Next(w.(fd := -1, registered := false));
      assert next.passed + next.left == w.passed + ([w.left[0]] + w.left[1..]);
      WalkKeepsOrder(next, outs, all);
      if TriedThrough(w) && forall j :: 0 <= j < |outs| ==> Tried(outs[j]) {
        WalkTriesAll(next, outs);
      }
    }
  }

  lemma {:induction false} RunKeeps<A>(w: Walk<A>, pending: bool, retries: seq<Retry>, all: seq<A>)
    requires Run(w, pending, retries) && InOrder(w, all)
    ensures InOrder(After(w, pending, retries), all)
    ensures |After(w, pending, retries).left| + Resumed(w, pending, retries) <= |w.left|
    ensures TriedThrough(w) && AllTried(retries) ==> TriedThrough(After(w, pending, retries))
    decreases retries
  {
    if retries != [] {
      var r := retries[0];
      var (w', v) := Resume(w, r.p, r.outs);
      ResumeKeeps(w, r.p, r.outs, all);
      assert AllTried(retries) ==> AllTried(retries[1..]) by {
        assert forall i :: 0 <= i < |retries| - 1 ==> retries[1..][i] == retries[i + 1];
      }
      RunKeeps(w', v.Waits?, retries[1..], all);
    }
  }

  /** A fresh connection to the addresses of a resolution. */
  function Fresh<A>(all: seq<A>): Walk<A> {
    Walk(all, [], [], -1, false)
  }

  /**
   * From the first call through every retry: the addresses tried are a prefix of the resolution list,
   * in its order and each once, ending with the current one, and the walk is taken up again at most
   * once for each address after the first.
   */
  lemma AttemptsAreAPrefix<A>(all: seq<A>, outs: seq<Attempt>, retries: seq<Retry>)
    requires all != [] && |outs| == |all|
    requires var (w, e) := WalkOn(Fresh(all), outs); Run(w, e == ConnectionInProgress, retries)
    requires AllTried(retries) && forall i :: 0 <= i < |outs| ==> Tried(outs[i])
    ensures var (w, e) := WalkOn(Fresh(all), outs);
            var r := After(w, e == ConnectionInProgress, retries);
            && r.tried <= all && |r.tried| + |r.left| == |all| + 1
            && Resumed(w, e == ConnectionInProgress, retries) <= |all| - |r.left| <= |all| - 1
  {
    var start := Fresh(all);
    assert [] + all == all;
    WalkKeepsOrder(start, outs, all);
    WalkTriesAll(start, outs);
    var (w, e) := WalkOn(start, outs);
    RunKeeps(w, e == ConnectionInProgress, retries, all);
    TriedIsPrefix(After(w, e == ConnectionInProgress, retries), all);
  }

  lemma TriedIsPrefix<A>(w: Walk<A>, all: seq<A>)
    requires InOrder(w, all) && w.left != [] && w.tried == w.passed + [w.left[0]]
    ensures w.tried <= all && |w.tried| + |w.left| == |all| + 1
  {
    assert w.passed + w.left == (w.passed + [w.left[0]]) + w.left[1..];
  }

  // ----- success -----

  /**
   * The connection's own part: after any walk and any retries, a success is only replied for a pending
   * connection with no error on its socket, which keeps its descriptor and its slot, or for a last address
   * that broke, which has neither.
   */
  lemma SuccessMeansSlot<A>(w: Walk<A>, p: Pending, outs: seq<Attempt>)
    requires w.left != [] && |outs| == |w.left| - 1 && w.registered && w.fd != -1
    ensures var (w', v) := Resume(w, p, outs);
            && (v == Answers(SUCCEDED) <==> p == NoError || (p.Broken? && |w.left| == 1 && IsUnreachable(p.optVal)))
            && (v == Answers(SUCCEDED) ==> if p == NoError then w'.registered && w'.fd == w.fd else w'.fd == -1)
            && (v == Waits ==> w'.registered && w'.fd != -1)
  {
    if p.Broken? && |w.left| > 1 {
      var next := Next(w.(fd := -1, registered := false));
      SlotExactlyWhenPending(next, outs);
      var (_, e) := WalkOn(next, outs);
      if e != NullDereference {
        NoWalkSucceeds(e);
      }
    }
  }

  // ----- the connection -----

  class Origin<A> {
    /** The descriptor of the origin, or -1. */
    var originFd: int
    /** The addresses left; the empty list is the null pointer. */
    var resolution: seq<A>
    /** Whether the origin's descriptor has a selector slot, and the interests of both slots. */
    var registered: bool
    var armed: Interest
    var clientArmed: Interest
    /** The code to reply with. */
    var rep: byte
    ghost var passed: seq<A>
    ghost var tried: seq<A>

    constructor (resolution: seq<A>)
      ensures View() == Fresh(resolution)
    {
      originFd, registered := -1, false;
      armed, clientArmed, rep := OP_NOOP, OP_READ, SUCCEDED;
      this.resolution := resolution;
      passed, tried := [], [];
    }

    ghost function View(): Walk<A>
      reads this
    {
      Walk(resolution, passed, tried, originFd, registered)
    }

    method GetNextResolution()
      requires resolution != []
      modifies this`resolution, this`passed
      ensures View() == Next(old(View()))
    {
      passed := passed + [resolution[0]];
      resolution := resolution[1..];
    }

    /** A descriptor that did not work out is closed, and so has no slot. */
    method CloseOrigin()
      modifies this`originFd, this`registered
      ensures originFd == -1 && !registered
    {
      originFd := -1;
      registered := false;
    }

    method TryConnection(outs: seq<Attempt>) returns (e: Ending)
      requires |outs| == |resolution|
      modifies this`originFd, this`resolution, this`registered, this`armed, this`passed, this`tried
      ensures (View(), e) == WalkOn(old(View()), outs)
      ensures e == ConnectionInProgress ==> armed == OP_WRITE
      decreases |resolution|
    {
      if resolution == [] {
        return NullDereference;
      }
      var o := outs[0];
      if o.NoSocket? {
        CloseOrigin();
        GetNextResolution();
        e := TryConnection(outs[1..]);
        return;
      }
      originFd, registered := o.fd, false;
      if o.NoNonBlocking? {
        CloseOrigin();
        GetNextResolution();
        e := TryConnection(outs[1..]);
        return;
      }
      tried := tried + [resolution[0]];
      if o.Connected? {
        return ConnectionDone;
      } else if o.InProgress? {
        if !o.registers {
          return RegisterFailed;
        }
        registered, armed := true, OP_WRITE;
        return ConnectionInProgress;
      }
      if |resolution| > 1 {
        CloseOrigin();
        GetNextResolution();
        e := TryConnection(outs[1..]);
        return;
      }
      e := GaveUp(o.errno);
    }

    /** Without a slot, setting the interest of the origin's descriptor changes nothing. */
    method Succeed()
      modifies this`armed, this`rep
      ensures rep == SUCCEDED && armed == if registered then OP_NOOP else old(armed)
    {
      if registered {
        armed := OP_NOOP;
      }
      rep := SUCCEDED;
    }

    method ConnectToDest(outs: seq<Attempt>) returns (v: Verdict)
      requires |outs| == |resolution|
      modifies this
      ensures (View(), v) == Connect(old(View()), outs)
      ensures v != Crashes ==> clientArmed == OP_WRITE
      ensures rep == if v.Answers? then v.rep else old(rep)
      ensures v == Waits ==> armed == OP_WRITE
    {
      if resolution == [] {
        rep := SERVER_FAILURE;
        clientArmed := OP_WRITE;
        return Answers(rep);
      }
      var e := TryConnection(outs);
      if e == NullDereference {
        return Crashes;
      }
      var code := ReplyTo(ResultOf(e));
      clientArmed := OP_WRITE;
      if code == None {
        return Waits;
      }
      rep := code.value;
      v := Answers(rep);
    }

    method ConnectWrite(p: Pending, outs: seq<Attempt>) returns (v: Verdict)
      requires resolution != [] && |outs| == |resolution| - 1
      modifies this
      ensures (View(), v) == Resume(old(View()), p, outs)
      ensures v.Answers? ==> rep == v.rep && clientArmed == OP_WRITE
      ensures !v.Answers? ==> rep == old(rep) && clientArmed == old(clientArmed)
      ensures v == Waits ==> armed == OP_WRITE
      ensures v == Answers(SUCCEDED) && registered ==> armed == OP_NOOP
    {
      if p == Unknown {
        rep := SERVER_FAILURE;
      } else if p.Broken? {
        CloseOrigin();
        if |resolution| == 1 {
          rep := LastReply(p.optVal);
          clientArmed := OP_WRITE;
          return Answers(rep);
        }
        GetNextResolution();
        var e := TryConnection(outs);
        if e == NullDereference {
          return Crashes;
        }
        var code := ReplyTo(ResultOf(e));
        if code == None {
          return Waits;
        }
        NoWalkSucceeds(e);
        rep := code.value;
      } else {
        Succeed();
      }
      clientArmed := OP_WRITE;
      v := Answers(rep);
    }
  }
}
