/** One round of dispatch: callbacks run for what `select` reported, while they change the table. */
module Dispatches {
  import opened Bytes
  import opened Protocol
  import opened Selectors

  datatype Kind = Read | Write

  /** A callback: whom it ran for, with which attachment, and the selector at that instant. */
  datatype Call = Call(fd: int, kind: Kind, handler: nat, data: nat, at: Sel)

  /** What `select` reported. */
  datatype Snapshot = Snapshot(r: set<int>, w: set<int>)

  /** The operations each callback makes, callback by callback; none once they run out. */
  type Script = seq<seq<Op>>

  function Ops(script: Script): seq<Op> {
    if script == [] then [] else script[0]
  }

  function Rest(script: Script): Script {
    if script == [] then [] else script[1..]
  }

  // ----- the round -----

  /** The selector, the callbacks run so far, and the operations still to come. */
  datatype Round = Round(s: Sel, calls: seq<Call>, script: Script)

  ghost function Callback(d: Round, fd: int, kind: Kind, handler: nat, data: nat): (e: Round)
    requires Good(d.s)
    ensures Good(e.s) && |e.s.slots| == |d.s.slots|
  {
    Round(Apply(d.s, Ops(d.script)), d.calls + [Call(fd, kind, handler, data, d.s)], Rest(d.script))
  }

  /** The read half of slot `i`'s turn. */
  ghost function ReadHalf(d: Round, i: nat, snap: Snapshot): (e: Round)
    requires Good(d.s) && i < |d.s.slots|
    ensures Good(e.s) && |e.s.slots| == |d.s.slots|
  {
    var it := d.s.slots[i];
    if it.fd in snap.r && it.interest.r then Callback(d, it.fd, Read, it.handler, it.data) else d
  }

  /** The write half: the slot is looked at again, but the key keeps the descriptor and attachment of the turn's start. */
  ghost function WriteHalf(d: Round, i: nat, fd: int, data: nat, snap: Snapshot): (e: Round)
    requires Good(d.s) && i < |d.s.slots|
    ensures Good(e.s) && |e.s.slots| == |d.s.slots|
  {
    var it := d.s.slots[i];
    if i in snap.w && it.interest.w then Callback(d, fd, Write, it.handler, data) else d
  }

  ghost function Turn(d: Round, i: nat, snap: Snapshot): (e: Round)
    requires Good(d.s) && i < |d.s.slots|
    ensures Good(e.s) && |e.s.slots| == |d.s.slots|
  {
    var it := d.s.slots[i];
    if !it.Used() then d else WriteHalf(ReadHalf(d, i, snap), i, it.fd, it.data, snap)
  }

  /** The first `n` turns of a round on `s`. */
  ghost function Turns(s: Sel, n: nat, snap: Snapshot, script: Script): (d: Round)
    requires Good(s) && n <= |s.slots|
    ensures Good(d.s) && |d.s.slots| == |s.slots|
  {
    if n == 0 then Round(s, [], script) else Turn(Turns(s, n - 1, snap, script), n - 1, snap)
  }

  // ----- safety -----

  /**
   * The callback ran for a descriptor in the snapshot that is registered at that instant, with that
   * interest and that handler; a read callback also gets the attachment registered at that instant.
   */
  ghost predicate Justified(c: Call, snap: Snapshot) {
    var m := TableOf(c.at);
    && c.fd in (if c.kind == Read then snap.r else snap.w)
    && c.fd in m && (if c.kind == Read then m[c.fd].interest.r else m[c.fd].interest.w)
    && c.handler == m[c.fd].handler
    && (c.kind == Read ==> c.data == m[c.fd].data)
  }

  /** A slot that is not in use asks for nothing. */
  ghost predicate Silent(s: Sel, i: nat)
    requires i < |s.slots|
  {
    !s.slots[i].Used() ==> s.slots[i].interest == OP_NOOP
  }

  lemma {:induction false} RunKeepsSilent(s: Sel, ops: seq<Op>, i: nat)
    requires Good(s) && i < |s.slots| && Silent(s, i)
    ensures i < |Run(s, ops).0.slots| && Silent(Run(s, ops).0, i)
    decreases ops
  {
    if ops != [] {
      StepRefines(s, ops[0]);
      RunKeepsSilent(Step(s, ops[0]).0, ops[1..], i);
    }
  }

  lemma TurnIsJustified(d: Round, i: nat, snap: Snapshot)
    requires Good(d.s) && i < |d.s.slots|
    requires forall c <- d.calls :: Justified(c, snap)
    ensures forall c <- Turn(d, i, snap).calls :: Justified(c, snap)
  {
    var it := d.s.slots[i];
    if it.Used() {
      RunKeepsSilent(d.s, Ops(d.script), i);
    }
  }

  /** Whatever the callbacks do to the table, every callback of a round is justified when it runs. */
  lemma {:induction false} EveryCallIsJustified(s: Sel, n: nat, snap: Snapshot, script: Script)
    requires Good(s) && n <= |s.slots|
    ensures forall c <- Turns(s, n, snap, script).calls :: Justified(c, snap)
  {
    if n > 0 {
      EveryCallIsJustified(s, n - 1, snap, script);
      TurnIsJustified(Turns(s, n - 1, snap, script), n - 1, snap);
    }
  }

  // ----- once each, in order -----

  ghost predicate Precedes(a: Call, b: Call) {
    a.fd < b.fd || (a.fd == b.fd && a.kind == Read && b.kind == Write)
  }

  ghost predicate Ordered(calls: seq<Call>, n: nat) {
    && (forall c <- calls :: 0 <= c.fd < n)
    && (forall i, j :: 0 <= i < j < |calls| ==> Precedes(calls[i], calls[j]))
  }

  lemma OneMoreOrdered(calls: seq<Call>, n: nat, m: nat, c: Call)
    requires Ordered(calls, n) && n <= m && c.fd < m
    requires c.fd == n || (c.fd == n - 1 && c.kind == Write && forall e <- calls :: e.fd == c.fd ==> e.kind == Read)
    requires 0 <= c.fd
    ensures Ordered(calls + [c], m)
  {
  }

  lemma TurnIsOrdered(d: Round, i: nat, snap: Snapshot)
    requires Good(d.s) && i < |d.s.slots| && Ordered(d.calls, i)
    ensures Ordered(Turn(d, i, snap).calls, i + 1)
  {
    var it := d.s.slots[i];
    if it.Used() {
      var mid := ReadHalf(d, i, snap);
      if mid.calls != d.calls {
        OneMoreOrdered(d.calls, i, i + 1, mid.calls[|d.calls|]);
      }
      var end := WriteHalf(mid, i, it.fd, it.data, snap);
      if end.calls != mid.calls {
        OneMoreOrdered(mid.calls, if mid.calls == d.calls then i else i + 1, i + 1, end.calls[|mid.calls|]);
      }
    }
  }

  /** Callbacks run in descriptor order, read before write: no two for the same descriptor and kind. */
  lemma {:induction false} CallsAreOrdered(s: Sel, n: nat, snap: Snapshot, script: Script)
    requires Good(s) && n <= |s.slots|
    ensures Ordered(Turns(s, n, snap, script).calls, n)
  {
    if n > 0 {
      CallsAreOrdered(s, n - 1, snap, script);
      TurnIsOrdered(Turns(s, n - 1, snap, script), n - 1, snap);
    }
  }

  // ----- nothing due is left out -----

  ghost predicate Called(calls: seq<Call>, fd: int, kind: Kind) {
    exists c <- calls :: c.fd == fd && c.kind == kind
  }

  /** When slot `i` has its turn, in the first half or the second, what is due is done, and only that. */
  lemma TurnDoesWhatIsDue(s: Sel, i: nat, snap: Snapshot, script: Script)
    requires Good(s) && i < |s.slots|
    ensures var d := Turns(s, i, snap, script);
            var mid := if d.s.slots[i].Used() then ReadHalf(d, i, snap) else d;
            var calls := Turns(s, i + 1, snap, script).calls;
            && (Called(calls, i, Read) <==> i in snap.r && i in TableOf(d.s) && TableOf(d.s)[i].interest.r)
            && (Called(calls, i, Write) <==>
                  i in snap.w && i in TableOf(d.s) && i in TableOf(mid.s) && TableOf(mid.s)[i].interest.w)
  {
    var d := Turns(s, i, snap, script);
    var it := d.s.slots[i];
    CallsAreOrdered(s, i, snap, script);
    if it.Used() {
      RunKeepsSilent(d.s, Ops(d.script), i);
      var mid := ReadHalf(d, i, snap);
      assert mid.calls == d.calls || mid.calls == d.calls + [Call(i, Read, it.handler, it.data, d.s)];
      var end := WriteHalf(mid, i, it.fd, it.data, snap);
      assert end.calls == mid.calls || end.calls[|end.calls| - 1].kind == Write;
      if it.fd in snap.r && it.interest.r {
        assert end.calls[|d.calls|].kind == Read;
      }
    }
  }

  /** Nothing is taken back, and what is added is for descriptors from `i` on. */
  ghost predicate GrowsFrom(early: seq<Call>, all: seq<Call>, i: int) {
    early <= all && forall k :: |early| <= k < |all| ==> i <= all[k].fd
  }

  lemma GrowsOn(early: seq<Call>, mid: seq<Call>, all: seq<Call>, i: int)
    requires GrowsFrom(early, mid, i) && GrowsFrom(mid, all, i)
    ensures GrowsFrom(early, all, i)
  {
  }

  /** Later turns leave earlier callbacks alone, and run none for earlier descriptors. */
  lemma {:induction false} LaterCallsAreForLaterSlots(s: Sel, i: nat, n: nat, snap: Snapshot, script: Script)
    requires Good(s) && i <= n <= |s.slots|
    ensures GrowsFrom(Turns(s, i, snap, script).calls, Turns(s, n, snap, script).calls, i)
  {
    if i < n {
      var d := Turns(s, n - 1, snap, script);
      LaterCallsAreForLaterSlots(s, i, n - 1, snap, script);
      TurnCallsItsSlot(d, n - 1, snap, i);
      GrowsOn(Turns(s, i, snap, script).calls, d.calls, Turn(d, n - 1, snap).calls, i);
    }
  }

  lemma TurnCallsItsSlot(d: Round, n: nat, snap: Snapshot, i: nat)
    requires Good(d.s) && i <= n < |d.s.slots|
    ensures GrowsFrom(d.calls, Turn(d, n, snap).calls, i)
  {
  }

  /** The round at the start of slot `i`'s turn, and between its halves. */
  ghost function Before(s: Sel, i: nat, snap: Snapshot, script: Script): (d: Round)
    requires Good(s) && i < |s.slots|
    ensures Good(d.s) && |d.s.slots| == |s.slots|
  {
    Turns(s, i, snap, script)
  }

  ghost function Between(s: Sel, i: nat, snap: Snapshot, script: Script): (d: Round)
    requires Good(s) && i < |s.slots|
    ensures Good(d.s) && |d.s.slots| == |s.slots|
  {
    var d := Before(s, i, snap, script);
    if d.s.slots[i].Used() then ReadHalf(d, i, snap) else d
  }

  /** The descriptor was reported, and is registered with that interest when its turn, or that half of it, comes. */
  ghost predicate Due(s: Sel, i: nat, kind: Kind, snap: Snapshot, script: Script)
    requires Good(s) && i < |s.slots|
  {
    var start, now := TableOf(Before(s, i, snap, script).s), TableOf(Between(s, i, snap, script).s);
    match kind
    case Read => i in snap.r && i in start && start[i].interest.r
    case Write => i in snap.w && i in start && i in now && now[i].interest.w
  }

  lemma CalledEarly(calls: seq<Call>, all: seq<Call>, fd: int, kind: Kind)
    requires GrowsFrom(calls, all, fd + 1)
    ensures Called(all, fd, kind) <==> Called(calls, fd, kind)
  {
    if Called(all, fd, kind) {
      var k :| 0 <= k < |all| && all[k].fd == fd && all[k].kind == kind;
      assert calls[k] == all[k];
    }
    if Called(calls, fd, kind) {
      var k :| 0 <= k < |calls| && calls[k].fd == fd && calls[k].kind == kind;
      assert calls[k] == all[k];
    }
  }

  /**
   * A whole round, on the descriptors up to the greatest at its start: whatever the callbacks do, each
   * descriptor's callback runs exactly if it is due at its turn, and none runs for a greater descriptor.
   */
  lemma RoundDoesWhatIsDue(s: Sel, i: nat, kind: Kind, snap: Snapshot, script: Script)
    requires Good(s) && i < |s.slots|
    ensures Called(Turns(s, s.maxFd + 1, snap, script).calls, i, kind) <==> i <= s.maxFd && Due(s, i, kind, snap, script)
  {
    var n := s.maxFd + 1;
    var all := Turns(s, n, snap, script).calls;
    if i < n {
      var calls := Turns(s, i + 1, snap, script).calls;
      TurnDoesWhatIsDue(s, i, snap, script);
      LaterCallsAreForLaterSlots(s, i + 1, n, snap, script);
      CalledEarly(calls, all, i, kind);
    } else {
      CallsAreOrdered(s, n, snap, script);
    }
  }

  // ----- the attachment of a write callback -----

  /** The attachment registered for a descriptor, if there is one. */
  function DataAt(s: Sel, i: nat): Option<nat> {
    if Registered(s, i) then Some(s.slots[i].data) else None
  }

  /** What operations make of the attachment of descriptor `i`, judged from the operations alone. */
  function AttachmentAfter(ops: seq<Op>, i: nat, a: Option<nat>): Option<nat>
    decreases ops
  {
    if ops == [] then a
    else if ops[0].fd != i || InvalidFd(i) then AttachmentAfter(ops[1..], i, a)
    else
      var a' := match ops[0]
        case Register(_, handler, _, data) => if handler != 0 && a == None then Some(data) else a
        case Unregister(_) => None
        case SetInterest(_, _) => a;
      AttachmentAfter(ops[1..], i, a')
  }

  /** The operations that the read half of slot `i`'s turn runs. */
  ghost function ReadOps(s: Sel, i: nat, snap: Snapshot, script: Script): seq<Op>
    requires Good(s) && i < |s.slots|
  {
    if Due(s, i, Read, snap, script) then Ops(Before(s, i, snap, script).script) else []
  }

  lemma StepAttachment(s: Sel, op: Op, i: nat)
    requires Good(s)
    ensures DataAt(Step(s, op).0, i) == AttachmentAfter([op], i, DataAt(s, i))
  {
    assert [op][1..] == [];
  }

  lemma {:induction false} AttachmentIs(s: Sel, ops: seq<Op>, i: nat)
    requires Good(s)
    ensures DataAt(Run(s, ops).0, i) == AttachmentAfter(ops, i, DataAt(s, i))
    decreases ops
  {
    if ops != [] {
      StepRefines(s, ops[0]);
      StepAttachment(s, ops[0], i);
      assert [ops[0]][1..] == [];
      AttachmentIs(Step(s, ops[0]).0, ops[1..], i);
    }
  }

  /** The read half leaves the attachment that its operations make. */
  lemma AttachmentBetween(s: Sel, i: nat, snap: Snapshot, script: Script)
    requires Good(s) && i < |s.slots| && Registered(Before(s, i, snap, script).s, i)
    ensures DataAt(Between(s, i, snap, script).s, i)
         == AttachmentAfter(ReadOps(s, i, snap, script), i, DataAt(Before(s, i, snap, script).s, i))
  {
    AttachmentIs(Before(s, i, snap, script).s, ReadOps(s, i, snap, script), i);
  }

  /**
   * A write callback gets the attachment that its descriptor had at the start of the turn. That is the
   * current one exactly if the operations of the read callback, if it ran, lead from it back to it.
   */
  lemma WriteAttachment(s: Sel, i: nat, snap: Snapshot, script: Script, c: Call)
    requires Good(s) && i <= s.maxFd
    requires c in Turns(s, s.maxFd + 1, snap, script).calls && c.fd == i && c.kind == Write
    ensures DataAt(Before(s, i, snap, script).s, i) == Some(c.data) && DataAt(c.at, i).Some?
    ensures DataAt(c.at, i) == Some(c.data) <==>
              AttachmentAfter(ReadOps(s, i, snap, script), i, Some(c.data)) == Some(c.data)
  {
    TurnOfWrite(s, i, snap, script, c);
    AttachmentBetween(s, i, snap, script);
  }

  /** A write callback runs on the selector as the read half left it, with the attachment from before that. */
  lemma TurnOfWrite(s: Sel, i: nat, snap: Snapshot, script: Script, c: Call)
    requires Good(s) && i <= s.maxFd
    requires c in Turns(s, s.maxFd + 1, snap, script).calls && c.fd == i && c.kind == Write
    ensures c.at == Between(s, i, snap, script).s && Registered(c.at, i)
    ensures DataAt(Before(s, i, snap, script).s, i) == Some(c.data)
  {
    var k := IsInTurn(s, i, snap, script, c);
    TurnWrites(Before(s, i, snap, script), i, snap, k);
  }

  /** A callback for a descriptor is among those that its turn added. */
  lemma IsInTurn(s: Sel, i: nat, snap: Snapshot, script: Script, c: Call) returns (k: nat)
    requires Good(s) && i <= s.maxFd
    requires c in Turns(s, s.maxFd + 1, snap, script).calls && c.fd == i
    ensures |Before(s, i, snap, script).calls| <= k < |Turn(Before(s, i, snap, script), i, snap).calls|
    ensures Turn(Before(s, i, snap, script), i, snap).calls[k] == c
  {
    var early, calls := Turns(s, i, snap, script).calls, Turns(s, i + 1, snap, script).calls;
    TurnCallsItsSlot(Before(s, i, snap, script), i, snap, i);
    LaterCallsAreForLaterSlots(s, i + 1, s.maxFd + 1, snap, script);
    CallsAreOrdered(s, i, snap, script);
    k := InBetween(early, calls, Turns(s, s.maxFd + 1, snap, script).calls, i, c);
    assert calls == Turn(Before(s, i, snap, script), i, snap).calls;
  }

  lemma InBetween(early: seq<Call>, calls: seq<Call>, all: seq<Call>, i: int, c: Call) returns (k: nat)
    requires early <= calls && GrowsFrom(calls, all, i + 1)
    requires c in all && c.fd == i && forall e <- early :: e.fd < i
    ensures |early| <= k < |calls| && calls[k] == c
  {
    k :| 0 <= k < |all| && all[k] == c;
    assert c !in early;
    assert forall x :: 0 <= x < |early| ==> all[x] == early[x];
  }

  /** The write callback among those that a turn adds. */
  lemma TurnWrites(d: Round, i: nat, snap: Snapshot, k: nat)
    requires Good(d.s) && i < |d.s.slots|
    requires |d.calls| <= k < |Turn(d, i, snap).calls| && Turn(d, i, snap).calls[k].kind == Write
    ensures var it, c := d.s.slots[i], Turn(d, i, snap).calls[k];
            && it.Used() && c.at == ReadHalf(d, i, snap).s && c.data == it.data && Registered(c.at, i)
  {
    RunKeepsSilent(d.s, Ops(d.script), i);
  }

  /** The stale case is real: the read callback of a descriptor may register it anew with another attachment. */
  lemma StaleAttachment(s: Sel, data: nat)
    requires Good(s) && Registered(s, 0) && s.slots[0].interest == Interest(true, true) && s.slots[0].data != data
    ensures var script: Script := [[Unregister(0), Register(0, 1, OP_WRITE, data)]];
            exists c <- Turns(s, s.maxFd + 1, Snapshot({0}, {0}), script).calls ::
              c.fd == 0 && c.kind == Write && DataAt(c.at, 0) == Some(data) && c.data != data
  {
    var snap, a, b := Snapshot({0}, {0}), Unregister(0), Register(0, 1, OP_WRITE, data);
    var script: Script := [[a, b]];
    RegisteredAnew(s, data);
    RunOfTwo(s, a, b);
    assert Between(s, 0, snap, script).s == Run(s, [a, b]).0;
    RoundDoesWhatIsDue(s, 0, Write, snap, script);
    var c :| c in Turns(s, s.maxFd + 1, snap, script).calls && c.fd == 0 && c.kind == Write;
    TurnOfWrite(s, 0, snap, script, c);
  }

  lemma RunOfTwo(s: Sel, a: Op, b: Op)
    requires Good(s)
    ensures Good(Step(s, a).0) && Run(s, [a, b]).0 == Step(Step(s, a).0, b).0
  {
    StepRefines(s, a);
    assert [a, b][1..] == [b] && [b][1..] == [];
    var s' := Step(s, a).0;
    assert Run(s, [a, b]).0 == Run(s', [b]).0;
    StepRefines(s', b);
    assert Run(s', [b]).0 == Run(Step(s', b).0, []).0;
  }

  lemma RegisteredAnew(s: Sel, data: nat)
    requires Good(s) && Registered(s, 0)
    ensures Good(Step(s, Unregister(0)).0)
    ensures var t := Step(Step(s, Unregister(0)).0, Register(0, 1, OP_WRITE, data)).0;
            0 in TableOf(t) && TableOf(t)[0] == Entry(OP_WRITE, 1, data)
  {
    StepRefines(s, Unregister(0));
    StepRefines(Step(s, Unregister(0)).0, Register(0, 1, OP_WRITE, data));
  }

  // ----- in place -----

  /** The turn of slot `i`. */
  method HandleSlot(sel: Selector, i: nat, snap: Snapshot, script: Script, ghost d: Round)
    returns (left: Script, ghost e: Round)
    requires Good(sel.View()) && i < sel.fds.Length && d.s == sel.View() && d.script == script
    modifies sel, sel.fds
    ensures sel.fds == old(sel.fds) && e == Turn(d, i, snap) && e.s == sel.View() && e.script == left
  {
    left, e := script, d;
    var it := sel.fds[i];
    if it.Used() {
      if it.fd in snap.r && it.interest.r {
        e := Callback(e, it.fd, Read, it.handler, it.data);
        sel.Perform(Ops(left));
        left := Rest(left);
      }
      assert e == ReadHalf(d, i, snap);
      if i in snap.w && sel.fds[i].interest.w {
        e := Callback(e, it.fd, Write, sel.fds[i].handler, it.data);
        sel.Perform(Ops(left));
        left := Rest(left);
      }
    }
  }

  /** `handle_iteration`: the greatest descriptor is read once, before any callback runs. */
  method HandleIteration(sel: Selector, snap: Snapshot, script: Script) returns (ghost calls: seq<Call>)
    requires Good(sel.View())
    modifies sel, sel.fds
    ensures Good(sel.View()) && sel.fds == old(sel.fds)
    ensures var d := Turns(old(sel.View()), old(sel.maxFd) + 1, snap, script);
            sel.View() == d.s && calls == d.calls
  {
    ghost var start := sel.View();
    ghost var d := Round(start, [], script);
    var n := sel.maxFd;
    var left := script;
    var i := 0;
    while i <= n
      invariant 0 <= i <= n + 1 && sel.fds == old(sel.fds)
      invariant d == Turns(start, i, snap, script) && d.s == sel.View() && d.script == left
    {
      left, d := HandleSlot(sel, i, snap, left, d);
      i := i + 1;
    }
    calls := d.calls;
  }
}
