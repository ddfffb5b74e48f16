/** The selector's table of descriptors, its bitmaps and its growth. */
module Selectors {
  import opened Bytes
  import opened Protocol

  datatype Status = SUCCESS | ENOMEM | MAXFD | IARGS | FDINUSE

  const FD_SETSIZE := 1024
  const FD_UNUSED := -1

  /** A slot of the table. Handlers and attachments are references, 0 being null. */
  datatype Item = Item(fd: int, interest: Interest, handler: nat, data: nat) {
    predicate Used() {
      fd != FD_UNUSED
    }
  }

  const BLANK := Item(FD_UNUSED, OP_NOOP, 0, 0)

  /** The table, the greatest descriptor for `select`, and the read and write bitmaps. */
  datatype Sel = Sel(slots: seq<Item>, maxFd: nat, r: set<int>, w: set<int>)

  datatype Op =
    | Register(fd: int, handler: nat, interest: Interest, data: nat)
    | Unregister(fd: int)
    | SetInterest(fd: int, interest: Interest)

  predicate InvalidFd(fd: int) {
    fd < 0 || fd >= FD_SETSIZE
  }

  // ----- what an operation does -----

  /** `items_update_fdset_for_fd`. */
  function Mark(bits: set<int>, it: Item, wanted: bool): set<int> {
    bits - {it.fd} + if it.Used() && wanted then {it.fd} else {}
  }

  function UpdateFdSets(s: Sel, it: Item): Sel {
    s.(r := Mark(s.r, it, it.interest.r), w := Mark(s.w, it, it.interest.w))
  }

  /** `items_max_fd`, on the slots below `n`. */
  function MaxFd(slots: seq<Item>, n: nat): nat
    requires n <= |slots|
  {
    if n == 0 then 0
    else
      var m := MaxFd(slots, n - 1);
      if slots[n - 1].Used() && slots[n - 1].fd > m then slots[n - 1].fd else m
  }

  /** The operation finds its slot in the table. */
  predicate Reaches(s: Sel, fd: int) {
    s.maxFd < |s.slots| && (InvalidFd(fd) || fd < |s.slots|)
  }

  /** The table has a slot for every descriptor the platform has, as the server's has. */
  predicate Ample(s: Sel) {
    s.maxFd < |s.slots| && FD_SETSIZE <= |s.slots|
  }

  function Step(s: Sel, op: Op): (Sel, Status)
    requires Reaches(s, op.fd)
  {
    if InvalidFd(op.fd) then (s, IARGS)
    else
      var it := s.slots[op.fd];
      match op
      case Register(fd, handler, interest, data) =>
        if handler == 0 then (s, IARGS)
        else if it.Used() then (s, FDINUSE)
        else
          var new_ := Item(fd, interest, handler, data);
          (UpdateFdSets(Sel(s.slots[fd := new_], if fd > s.maxFd then fd else s.maxFd, s.r, s.w), new_), SUCCESS)
      case Unregister(fd) =>
        if !it.Used() then (s, IARGS)
        else
          var s' := UpdateFdSets(s, it.(interest := OP_NOOP)).(slots := s.slots[fd := BLANK]);
          (s'.(maxFd := MaxFd(s'.slots, s.maxFd + 1)), SUCCESS)
      case SetInterest(fd, i) =>
        if !it.Used() then (s, IARGS)
        else (UpdateFdSets(s.(slots := s.slots[fd := it.(interest := i)]), it.(interest := i)), SUCCESS)
  }

  // ----- what the table means -----

  datatype Entry = Entry(interest: Interest, handler: nat, data: nat)

  type Table = map<int, Entry>

  predicate Registered(s: Sel, fd: int) {
    0 <= fd < |s.slots| && s.slots[fd].Used()
  }

  function EntryOf(it: Item): Entry {
    Entry(it.interest, it.handler, it.data)
  }

  ghost function TableOf(s: Sel): Table {
    map fd | 0 <= fd < |s.slots| && s.slots[fd].Used() :: EntryOf(s.slots[fd])
  }

  function MapStep(m: Table, op: Op): (Table, Status) {
    if InvalidFd(op.fd) then (m, IARGS)
    else
      match op
      case Register(fd, handler, interest, data) =>
        if handler == 0 then (m, IARGS)
        else if fd in m then (m, FDINUSE)
        else (m[fd := Entry(interest, handler, data)], SUCCESS)
      case Unregister(fd) =>
        if fd !in m then (m, IARGS) else (m - {fd}, SUCCESS)
      case SetInterest(fd, i) =>
        if fd !in m then (m, IARGS) else (m[fd := m[fd].(interest := i)], SUCCESS)
  }

  /** Every slot is unused or holds its own descriptor. */
  ghost predicate SlotsOk(slots: seq<Item>) {
    forall i :: 0 <= i < |slots| && slots[i].Used() ==> slots[i].fd == i
  }

  /** The bitmaps hold exactly the registered descriptors with that interest. */
  ghost predicate BitsOk(s: Sel) {
    && (forall fd :: fd in s.r <==> Registered(s, fd) && s.slots[fd].interest.r)
    && (forall fd :: fd in s.w <==> Registered(s, fd) && s.slots[fd].interest.w)
  }

  /** `max` is the greatest registered descriptor, or 0. */
  ghost predicate IsMax(slots: seq<Item>, max: int) {
    && 0 <= max < |slots|
    && (forall fd :: 0 <= fd < |slots| && slots[fd].Used() ==> fd <= max)
    && (max == 0 || slots[max].Used())
  }

  ghost predicate Inv(s: Sel) {
    SlotsOk(s.slots) && BitsOk(s) && IsMax(s.slots, s.maxFd)
  }

  lemma {:induction false} MaxFdIsMax(slots: seq<Item>, n: nat)
    requires n <= |slots| && SlotsOk(slots)
    ensures var m := MaxFd(slots, n);
            && (forall fd :: 0 <= fd < n && slots[fd].Used() ==> fd <= m)
            && (m == 0 || (m < n && slots[m].Used()))
  {
    if n > 0 {
      MaxFdIsMax(slots, n - 1);
    }
  }

  /** One operation keeps the representation in order and does what it does on a map. */
  lemma StepRefines(s: Sel, op: Op)
    requires Reaches(s, op.fd) && Inv(s)
    ensures var (s', st) := Step(s, op);
            Inv(s') && |s'.slots| == |s.slots| && (TableOf(s'), st) == MapStep(TableOf(s), op)
  {
    var (s', st) := Step(s, op);
    if st == SUCCESS {
      SlotsAfter(s, op);
      BitsAfter(s, op);
      if op.Unregister? {
        MaxFdIsMax(s'.slots, s.maxFd + 1);
      }
      TableAfter(s, op);
    }
  }

  lemma SlotsAfter(s: Sel, op: Op)
    requires Reaches(s, op.fd) && Inv(s) && Step(s, op).1 == SUCCESS
    ensures SlotsOk(Step(s, op).0.slots) && |Step(s, op).0.slots| == |s.slots|
  {
  }

  lemma BitsAfter(s: Sel, op: Op)
    requires Reaches(s, op.fd) && Inv(s) && Step(s, op).1 == SUCCESS
    ensures BitsOk(Step(s, op).0)
  {
    var s' := Step(s, op).0;
    forall fd ensures fd in s'.r <==> Registered(s', fd) && s'.slots[fd].interest.r {
      assert fd != op.fd ==> (fd in s'.r <==> fd in s.r);
    }
    forall fd ensures fd in s'.w <==> Registered(s', fd) && s'.slots[fd].interest.w {
      assert fd != op.fd ==> (fd in s'.w <==> fd in s.w);
    }
  }

  lemma TableAfter(s: Sel, op: Op)
    requires Reaches(s, op.fd) && Inv(s) && Step(s, op).1 == SUCCESS
    ensures TableOf(Step(s, op).0) == MapStep(TableOf(s), op).0
  {
    var m, m' := MapStep(TableOf(s), op).0, TableOf(Step(s, op).0);
    assert forall fd :: fd in m <==> fd in m';
  }

  ghost function Run(s: Sel, ops: seq<Op>): (Sel, seq<Status>)
    requires Ample(s) && Inv(s)
    decreases ops
  {
    if ops == [] then (s, [])
    else
      var (s', st) := Step(s, ops[0]);
      StepRefines(s, ops[0]);
      var (t, sts) := Run(s', ops[1..]);
      (t, [st] + sts)
  }

  function MapRun(m: Table, ops: seq<Op>): (Table, seq<Status>)
    decreases ops
  {
    if ops == [] then (m, [])
    else
      var (m', st) := MapStep(m, ops[0]);
      var (t, sts) := MapRun(m', ops[1..]);
      (t, [st] + sts)
  }

  /** The descriptors `select` looks at include every armed one. */
  ghost predicate Covered(s: Sel) {
    forall fd :: fd in s.r || fd in s.w ==> 0 <= fd <= s.maxFd
  }

  /** Over every sequence of operations the table answers as a map and its collaterals agree with it. */
  lemma {:induction false} RunRefinesMap(s: Sel, ops: seq<Op>)
    requires Ample(s) && Inv(s)
    ensures var (s', sts) := Run(s, ops);
            Ample(s') && Inv(s') && Covered(s') && (TableOf(s'), sts) == MapRun(TableOf(s), ops)
    decreases ops
  {
    if ops != [] {
      StepRefines(s, ops[0]);
      RunRefinesMap(Step(s, ops[0]).0, ops[1..]);
    }
  }

  // ----- operations in a row -----

  ghost predicate Good(s: Sel) {
    Ample(s) && Inv(s)
  }

  ghost function Apply(s: Sel, ops: seq<Op>): (t: Sel)
    requires Good(s)
    ensures Good(t) && |t.slots| == |s.slots|
  {
    RunRefinesMap(s, ops);
    RunKeepsSize(s, ops);
    Run(s, ops).0
  }

  lemma {:induction false} RunKeepsSize(s: Sel, ops: seq<Op>)
    requires Good(s)
    ensures |Run(s, ops).0.slots| == |s.slots|
    decreases ops
  {
    if ops != [] {
      StepRefines(s, ops[0]);
      RunKeepsSize(Step(s, ops[0]).0, ops[1..]);
    }
  }

  lemma {:induction false} RunSnoc(s: Sel, ops: seq<Op>, op: Op)
    requires Good(s)
    ensures Good(Run(s, ops).0) && Run(s, ops + [op]).0 == Step(Run(s, ops).0, op).0
    decreases ops
  {
    RunRefinesMap(s, ops);
    if ops == [] {
      assert [op][0] == op && [op][1..] == [];
      assert ops + [op] == [op];
    } else {
      StepRefines(s, ops[0]);
      assert (ops + [op])[0] == ops[0] && (ops + [op])[1..] == ops[1..] + [op];
      RunSnoc(Step(s, ops[0]).0, ops[1..], op);
    }
  }

  // ----- growth -----

  function Pow2(k: nat): nat {
    if k == 0 then 1 else 2 * Pow2(k - 1)
  }

  /** The smallest power of two strictly above `n`. */
  ghost predicate LeastPowerAbove(p: nat, n: nat) {
    && n < p
    && (exists k: nat :: p == Pow2(k))
    && (forall k: nat :: Pow2(k) > n ==> p <= Pow2(k))
  }

  lemma {:induction false} Pow2Monotone(j: nat, k: nat)
    requires j <= k
    ensures Pow2(j) <= Pow2(k)
  {
    if j < k {
      Pow2Monotone(j, k - 1);
    }
  }

  lemma LeastPowerIs(k: nat, n: nat)
    requires n < Pow2(k) && (k > 0 ==> Pow2(k - 1) <= n)
    ensures LeastPowerAbove(Pow2(k), n)
  {
    forall j: nat | Pow2(j) > n ensures Pow2(k) <= Pow2(j) {
      if j < k {
        Pow2Monotone(j, k - 1);
      } else {
        Pow2Monotone(k, j);
      }
    }
  }

  /** `tmp` is what is left of `n` after dividing by `p`. */
  ghost predicate Within(n: nat, tmp: nat, p: nat) {
    tmp * p <= n < (tmp + 1) * p
  }

  lemma Halve(n: nat, tmp: nat, p: nat)
    requires Within(n, tmp, p) && tmp > 0
    ensures Within(n, tmp / 2, 2 * p) && p <= n
  {
    var h := tmp / 2;
    assert h * (2 * p) == (2 * h) * p;
    assert (h + 1) * (2 * p) == (2 * h + 2) * p;
    MulMonotone(2 * h, tmp, p);
    MulMonotone(tmp + 1, 2 * h + 2, p);
    MulMonotone(1, tmp, p);
  }

  lemma MulMonotone(a: nat, b: nat, p: nat)
    requires a <= b
    ensures a * p <= b * p
  {
  }

  function Capped(p: nat): nat {
    if p > FD_SETSIZE then FD_SETSIZE else p
  }

  /** Doubling until the size is passed. The shift is only defined below 64 bits. */
  method NextCapacity(n: nat) returns (c: nat)
    requires n < 0x8000_0000_0000_0000
    ensures exists p :: LeastPowerAbove(p, n) && c == Capped(p) + 1
  {
    var bits := 0;
    var tmp := n;
    while tmp != 0
      invariant Within(n, tmp, Pow2(bits))
      invariant bits > 0 ==> Pow2(bits - 1) <= n
      decreases tmp
    {
      Halve(n, tmp, Pow2(bits));
      tmp := tmp / 2;
      bits := bits + 1;
    }
    LeastPowerIs(bits, n);
    c := Capped(Pow2(bits)) + 1;
  }

  /** A table with the same slots, and unused ones behind them. */
  ghost predicate Extends(slots: seq<Item>, old_: seq<Item>) {
    old_ <= slots && forall i :: |old_| <= i < |slots| ==> !slots[i].Used()
  }

  /** Growing a table changes nothing it means. */
  lemma GrowthKeeps(s: Sel, t: Sel)
    requires Inv(s) && Extends(t.slots, s.slots) && t == s.(slots := t.slots)
    ensures Inv(t) && TableOf(t) == TableOf(s)
  {
    assert forall i :: 0 <= i < |s.slots| ==> t.slots[i] == s.slots[i];
    assert forall fd :: Registered(t, fd) <==> Registered(s, fd);
    assert forall fd :: fd in TableOf(t) <==> fd in TableOf(s);
  }

  // ----- the selector -----

  class Selector {
    var fds: array<Item>
    var maxFd: nat
    var masterR: set<int>
    var masterW: set<int>

    ghost function View(): Sel
      reads this, fds
    {
      Sel(fds[..], maxFd, masterR, masterW)
    }

    /** A selector with room for `initial` descriptors, none registered. */
    constructor (initial: nat)
      requires initial <= FD_SETSIZE
      ensures fresh(fds) && Inv(View()) && TableOf(View()) == map[] && fds.Length > initial
    {
      var size := NextCapacity(initial);
      fds := new Item[size](_ => BLANK);
      maxFd := 0;
      masterR, masterW := {}, {};
    }

    /**
     * Room for descriptor `n`. The slots a reallocation adds are marked unused and keep whatever
     * else was in that memory. `memory` tells whether the allocation succeeds.
     */
    method EnsureCapacity(n: nat, memory: bool) returns (st: Status)
      modifies this`fds
      ensures st == if n < old(fds.Length) then SUCCESS
                    else if n > FD_SETSIZE then MAXFD
                    else if memory then SUCCESS else ENOMEM
      ensures st != SUCCESS || n < old(fds.Length) ==> fds == old(fds)
      ensures st == SUCCESS ==> n < fds.Length
      ensures Extends(fds[..], old(fds[..]))
      ensures fds == old(fds) || (fresh(fds) && exists p :: LeastPowerAbove(p, n) && fds.Length == Capped(p) + 1)
    {
      if n < fds.Length {
        return SUCCESS;
      }
      if n > FD_SETSIZE {
        return MAXFD;
      }
      var newSize := NextCapacity(n);
      if !memory {
        return ENOMEM;
      }
      var tmp := new Item[newSize];
      forall i | 0 <= i < fds.Length {
        tmp[i] := fds[i];
      }
      var oldSize := fds.Length;
      fds := tmp;
      ItemsInit(oldSize);
      st := SUCCESS;
    }

    /** Marks the slots from `last` on as unused. */
    method ItemsInit(last: nat)
      requires last <= fds.Length
      modifies fds
      ensures fds[..last] == old(fds[..last])
      ensures forall i :: last <= i < fds.Length ==> !fds[i].Used()
    {
      for i := last to fds.Length
        invariant fds[..last] == old(fds[..last])
        invariant forall j :: last <= j < i ==> !fds[j].Used()
      {
        fds[i] := fds[i].(fd := FD_UNUSED);
      }
    }

    method ItemsMaxFd() returns (max: nat)
      requires maxFd < fds.Length
      ensures max == MaxFd(fds[..], maxFd + 1)
    {
      max := 0;
      for i := 0 to maxFd + 1
        invariant max == MaxFd(fds[..], i)
      {
        if fds[i].Used() {
          if fds[i].fd > max {
            max := fds[i].fd;
          }
        }
      }
    }

    method UpdateFdSet(it: Item)
      modifies this`masterR, this`masterW
      ensures View() == UpdateFdSets(old(View()), it)
    {
      masterR := masterR - {it.fd};
      masterW := masterW - {it.fd};
      if it.Used() {
        if it.interest.r {
          masterR := masterR + {it.fd};
        }
        if it.interest.w {
          masterW := masterW + {it.fd};
        }
      }
    }

    /**
     * Growth is only asked for beyond the size of the table, so a descriptor equal to it has no slot, and
     * what the code then does is not defined: the answer is `None`, exactly in that case. No table of the
     * server's size meets such a descriptor.
     */
    method RegisterFd(fd: int, handler: nat, interest: Interest, data: nat, memory: bool) returns (st: Option<Status>)
      requires Inv(View())
      modifies this, fds
      ensures Inv(View())
      ensures st == None <==> !InvalidFd(fd) && handler != 0 && fd == old(fds.Length)
      ensures st == None ==> View() == old(View()) && fds == old(fds)
      ensures var op := Register(fd, handler, interest, data);
              st.Some? ==>
                if Reaches(old(View()), fd) then (View(), st.value) == Step(old(View()), op) && fds == old(fds)
                else (TableOf(View()), st.value) == if handler == 0 || memory then MapStep(TableOf(old(View())), op)
                                                    else (TableOf(old(View())), ENOMEM)
    {
      if InvalidFd(fd) || handler == 0 {
        return Some(IARGS);
      }
      if fd > fds.Length {
        var grown := EnsureCapacity(fd, memory);
        if grown != SUCCESS {
          return Some(grown);
        }
        GrowthKeeps(old(View()), View());
      }
      if fd == fds.Length {
        return None;
      }
      StepRefines(View(), Register(fd, handler, interest, data));
      var stored := Store(fd, handler, interest, data);
      st := Some(stored);
    }

    /** The registration proper. */
    method Store(fd: int, handler: nat, interest: Interest, data: nat) returns (st: Status)
      requires Reaches(View(), fd) && !InvalidFd(fd) && handler != 0
      modifies this, fds
      ensures (View(), st) == Step(old(View()), Register(fd, handler, interest, data)) && fds == old(fds)
    {
      if fds[fd].Used() {
        return FDINUSE;
      }
      fds[fd] := Item(fd, interest, handler, data);
      if fd > maxFd {
        maxFd := fd;
      }
      UpdateFdSet(fds[fd]);
      st := SUCCESS;
    }

    method UnregisterFdWithoutClosing(fd: int) returns (st: Status)
      requires Reaches(View(), fd)
      modifies this, fds
      ensures (View(), st) == Step(old(View()), Unregister(fd)) && fds == old(fds)
    {
      if InvalidFd(fd) {
        return IARGS;
      }
      if !fds[fd].Used() {
        return IARGS;
      }
      fds[fd] := fds[fd].(interest := OP_NOOP);
      UpdateFdSet(fds[fd]);
      fds[fd] := BLANK;
      assert fds[..] == old(fds[..])[fd := BLANK];
      maxFd := ItemsMaxFd();
      st := SUCCESS;
    }

    method SetInterestFd(fd: int, interest: Interest) returns (st: Status)
      requires Reaches(View(), fd)
      modifies this, fds
      ensures (View(), st) == Step(old(View()), SetInterest(fd, interest)) && fds == old(fds)
    {
      if InvalidFd(fd) {
        return IARGS;
      }
      if !fds[fd].Used() {
        return IARGS;
      }
      fds[fd] := fds[fd].(interest := interest);
      UpdateFdSet(fds[fd]);
      st := SUCCESS;
    }

    /** The body of a callback, as far as the selector is concerned. */
    method Perform(ops: seq<Op>)
      requires Good(View())
      modifies this, fds
      ensures Good(View()) && View() == Apply(old(View()), ops) && fds == old(fds)
    {
      ghost var start := View();
      var i := 0;
      assert ops[..0] == [];
      while i < |ops|
        invariant i <= |ops| && fds == old(fds)
        invariant Good(View()) && View() == Apply(start, ops[..i])
      {
        StepRefines(View(), ops[i]);
        assert ops[..i + 1] == ops[..i] + [ops[i]];
        RunSnoc(start, ops[..i], ops[i]);
        PerformOne(ops[i]);
        i := i + 1;
      }
      assert ops[..|ops|] == ops;
    }

    method PerformOne(op: Op)
      requires Good(View())
      modifies this, fds
      ensures View() == Step(old(View()), op).0 && fds == old(fds)
    {
      match op {
        case Register(fd, handler, interest, data) =>
          var _ := RegisterFd(fd, handler, interest, data, true);
        case Unregister(fd) =>
          var _ := UnregisterFdWithoutClosing(fd);
        case SetInterest(fd, interest) =>
          var _ := SetInterestFd(fd, interest);
      }
    }

    /**
     * Unregistration with the close callback, whose operations on the selector are `closing`. If they remove
     * the registration themselves, the code goes on with the descriptor -1 of the blank slot, which is not
     * defined: the answer is `None`, exactly in that case.
     */
    method UnregisterFd(fd: int, closing: seq<Op>) returns (st: Option<Status>)
      requires Good(View())
      modifies this, fds
      ensures fds == old(fds) && Good(View())
      ensures var s := old(View());
              if InvalidFd(fd) || !Registered(s, fd) then View() == s && st == Some(IARGS)
              else
                var closed := Apply(s, closing);
                if Registered(closed, fd) then View() == Step(closed, Unregister(fd)).0 && st == Some(SUCCESS)
                else View() == closed && st == None
    {
      if InvalidFd(fd) {
        return Some(IARGS);
      }
      if !fds[fd].Used() {
        return Some(IARGS);
      }
      Perform(closing);
      if !fds[fd].Used() {
        return None;
      }
      StepRefines(View(), Unregister(fd));
      var done := UnregisterFdWithoutClosing(fd);
      st := Some(done);
    }
  }
}
