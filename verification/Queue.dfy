/** The bounded queue: a linked list with a tail pointer that drops its oldest element when full. */
module Queues {
  import opened Bytes
  import opened Nodes

  // ----- what an operation does -----

  datatype Op<T> = Enqueue(x: T) | Dequeue

  /** The contents, and everything that left them, dequeued or dropped, in the order it left. */
  datatype Q<T> = Q(contents: seq<T>, removed: seq<T>)

  function TakeFirst<T>(q: Q<T>): Q<T> {
    if q.contents == [] then q else Q(q.contents[1..], q.removed + [q.contents[0]])
  }

  function Step<T>(cap: nat, q: Q<T>, op: Op<T>): Q<T> {
    match op
    case Enqueue(x) =>
      var r := if cap != 0 && |q.contents| >= cap then TakeFirst(q) else q;
      r.(contents := r.contents + [x])
    case Dequeue => TakeFirst(q)
  }

  function Run<T>(cap: nat, q: Q<T>, ops: seq<Op<T>>): Q<T>
    decreases ops
  {
    if ops == [] then q else Run(cap, Step(cap, q, ops[0]), ops[1..])
  }

  function Entered<T>(op: Op<T>): seq<T> {
    if op.Enqueue? then [op.x] else []
  }

  function Enqueued<T>(ops: seq<Op<T>>): seq<T> {
    if ops == [] then [] else Entered(ops[0]) + Enqueued(ops[1..])
  }

  ghost predicate Bounded<T>(cap: nat, q: Q<T>) {
    cap != 0 ==> |q.contents| <= cap
  }

  /**
   * Over any run: what left the queue followed by what is in it is what was in it followed by what
   * was enqueued, and a capacity is never exceeded.
   */
  lemma {:induction false} RunConserves<T>(cap: nat, q: Q<T>, ops: seq<Op<T>>)
    requires Bounded(cap, q)
    ensures var r := Run(cap, q, ops); r.removed + r.contents == q.removed + q.contents + Enqueued(ops)
    ensures Bounded(cap, Run(cap, q, ops))
    decreases ops
  {
    if ops == [] {
      assert q.removed + q.contents + Enqueued(ops) == q.removed + q.contents;
    } else {
      StepConserves(cap, q, ops[0]);
      RunConserves(cap, Step(cap, q, ops[0]), ops[1..]);
      Regroup(q.removed + q.contents, Entered(ops[0]), Enqueued(ops[1..]));
    }
  }

  lemma StepConserves<T>(cap: nat, q: Q<T>, op: Op<T>)
    requires Bounded(cap, q)
    ensures var s := Step(cap, q, op); s.removed + s.contents == q.removed + q.contents + Entered(op)
    ensures Bounded(cap, Step(cap, q, op))
  {
    TakeFirstConserves(q);
    var r := TakeFirst(q);
    Regroup(r.removed, r.contents, Entered(op));
    Regroup(q.removed, q.contents, Entered(op));
    assert op.Dequeue? ==> q.removed + q.contents + [] == q.removed + q.contents;
  }

  lemma Regroup<T>(a: seq<T>, b: seq<T>, c: seq<T>)
    ensures a + b + c == a + (b + c)
  {
  }

  lemma TakeFirstConserves<T>(q: Q<T>)
    ensures TakeFirst(q).removed + TakeFirst(q).contents == q.removed + q.contents
  {
    if q.contents != [] {
      assert [q.contents[0]] + q.contents[1..] == q.contents;
    }
  }

  /** An enqueue loses something only when the queue is full, and then exactly the oldest element. */
  lemma DropsOnlyOldest<T>(cap: nat, q: Q<T>, x: T)
    requires Bounded(cap, q)
    ensures var r := Step(cap, q, Enqueue(x));
            if cap != 0 && |q.contents| == cap then
              r.removed == q.removed + [q.contents[0]] && r.contents == q.contents[1..] + [x]
            else r.removed == q.removed && r.contents == q.contents + [x]
  {
  }

  function Newest<T>(n: nat, s: seq<T>): seq<T> {
    if |s| <= n then s else s[|s| - n..]
  }

  ghost predicate OnlyEnqueues<T>(ops: seq<Op<T>>) {
    forall op <- ops :: op.Enqueue?
  }

  lemma {:induction false} FillsUp<T>(cap: nat, q: Q<T>, ops: seq<Op<T>>)
    requires cap > 0 && Bounded(cap, q) && OnlyEnqueues(ops)
    ensures |Enqueued(ops)| == |ops|
    ensures |Run(cap, q, ops).contents| == if |q.contents| + |ops| <= cap then |q.contents| + |ops| else cap
    decreases ops
  {
    if ops != [] {
      assert ops[0].Enqueue?;
      DropsOnlyOldest(cap, q, ops[0].x);
      FillsUp(cap, Step(cap, q, ops[0]), ops[1..]);
    }
  }

  /** However many elements are enqueued into a bounded queue, it holds the newest ones, in order, as many as fit. */
  lemma KeepsTheNewest<T>(cap: nat, q: Q<T>, ops: seq<Op<T>>)
    requires cap > 0 && Bounded(cap, q) && OnlyEnqueues(ops)
    ensures Run(cap, q, ops).contents == Newest(cap, q.contents + Enqueued(ops))
  {
    FillsUp(cap, q, ops);
    RunConserves(cap, q, ops);
    NewestLeft(cap, q, Run(cap, q, ops), Enqueued(ops));
  }

  lemma NewestLeft<T>(cap: nat, q: Q<T>, r: Q<T>, entered: seq<T>)
    requires r.removed + r.contents == q.removed + q.contents + entered
    requires |r.contents| == if |q.contents| + |entered| <= cap then |q.contents| + |entered| else cap
    ensures r.contents == Newest(cap, q.contents + entered)
  {
    Regroup(q.removed, q.contents, entered);
    SuffixOf(r.removed, r.contents, q.removed, q.contents + entered);
  }

  lemma SuffixOf<T>(a: seq<T>, b: seq<T>, c: seq<T>, d: seq<T>)
    ensures a + b == c + d && |b| <= |d| ==> b == d[|d| - |b|..]
  {
    if a + b == c + d && |b| <= |d| {
      assert b == (a + b)[|a|..];
      assert d[|d| - |b|..] == (c + d)[|a|..];
    }
  }

  // ----- the linked queue -----

  class Queue<T> {
    var first: Node?<T>
    var last: Node?<T>
    var size: nat
    /** Zero if unlimited. */
    const maxCapacity: nat
    /** The nodes from the first on, the nodes ever linked, what is inside, and everything that left. */
    ghost var spine: seq<Node<T>>
    ghost var repr: set<Node<T>>
    ghost var contents: seq<T>
    ghost var removed: seq<T>

    ghost predicate Valid()
      reads this, repr
    {
      && size == |spine| == |contents|
      && (forall i :: 0 <= i < |spine| ==> spine[i] in repr)
      && first == Nth(spine, 0) && last == Nth(spine, |spine| - 1)
      && (forall i :: 0 <= i < |spine| ==> spine[i].next == Nth(spine, i + 1))
      && (forall i :: 0 <= i < |spine| ==> spine[i].data == contents[i])
      && (forall i, j :: 0 <= i < j < |spine| ==> spine[i] != spine[j])
    }

    ghost function View(): Q<T>
      reads this
    {
      Q(contents, removed)
    }

    constructor (maxCapacity: nat)
      ensures Valid() && View() == Q([], []) && repr == {} && this.maxCapacity == maxCapacity
    {
      first, last, size := null, null, 0;
      this.maxCapacity := maxCapacity;
      spine, repr, contents, removed := [], {}, [], [];
    }

    method Enqueue(data: T)
      requires Valid()
      modifies this, repr
      ensures Valid() && View() == Step(maxCapacity, old(View()), Op.Enqueue(data))
      ensures fresh(repr - old(repr))
    {
      var newNode := new Node(data, null);
      DropIfFull();
      Append(newNode);
    }

    method DropIfFull()
      requires Valid()
      modifies this
      ensures Valid() && repr == old(repr)
      ensures View() == if maxCapacity != 0 && |old(contents)| >= maxCapacity then TakeFirst(old(View())) else old(View())
    {
      if maxCapacity != 0 && size >= maxCapacity {
        var _ := Dequeue();
      }
    }

    /** Behind the last node, or as the only one. */
    method Append(newNode: Node<T>)
      requires Valid() && newNode !in repr && newNode.next == null
      modifies this, repr
      ensures Valid() && spine == old(spine) + [newNode] && removed == old(removed)
      ensures repr == old(repr) + {newNode}
      ensures contents == old(contents) + [newNode.data]
    {
      if last != null {
        last.next := newNode;
      } else {
        first := newNode;
      }
      last := newNode;
      size := size + 1;
      spine, repr, contents := spine + [newNode], repr + {newNode}, contents + [newNode.data];
    }

    /** The oldest element, if there is one. */
    method Dequeue() returns (x: Option<T>)
      requires Valid()
      modifies this
      ensures Valid() && View() == Step(maxCapacity, old(View()), Op.Dequeue)
      ensures x == if old(contents) == [] then None else Some(old(contents)[0])
      ensures repr == old(repr)
    {
      if size == 0 {
        return None;
      }
      var temp := first;
      first := first.next;
      if first == null {
        last := null;
      }
      size := size - 1;
      ghost var s := spine;
      removed := removed + [temp.data];
      spine, contents := s[1..], contents[1..];
      x := Some(temp.data);
      assert forall i :: 0 <= i < |spine| ==> spine[i] == s[i + 1];
    }

    method Peek() returns (x: Option<T>)
      requires Valid()
      ensures x == if contents == [] then None else Some(contents[0])
    {
      if size == 0 {
        return None;
      }
      x := Some(first.data);
    }
  }
}
