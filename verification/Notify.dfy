/**
 * Notifications from worker threads: a list under a lock, pushed to by any number of workers and
 * drained by the loop. Every step below is one atomic action of one thread.
 */
module Notifications {
  import opened Selectors
  import opened Dispatches
  import opened Nodes

  /** One notification; each `selector_notify_block` call has its own number. */
  datatype Job = Job(id: nat, fd: nat)

  /** Where a worker is inside `selector_notify_block`. */
  datatype Worker = Waiting(fd: nat) | Locked(fd: nat) | Linked(fd: nat, next: seq<Job>) | Pushed

  datatype Owner = Nobody | Loop | Thread(id: nat)

  /** What became of a notification, with the selector at its turn. */
  datatype Outcome = Outcome(job: Job, at: Sel)

  /**
   * `todo` is what the loop has not yet come to in its drain; `pushed`, `delivered` and `discarded`
   * record what happened.
   */
  datatype Shared = Shared(
    s: Sel, jobs: seq<Job>, lock: Owner, workers: map<nat, Worker>, todo: seq<Job>,
    started: set<nat>, pushed: seq<Job>, delivered: seq<Outcome>, discarded: seq<Outcome>)

  datatype Action =
    | Notify(id: nat, fd: nat)
    | Acquire(id: nat)
    | Link(id: nat)
    | Publish(id: nat)
    | Release(id: nat)
    | DrainLock
    | DrainJob(ops: seq<Op>)
    | DrainUnlock
    | Work(ops: seq<Op>)

  /** The action can happen: a lock is taken only when free, and the loop does one thing at a time. */
  ghost predicate Enabled(h: Shared, a: Action) {
    match a
    case Notify(id, fd) => id !in h.started && fd < FD_SETSIZE
    case Acquire(id) => h.lock == Nobody && id in h.workers && h.workers[id].Waiting?
    case Link(id) => id in h.workers && h.workers[id].Locked?
    case Publish(id) => id in h.workers && h.workers[id].Linked?
    case Release(id) => id in h.workers && h.workers[id].Pushed?
    case DrainLock => h.lock == Nobody
    case DrainJob(_) => h.lock == Loop && h.todo != []
    case DrainUnlock => h.lock == Loop && h.todo == []
    case Work(_) => h.lock != Loop
  }

  /** One notification's turn: the handler runs if its descriptor is registered. */
  ghost function JobTurn(h: Shared, ops: seq<Op>): Shared
    requires Good(h.s) && h.todo != []
  {
    var j := h.todo[0];
    var o := Outcome(j, h.s);
    if Registered(h.s, j.fd) then
      h.(s := Apply(h.s, ops), todo := h.todo[1..], delivered := h.delivered + [o])
    else h.(todo := h.todo[1..], discarded := h.discarded + [o])
  }

  ghost function Step(h: Shared, a: Action): Shared
    requires Good(h.s) && Enabled(h, a)
  {
    match a
    case Notify(id, fd) => h.(started := h.started + {id}, workers := h.workers[id := Waiting(fd)])
    case Acquire(id) => h.(lock := Thread(id), workers := h.workers[id := Locked(h.workers[id].fd)])
    case Link(id) => h.(workers := h.workers[id := Linked(h.workers[id].fd, h.jobs)])
    case Publish(id) =>
      var w := h.workers[id];
      var j := Job(id, w.fd);
      h.(jobs := [j] + w.next, pushed := h.pushed + [j], workers := h.workers[id := Worker.Pushed])
    case Release(id) => h.(lock := Nobody, workers := h.workers - {id})
    case DrainLock => h.(lock := Loop, todo := h.jobs)
    case DrainJob(ops) => JobTurn(h, ops)
    case DrainUnlock => h.(lock := Nobody, jobs := [])
    case Work(ops) => h.(s := Apply(h.s, ops))
  }

  /** What has been pushed and not yet had its turn. */
  function Pending(h: Shared): seq<Job> {
    if h.lock == Loop then h.todo else h.jobs
  }

  function Jobs(os: seq<Outcome>): seq<Job> {
    if os == [] then [] else Jobs(os[..|os| - 1]) + [os[|os| - 1].job]
  }

  ghost predicate Conserved(h: Shared) {
    multiset(h.pushed) == multiset(Jobs(h.delivered)) + multiset(Jobs(h.discarded)) + multiset(Pending(h))
  }

  /** Inside the critical section there is exactly the worker that owns the lock, and its view of the list is current. */
  ghost predicate Exclusive(h: Shared) {
    && (forall id <- h.workers :: !h.workers[id].Waiting? ==> h.lock == Thread(id))
    && (forall id <- h.workers :: h.workers[id].Linked? ==> h.workers[id].next == h.jobs)
    && (h.lock != Loop ==> h.todo == [])
  }

  /** No number is used twice: a worker that has not pushed yet is not among those that have. */
  ghost predicate Unique(h: Shared) {
    && (forall i, j :: 0 <= i < j < |h.pushed| ==> h.pushed[i].id != h.pushed[j].id)
    && (forall j <- h.pushed :: j.id in h.started && (j.id in h.workers ==> h.workers[j.id].Pushed?))
    && (forall id <- h.workers :: id in h.started)
  }

  /** A notification reached its handler exactly when its descriptor was registered at its turn. */
  ghost predicate Fair(h: Shared) {
    && (forall o <- h.delivered :: Registered(o.at, o.job.fd))
    && (forall o <- h.discarded :: !Registered(o.at, o.job.fd))
  }

  ghost predicate Inv(h: Shared) {
    Good(h.s) && Conserved(h) && Exclusive(h) && Unique(h) && Fair(h)
  }

  lemma StepKeepsExclusive(h: Shared, a: Action)
    requires Good(h.s) && Exclusive(h) && Enabled(h, a)
    ensures Good(Step(h, a).s) && Exclusive(Step(h, a))
  {
  }

  lemma StepKeepsUnique(h: Shared, a: Action)
    requires Good(h.s) && Unique(h) && Enabled(h, a)
    ensures Unique(Step(h, a))
  {
    if a.Publish? {
      PublishKeepsUnique(h, a.id);
    }
  }

  lemma PublishKeepsUnique(h: Shared, id: nat)
    requires Unique(h) && id in h.workers && h.workers[id].Linked?
    ensures Unique(h.(pushed := h.pushed + [Job(id, h.workers[id].fd)], workers := h.workers[id := Worker.Pushed]))
  {
  }

  lemma StepKeepsFair(h: Shared, a: Action)
    requires Good(h.s) && Fair(h) && Enabled(h, a)
    ensures Fair(Step(h, a))
  {
  }

  lemma JobsSnoc(os: seq<Outcome>, o: Outcome)
    ensures Jobs(os + [o]) == Jobs(os) + [o.job]
  {
    assert (os + [o])[..|os|] == os;
  }

  lemma StepConserves(h: Shared, a: Action)
    requires Good(h.s) && Exclusive(h) && Conserved(h) && Enabled(h, a)
    ensures Conserved(Step(h, a))
  {
    match a
    case Publish(id) => PublishConserves(h, id);
    case DrainJob(ops) => TurnConserves(h, ops);
    case _ => assert Pending(Step(h, a)) == Pending(h);
  }

  lemma PublishConserves(h: Shared, id: nat)
    requires Good(h.s) && Conserved(h) && Enabled(h, Publish(id))
    requires h.lock == Thread(id) && h.workers[id].next == h.jobs
    ensures Conserved(Step(h, Publish(id)))
  {
    var h', j := Step(h, Publish(id)), Job(id, h.workers[id].fd);
    assert Pending(h) == h.jobs && Pending(h') == [j] + h.jobs;
  }

  lemma TurnConserves(h: Shared, ops: seq<Op>)
    requires Good(h.s) && Conserved(h) && h.lock == Loop && h.todo != []
    ensures Conserved(JobTurn(h, ops))
  {
    var o := Outcome(h.todo[0], h.s);
    var x, y := Jobs(h.delivered), Jobs(h.discarded);
    MovesOver(h.pushed, x, y, h.todo, o.job);
    if Registered(h.s, o.job.fd) {
      JobsSnoc(h.delivered, o);
      assert Jobs(JobTurn(h, ops).delivered) == x + [o.job];
    } else {
      JobsSnoc(h.discarded, o);
      assert Jobs(JobTurn(h, ops).discarded) == y + [o.job];
    }
  }

  /** Moving the head of what is pending to either record changes nothing in sum. */
  lemma MovesOver(all: seq<Job>, x: seq<Job>, y: seq<Job>, todo: seq<Job>, j: Job)
    requires todo != [] && todo[0] == j
    requires multiset(all) == multiset(x) + multiset(y) + multiset(todo)
    ensures multiset(all) == multiset(x + [j]) + multiset(y) + multiset(todo[1..])
    ensures multiset(all) == multiset(x) + multiset(y + [j]) + multiset(todo[1..])
  {
    assert todo == [j] + todo[1..];
  }

  // ----- every interleaving -----

  ghost predicate Run(h: Shared, actions: seq<Action>)
    requires Inv(h)
    decreases actions
  {
    actions == [] || (Enabled(h, actions[0]) && (StepKeeps(h, actions[0]); Run(Step(h, actions[0]), actions[1..])))
  }

  lemma StepKeeps(h: Shared, a: Action)
    requires Inv(h) && Enabled(h, a)
    ensures Inv(Step(h, a))
  {
    StepKeepsExclusive(h, a);
    StepKeepsUnique(h, a);
    StepKeepsFair(h, a);
    StepConserves(h, a);
  }

  ghost function After(h: Shared, actions: seq<Action>): Shared
    requires Inv(h) && Run(h, actions)
    decreases actions
  {
    if actions == [] then h else (StepKeeps(h, actions[0]); After(Step(h, actions[0]), actions[1..]))
  }

  function Start(s: Sel): Shared {
    Shared(s, [], Nobody, map[], [], {}, [], [], [])
  }

  /**
   * Over every interleaving of workers and loop, whatever handlers do to the table: each notification
   * pushed is delivered, discarded or still pending, exactly once, and no two share a number; it was
   * delivered exactly if its descriptor was registered at its turn.
   */
  lemma {:induction false} NothingLostOrRepeated(h: Shared, actions: seq<Action>)
    requires Inv(h) && Run(h, actions)
    ensures var e := After(h, actions);
            && multiset(e.pushed) == multiset(Jobs(e.delivered) + Jobs(e.discarded) + Pending(e))
            && (forall j :: multiset(e.pushed)[j] <= 1)
            && Fair(e)
    decreases actions
  {
    if actions == [] {
      MultisetOfDistinct(h.pushed);
    } else {
      StepKeeps(h, actions[0]);
      NothingLostOrRepeated(Step(h, actions[0]), actions[1..]);
    }
  }

  lemma {:induction false} MultisetOfDistinct(jobs: seq<Job>)
    requires forall i, j :: 0 <= i < j < |jobs| ==> jobs[i].id != jobs[j].id
    ensures forall j :: multiset(jobs)[j] <= 1
  {
    if jobs != [] {
      var init, last := jobs[..|jobs| - 1], jobs[|jobs| - 1];
      MultisetOfDistinct(init);
      assert jobs == init + [last];
      assert last !in init;
    }
  }

  lemma StartIsInOrder(s: Sel)
    requires Good(s)
    ensures Inv(Start(s))
  {
  }

  /** The shared state of a selector nobody has notified yet. */
  ghost function Begin(s: Sel): (h: Shared)
    requires Good(s)
    ensures h == Start(s) && Inv(h)
  {
    StartIsInOrder(s);
    Start(s)
  }

  /** The worker has called but not published yet. */
  predicate OnItsWay(h: Shared, id: nat, fd: nat) {
    id in h.workers && !h.workers[id].Pushed? && h.workers[id].fd == fd
  }

  /** Every call is on its way or was pushed, and nothing else was. */
  ghost predicate Traced(h: Shared, actions: seq<Action>) {
    && (forall id, fd :: Notify(id, fd) in actions ==> OnItsWay(h, id, fd) || Job(id, fd) in h.pushed)
    && (forall id, fd :: OnItsWay(h, id, fd) ==> Notify(id, fd) in actions)
    && (forall j <- h.pushed :: Notify(j.id, j.fd) in actions)
    && (forall id, fd :: Notify(id, fd) in actions ==> id in h.started)
  }

  lemma StepKeepsTraced(h: Shared, a: Action, before: seq<Action>)
    requires Good(h.s) && Traced(h, before) && Enabled(h, a)
    ensures Traced(Step(h, a), before + [a])
  {
    var h' := Step(h, a);
    assert a in before + [a];
    forall id, fd | Notify(id, fd) in before + [a] ensures OnItsWay(h', id, fd) || Job(id, fd) in h'.pushed {
      assert Notify(id, fd) in before || a == Notify(id, fd);
    }
  }

  lemma {:induction false} RunKeepsTraced(h: Shared, before: seq<Action>, actions: seq<Action>, all: seq<Action>)
    requires Inv(h) && Run(h, actions) && Traced(h, before) && before + actions == all
    ensures Traced(After(h, actions), all)
    decreases actions
  {
    if actions == [] {
      assert before == all;
    } else {
      assert before + [actions[0]] + actions[1..] == all;
      StepKeeps(h, actions[0]);
      StepKeepsTraced(h, actions[0], before);
      RunKeepsTraced(Step(h, actions[0]), before + [actions[0]], actions[1..], all);
    }
  }

  /**
   * From a selector nobody has notified yet, over every interleaving: what was pushed are the calls that
   * workers made, each with its own descriptor, but for those still on their way; each pushed one was
   * delivered, was discarded or is pending, exactly once, and was delivered exactly if its descriptor was
   * registered at its turn.
   */
  lemma EveryCallIsAccountedFor(s: Sel, actions: seq<Action>)
    requires Good(s) && Run(Begin(s), actions)
    ensures var e := After(Begin(s), actions);
            && (forall id, fd :: Notify(id, fd) in actions ==> OnItsWay(e, id, fd) || Job(id, fd) in e.pushed)
            && (forall j <- e.pushed :: Notify(j.id, j.fd) in actions)
            && multiset(e.pushed) == multiset(Jobs(e.delivered) + Jobs(e.discarded) + Pending(e))
            && (forall j :: multiset(e.pushed)[j] <= 1)
            && Fair(e)
  {
    NothingLostOrRepeated(Begin(s), actions);
    assert [] + actions == actions;
    RunKeepsTraced(Begin(s), [], actions, actions);
  }

  // ----- in place -----

  /** All the turns of a drain; a handler that runs takes the next operations of the script. */
  ghost function Drained(h: Shared, script: Script): (e: Shared)
    requires Good(h.s)
    ensures Good(e.s) && e.todo == []
    decreases |h.todo|
  {
    if h.todo == [] then h
    else
      var runs := Registered(h.s, h.todo[0].fd);
      Drained(JobTurn(h, Ops(script)), if runs then Rest(script) else script)
  }

  /** A drain is a sequence of the loop's own steps, so nothing else happens under its lock. */
  lemma {:induction false} DrainedIsARun(h: Shared, script: Script) returns (actions: seq<Action>)
    requires Inv(h) && h.lock == Loop
    ensures forall a <- actions :: a.DrainJob?
    ensures Run(h, actions) && After(h, actions) == Drained(h, script)
    decreases |h.todo|
  {
    if h.todo == [] {
      actions := [];
    } else {
      var runs := Registered(h.s, h.todo[0].fd);
      var a := DrainJob(Ops(script));
      StepKeeps(h, a);
      var rest := DrainedIsARun(JobTurn(h, Ops(script)), if runs then Rest(script) else script);
      actions := [a] + rest;
      assert actions[0] == a && actions[1..] == rest;
    }
  }

  /** The two steps a worker makes under its lock. */
  ghost function LinkAndPublish(h: Shared, id: nat): Shared
    requires Good(h.s) && Enabled(h, Link(id))
  {
    Step(Step(h, Link(id)), Publish(id))
  }

  /** One turn of a drain: whether the handler of the job's descriptor ran, with the operations it makes. */
  method HandleJob(sel: Selector, job: Job, ops: seq<Op>, ghost h: Shared) returns (ran: bool, ghost e: Shared)
    requires Good(sel.View()) && h.s == sel.View() && h.todo != [] && h.todo[0] == job && job.fd < FD_SETSIZE
    modifies sel, sel.fds
    ensures Good(sel.View()) && sel.fds == old(sel.fds)
    ensures ran == Registered(h.s, job.fd) && e == JobTurn(h, ops) && e.s == sel.View()
  {
    e := JobTurn(h, ops);
    ran := sel.fds[job.fd].Used();
    if ran {
      sel.Perform(ops);
    }
  }

  class JobList {
    var head: Node?<Job>
    /** The nodes from the head on, and what they hold. */
    ghost var spine: seq<Node<Job>>
    ghost var jobs: seq<Job>

    ghost predicate Valid()
      reads this, spine
    {
      && |spine| == |jobs| && head == Nth(spine, 0)
      && (forall i :: 0 <= i < |spine| ==> spine[i].next == Nth(spine, i + 1))
      && (forall i :: 0 <= i < |spine| ==> spine[i].data == jobs[i])
    }

    constructor ()
      ensures Valid() && jobs == []
    {
      head, spine, jobs := null, [], [];
    }

    /**
     * The critical section of `selector_notify_block`, run by the worker that owns the lock: linking its job
     * and publishing it are its two steps, and the list in memory is then the one they lead to.
     */
    method NotifyBlock(j: Job, ghost h: Shared) returns (ghost e: Shared)
      requires Valid() && Good(h.s) && Exclusive(h) && h.jobs == jobs
      requires Enabled(h, Link(j.id)) && h.workers[j.id].fd == j.fd
      modifies this
      ensures Valid() && e == LinkAndPublish(h, j.id) && jobs == e.jobs
      ensures forall n <- spine :: n in old(spine) || fresh(n)
    {
      var job := new Node(j, null);
      job.next := head;
      head := job;
      spine, jobs := [job] + spine, [j] + jobs;
      e := LinkAndPublish(h, j.id);
    }

    /** The critical section of `handle_block_notifications`; `h` is the shared state it works on. */
    method HandleBlockNotifications(sel: Selector, script: Script, ghost h: Shared) returns (ghost e: Shared)
      requires Valid() && Good(sel.View()) && h.s == sel.View() && h.todo == jobs
      requires forall j <- jobs :: j.fd < FD_SETSIZE
      modifies this, sel, sel.fds
      ensures Valid() && jobs == [] && e == Drained(h, script) && sel.View() == e.s && sel.fds == old(sel.fds)
    {
      e := h;
      var left := script;
      var j := head;
      ghost var k := 0;
      while j != null
        modifies sel, sel.fds
        invariant Valid()
        invariant Good(sel.View()) && sel.fds == old(sel.fds)
        invariant k <= |spine| && j == Nth(spine, k)
        invariant e.s == sel.View() && e.todo == jobs[k..]
        invariant Drained(e, left) == Drained(h, script)
        decreases |spine| - k
      {
        assert jobs[k] in jobs;
        var ran;
        ran, e := HandleJob(sel, j.data, Ops(left), e);
        if ran {
          left := Rest(left);
        }
        j := j.next;
        k := k + 1;
      }
      head, spine, jobs := null, [], [];
    }
  }
}
