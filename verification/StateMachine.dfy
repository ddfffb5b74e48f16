/** The generic state-machine engine: arrivals, departures and handlers of the states it visits. */
module StateMachines {
  import opened Bytes

  datatype Kind = OnRead | OnWrite | OnBlock

  /** A state definition: its identifier, and which callbacks it has. */
  datatype Definition = Definition(state: nat, arrival: bool, departure: bool, handlers: set<Kind>)

  /** What the engine did; `invoked` says whether there was a callback to run at that point. */
  datatype Entry =
    | Arrive(state: nat, invoked: bool)
    | Depart(state: nat, invoked: bool)
    | Handle(state: nat, kind: Kind)

  /** A readiness event, and the state its handler answers. */
  datatype Event = Event(kind: Kind, next: nat)

  datatype Machine = Machine(initial: nat, states: seq<Definition>, current: Option<nat>) {
    /** `max_state`. */
    function Max(): int {
      |states| - 1
    }

    /** What `stm_init` accepts. */
    predicate Accepted() {
      && (forall i :: 0 <= i < |states| ==> states[i].state == i)
      && initial < Max()
    }

    ghost predicate Ok() {
      Accepted() && (current.Some? ==> current.value < |states|)
    }

    /** `stm_state`. */
    function State(): nat
      requires Ok()
    {
      if current.Some? then states[current.value].state else initial
    }

    /** The state an event will be handled in. */
    function Here(): nat {
      if current.Some? then current.value else initial
    }

    /** The current state has the handler and its answer is a state. */
    ghost predicate Possible(ev: Event)
      requires Ok()
    {
      ev.kind in states[Here()].handlers && ev.next <= Max()
    }
  }

  function HandleFirst(m: Machine): (Machine, seq<Entry>)
    requires m.Ok()
  {
    if m.current == None then
      (m.(current := Some(m.initial)), [Arrive(m.states[m.initial].state, m.states[m.initial].arrival)])
    else (m, [])
  }

  function Jump(m: Machine, next: nat): (Machine, seq<Entry>)
    requires m.Ok() && m.current.Some? && next <= m.Max()
  {
    var from, to := m.states[m.current.value], m.states[next];
    if m.current.value == next then (m, [])
    else (m.(current := Some(next)), [Depart(from.state, from.departure), Arrive(to.state, to.arrival)])
  }

  /** `stm_handler_read`, `stm_handler_write` and `stm_handler_block`. */
  function Step(m: Machine, ev: Event): (Machine, seq<Entry>)
    requires m.Ok() && m.Possible(ev)
  {
    var (m1, first) := HandleFirst(m);
    var (m2, rest) := Jump(m1, ev.next);
    (m2, first + [Handle(m1.states[m1.current.value].state, ev.kind)] + rest)
  }

  ghost predicate Run(m: Machine, evs: seq<Event>)
    requires m.Ok()
    decreases evs
  {
    evs == [] || (m.Possible(evs[0]) && Run(Step(m, evs[0]).0, evs[1..]))
  }

  ghost function After(m: Machine, evs: seq<Event>): (Machine, seq<Entry>)
    requires m.Ok() && Run(m, evs)
    decreases evs
  {
    if evs == [] then (m, [])
    else
      var (m', log) := Step(m, evs[0]);
      var (m'', rest) := After(m', evs[1..]);
      (m'', log + rest)
  }

  /**
   * A proper history, the visit under way being to `visiting`: an arrival only when nothing is being
   * visited, a departure only from the state being visited, a handler only of that state, and
   * callbacks invoked exactly where the state has them. No visit follows one to the same state.
   */
  ghost predicate Proper(m: Machine, log: seq<Entry>, visiting: Option<nat>, left: Option<nat>)
    requires m.Accepted()
    decreases log
  {
    log == [] ||
    match log[0]
    case Arrive(s, invoked) =>
      && visiting == None && left != Some(s) && s < |m.states| && invoked == m.states[s].arrival
      && Proper(m, log[1..], Some(s), None)
    case Depart(s, invoked) =>
      && visiting == Some(s) && s < |m.states| && invoked == m.states[s].departure
      && Proper(m, log[1..], None, Some(s))
    case Handle(s, kind) =>
      && visiting == Some(s) && s < |m.states| && kind in m.states[s].handlers
      && Proper(m, log[1..], visiting, left)
  }

  /** The state being visited at the end of a history. */
  ghost function Visiting(log: seq<Entry>, visiting: Option<nat>): Option<nat>
    decreases log
  {
    if log == [] then visiting
    else
      match log[0]
      case Arrive(s, _) => Visiting(log[1..], Some(s))
      case Depart(_, _) => Visiting(log[1..], None)
      case Handle(_, _) => Visiting(log[1..], visiting)
  }

  lemma StepIsProper(m: Machine, ev: Event, rest: seq<Entry>)
    requires m.Ok() && m.Possible(ev)
    ensures var (m', log) := Step(m, ev);
            && m'.Ok() && m'.current.Some? && m'.(current := m.current) == m
            && (Proper(m, rest, m'.current, None) ==> Proper(m, log + rest, m.current, None))
            && Visiting(log + rest, m.current) == Visiting(rest, m'.current)
  {
    var (m1, first) := HandleFirst(m);
    var (m2, jump) := Jump(m1, ev.next);
    var handle := Handle(m1.states[m1.current.value].state, ev.kind);
    JumpIsProper(m1, ev.next, rest);
    var tail := [handle] + (jump + rest);
    assert tail[0] == handle && tail[1..] == jump + rest;
    ProperOfStates(m, m1, rest, m2.current, None);
    ProperOfStates(m, m1, tail, m1.current, None);
    assert first + [handle] + jump + rest == first + tail;
    if first != [] {
      assert (first + tail)[0] == first[0] && (first + tail)[1..] == tail;
    } else {
      assert first + tail == tail;
    }
  }

  lemma JumpIsProper(m: Machine, next: nat, rest: seq<Entry>)
    requires m.Ok() && m.current.Some? && next <= m.Max()
    ensures var (m', log) := Jump(m, next);
            && (Proper(m, rest, m'.current, None) ==> Proper(m, log + rest, m.current, None))
            && Visiting(log + rest, m.current) == Visiting(rest, m'.current)
  {
    var (m', log) := Jump(m, next);
    if log == [] {
      assert log + rest == rest;
    } else {
      var arrived := [log[1]] + rest;
      assert arrived[0] == log[1] && arrived[1..] == rest;
      assert (log + rest)[0] == log[0] && (log + rest)[1..] == arrived;
    }
  }

  /**
   * Over every run of a machine that `stm_init` accepts: the history is proper, the reported state
   * is the one last arrived at (or the initial one, before any event), and it is the one being visited.
   */
  lemma {:induction false} RunIsProper(m: Machine, evs: seq<Event>)
    requires m.Ok() && Run(m, evs)
    ensures var (m', log) := After(m, evs);
            && m'.Ok() && Proper(m, log, m.current, None)
            && Visiting(log, m.current) == m'.current
            && m'.State() == if m'.current.Some? then Visiting(log, m.current).value else m.initial
    decreases evs
  {
    if evs != [] {
      var m1 := Step(m, evs[0]).0;
      var (m2, rest) := After(m1, evs[1..]);
      RunIsProper(m1, evs[1..]);
      ProperOfStates(m, m1, rest, m1.current, None);
      StepIsProper(m, evs[0], rest);
    }
  }

  /** Only the states matter for a history. */
  lemma {:induction false} ProperOfStates(m: Machine, m': Machine, log: seq<Entry>, visiting: Option<nat>, left: Option<nat>)
    requires m.Accepted() && m'.Accepted() && m.states == m'.states
    ensures Proper(m, log, visiting, left) <==> Proper(m', log, visiting, left)
    decreases log
  {
    if log != [] {
      match log[0]
      case Arrive(s, _) => ProperOfStates(m, m', log[1..], Some(s), None);
      case Depart(s, _) => ProperOfStates(m, m', log[1..], None, Some(s));
      case Handle(_, _) => ProperOfStates(m, m', log[1..], visiting, left);
    }
  }

  /** A handler that answers its own state causes neither a departure nor an arrival. */
  lemma SelfAnswerStays(m: Machine, ev: Event)
    requires m.Ok() && m.current.Some? && m.Possible(ev) && ev.next == m.State()
    ensures Step(m, ev) == (m, [Handle(m.State(), ev.kind)])
  {
    assert [] + [Handle(m.State(), ev.kind)] + [] == [Handle(m.State(), ev.kind)];
  }

  /** Every event of the run is answered with the state it finds. */
  ghost predicate SelfAnswers(m: Machine, evs: seq<Event>)
    requires m.Ok()
  {
    forall ev <- evs :: ev.next == m.State()
  }

  function Handles(s: nat, evs: seq<Event>): seq<Entry>
    decreases evs
  {
    if evs == [] then [] else [Handle(s, evs[0].kind)] + Handles(s, evs[1..])
  }

  /** However long a state answers itself, it is never left: handlers run, and nothing else. */
  lemma {:induction false} SelfAnswersNeverLeave(m: Machine, evs: seq<Event>)
    requires m.Ok() && m.current.Some? && Run(m, evs) && SelfAnswers(m, evs)
    ensures After(m, evs) == (m, Handles(m.State(), evs))
    decreases evs
  {
    if evs != [] {
      SelfAnswerStays(m, evs[0]);
      SelfAnswersNeverLeave(m, evs[1..]);
    }
  }

  // ----- the engine -----

  class Engine {
    const initial: nat
    const states: seq<Definition>
    var current: Option<nat>
    ghost var log: seq<Entry>

    constructor (initial: nat, states: seq<Definition>)
      ensures this.initial == initial && this.states == states && log == []
    {
      this.initial, this.states := initial, states;
      current, log := None, [];
    }

    ghost function View(): Machine
      reads this
    {
      Machine(initial, states, current)
    }

    /** Whether the assertions of `stm_init` hold; the machine is then at rest. */
    method Init() returns (ok: bool)
      modifies this`current
      ensures ok <==> View().Accepted()
      ensures ok ==> current == None
    {
      for i := 0 to |states|
        invariant forall j :: 0 <= j < i ==> states[j].state == j
      {
        if i != states[i].state {
          return false;
        }
      }
      if initial < |states| - 1 {
        current := None;
        return true;
      }
      ok := false;
    }

    method First()
      requires View().Ok()
      modifies this
      ensures (View(), log) == (HandleFirst(old(View())).0, old(log) + HandleFirst(old(View())).1)
    {
      assert log + [] == log;
      if current == None {
        current := Some(initial);
        log := log + [Arrive(states[initial].state, states[initial].arrival)];
      }
    }

    method JumpTo(next: nat)
      requires View().Ok() && current.Some? && next <= View().Max()
      modifies this
      ensures (View(), log) == (Jump(old(View()), next).0, old(log) + Jump(old(View()), next).1)
    {
      assert log + [] == log;
      if current.value != next {
        ghost var was := log;
        log := log + [Depart(states[current.value].state, states[current.value].departure)];
        current := Some(next);
        log := log + [Arrive(states[current.value].state, states[current.value].arrival)];
        assert log == was + Jump(old(View()), next).1;
      }
    }

    /** The three handlers differ only in which callback they run; `answer` is what it returned. */
    method HandleEvent(kind: Kind, answer: nat) returns (ret: nat)
      requires View().Ok() && View().Possible(Event(kind, answer))
      modifies this
      ensures ret == answer && View().Ok()
      ensures (View(), log)
           == (Step(old(View()), Event(kind, answer)).0, old(log) + Step(old(View()), Event(kind, answer)).1)
    {
      ghost var was := log;
      First();
      log := log + [Handle(states[current.value].state, kind)];
      JumpTo(answer);
      ret := answer;
      assert log == was + Step(old(View()), Event(kind, answer)).1;
    }

    method CurrentState() returns (s: nat)
      requires View().Ok()
      ensures s == View().State()
    {
      s := initial;
      if current != None {
        s := states[current.value].state;
      }
    }
  }
}
