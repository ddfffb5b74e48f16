/** The table-driven automaton, and the generator of automata that compare with a text ignoring case. */
module Parsers {
  import opened Bytes

  datatype EventType = STRING_CMP_MAYEQ | STRING_CMP_EQ | STRING_CMP_NEQ

  /** The actions fill an event with a type and the byte that caused it. */
  type Action = EventType

  datatype ParserEvent = ParserEvent(kind: EventType, data: byte, n: nat)

  /** The condition that holds of every byte. */
  const ANY := 0x200

  datatype Transition = Transition(cond: int, dest: nat, act1: Action, act2: Option<Action>)

  /** A definition: the transitions of each state, tried in order. */
  datatype Definition = Definition(start: nat, states: seq<seq<Transition>>) {
    ghost predicate Ok() {
      && start < |states|
      && forall i, j :: 0 <= i < |states| && 0 <= j < |states[i]| ==> states[i][j].dest < |states|
    }
  }

  // ----- the interpreter -----

  /** Bit by bit. */
  function BitAnd(a: nat, b: nat): nat {
    if a == 0 || b == 0 then 0 else (if a % 2 == 1 && b % 2 == 1 then 1 else 0) + 2 * BitAnd(a / 2, b / 2)
  }

  /** A byte, any byte, or a class of bytes. */
  predicate Matches(t: Transition, c: byte, class_: nat) {
    if t.cond <= 0xFF then c == t.cond
    else if t.cond == ANY then true
    else BitAnd(class_, t.cond) != 0
  }

  /** The first transition that matches, or the number of transitions. */
  function FirstMatch(ts: seq<Transition>, c: byte, class_: nat): (k: nat)
    ensures k <= |ts|
    ensures forall i :: 0 <= i < k ==> !Matches(ts[i], c, class_)
    ensures k < |ts| ==> Matches(ts[k], c, class_)
  {
    if ts == [] || Matches(ts[0], c, class_) then 0 else 1 + FirstMatch(ts[1..], c, class_)
  }

  /** Where a parser is, and the events of its last byte: a second one only if a second action ran. */
  datatype Parser = Parser(state: nat, e1: ParserEvent, e2: ParserEvent, two: bool)

  function Feed(def: Definition, classes: seq<nat>, p: Parser, c: byte): Parser
    requires |classes| == 256 && p.state < |def.states|
  {
    var ts := def.states[p.state];
    var k := FirstMatch(ts, c, classes[c]);
    if k == |ts| then p.(two := false)
    else
      var t := ts[k];
      Parser(t.dest, ParserEvent(t.act1, c, 1), if t.act2.Some? then ParserEvent(t.act2.value, c, 1) else p.e2, t.act2.Some?)
  }

  lemma FeedStaysInside(def: Definition, classes: seq<nat>, p: Parser, c: byte)
    requires def.Ok() && |classes| == 256 && p.state < |def.states|
    ensures Feed(def, classes, p, c).state < |def.states|
  {
  }

  function FeedAll(def: Definition, classes: seq<nat>, p: Parser, input: seq<byte>): (r: Parser)
    requires def.Ok() && |classes| == 256 && p.state < |def.states|
    ensures r.state < |def.states|
  {
    if input == [] then p
    else
      var q := FeedAll(def, classes, p, input[..|input| - 1]);
      FeedStaysInside(def, classes, q, input[|input| - 1]);
      Feed(def, classes, q, input[|input| - 1])
  }

  // ----- the generator -----

  function ToLower(c: byte): byte {
    if 65 <= c <= 90 then c + 32 else c
  }

  function ToUpper(c: byte): byte {
    if 97 <= c <= 122 then c - 32 else c
  }

  function Single(cond: int, dest: nat, a: Action): Transition {
    Transition(cond, dest, a, None)
  }

  /** The transitions of the generated automaton: a state per byte of the text, then EQ, then NEQ. */
  function StateOf(s: seq<byte>, i: nat): seq<Transition>
    requires i < |s| + 2
  {
    var neq := Single(ANY, |s| + 1, STRING_CMP_NEQ);
    if i < |s| then
      var a := if i + 1 == |s| then STRING_CMP_EQ else STRING_CMP_MAYEQ;
      [Single(ToLower(s[i]), i + 1, a), Single(ToUpper(s[i]), i + 1, a), neq]
    else [neq]
  }

  function Comparer(s: seq<byte>): (d: Definition)
    ensures d.Ok()
  {
    Definition(0, seq(|s| + 2, i requires 0 <= i < |s| + 2 => StateOf(s, i)))
  }

  ghost predicate Ascii(s: seq<byte>) {
    forall i :: 0 <= i < |s| ==> 0 < s[i] < 128
  }

  /** Equal but for the case of letters. */
  predicate SameText(a: seq<byte>, b: seq<byte>) {
    |a| == |b| && forall i :: 0 <= i < |a| ==> ToLower(a[i]) == ToLower(b[i])
  }

  /** No byte belongs to any class. */
  const NO_CLASSES: seq<nat> := seq(256, _ => 0)

  const IDLE := Parser(0, ParserEvent(STRING_CMP_MAYEQ, 0, 0), ParserEvent(STRING_CMP_MAYEQ, 0, 0), false)

  /** What the last event on a non-empty input must be. */
  function Expected(s: seq<byte>, input: seq<byte>): EventType {
    if SameText(input, s) then STRING_CMP_EQ
    else if |input| < |s| && SameText(input, s[..|input|]) then STRING_CMP_MAYEQ
    else STRING_CMP_NEQ
  }

  lemma CaseMatch(c: byte, x: byte)
    requires 0 < x < 128
    ensures c == ToLower(x) || c == ToUpper(x) <==> ToLower(c) == ToLower(x)
  {
  }

  /** One byte, from the state that the text read so far leads to. */
  lemma ComparerStep(s: seq<byte>, p: Parser, c: byte)
    requires Ascii(s) && p.state < |s| + 2
    ensures var q := Feed(Comparer(s), NO_CLASSES, p, c);
            && q.e1.data == c && q.e1.n == 1 && !q.two
            && if p.state < |s| && ToLower(c) == ToLower(s[p.state]) then
                 q.state == p.state + 1 && q.e1.kind == (if p.state + 1 == |s| then STRING_CMP_EQ else STRING_CMP_MAYEQ)
               else q.state == |s| + 1 && q.e1.kind == STRING_CMP_NEQ
  {
    var ts := Comparer(s).states[p.state];
    assert ts == StateOf(s, p.state);
    var k := FirstMatch(ts, c, 0);
    if p.state < |s| {
      CaseMatch(c, s[p.state]);
      assert Matches(ts[0], c, 0) <==> c == ToLower(s[p.state]);
      assert Matches(ts[1], c, 0) <==> c == ToUpper(s[p.state]);
      assert Matches(ts[2], c, 0);
      assert ToLower(c) == ToLower(s[p.state]) ==> k < 2;
    } else {
      assert Matches(ts[0], c, 0);
    }
  }

  /** Where an input leads: as far as it agrees with the text, or to the failure state. */
  lemma {:induction false} ComparerReaches(s: seq<byte>, input: seq<byte>)
    requires Ascii(s)
    ensures var p := FeedAll(Comparer(s), NO_CLASSES, IDLE, input);
            && p.state == (if |input| <= |s| && SameText(input, s[..|input|]) then |input| else |s| + 1)
            && (input != [] ==> p.e1 == ParserEvent(Expected(s, input), input[|input| - 1], 1) && !p.two)
  {
    if input != [] {
      var n := |input| - 1;
      var init, c := input[..n], input[n];
      ComparerReaches(s, init);
      ComparerStep(s, FeedAll(Comparer(s), NO_CLASSES, IDLE, init), c);
      OneMore(s, input);
    }
  }

  /** Agreement on one more byte, and what it makes the last event. */
  lemma OneMore(s: seq<byte>, input: seq<byte>)
    requires input != []
    ensures var n := |input| - 1;
            var good := n < |s| && SameText(input[..n], s[..n]) && ToLower(input[n]) == ToLower(s[n]);
            && (good <==> n < |s| && SameText(input, s[..n + 1]))
            && Expected(s, input)
            == if good then (if n + 1 == |s| then STRING_CMP_EQ else STRING_CMP_MAYEQ) else STRING_CMP_NEQ
  {
    var n := |input| - 1;
    if n < |s| {
      var t := s[..n + 1];
      assert SameText(input, t) ==> SameText(input[..n], s[..n]) && ToLower(input[n]) == ToLower(t[n]);
      if SameText(input[..n], s[..n]) && ToLower(input[n]) == ToLower(s[n]) {
        forall i | 0 <= i <= n ensures ToLower(input[i]) == ToLower(t[i]) {
          assert i < n ==> input[..n][i] == input[i] && s[..n][i] == t[i];
        }
      }
      assert n + 1 == |s| ==> t == s;
    }
  }

  /**
   * The generated automaton, fed any non-empty input byte by byte: its last event is EQ exactly when
   * the input is the text ignoring case, MAYEQ exactly when it is a proper prefix of it, and NEQ
   * otherwise; and after NEQ only NEQ follows.
   */
  lemma ComparerIsCorrect(s: seq<byte>, input: seq<byte>, more: seq<byte>)
    requires Ascii(s) && input != []
    ensures var p := FeedAll(Comparer(s), NO_CLASSES, IDLE, input);
            && (p.e1.kind == STRING_CMP_EQ <==> SameText(input, s))
            && (p.e1.kind == STRING_CMP_MAYEQ <==> |input| < |s| && SameText(input, s[..|input|]))
            && (p.e1.kind == STRING_CMP_NEQ ==>
                  FeedAll(Comparer(s), NO_CLASSES, IDLE, input + more).e1.kind == STRING_CMP_NEQ)
  {
    ComparerReaches(s, input);
    ComparerReaches(s, input + more);
    NotEqualStays(s, input, more);
  }

  lemma NotEqualStays(s: seq<byte>, input: seq<byte>, more: seq<byte>)
    ensures Expected(s, input) == STRING_CMP_NEQ ==> Expected(s, input + more) == STRING_CMP_NEQ
  {
    var all := input + more;
    if Expected(s, all) != STRING_CMP_NEQ {
      assert forall i :: 0 <= i < |input| ==> all[i] == input[i] && ToLower(all[i]) == ToLower(s[i]);
      assert |input| == |s| ==> s[..|input|] == s;
      assert SameText(input, s[..|input|]);
    }
  }

  /** A parser put back to its start state, whatever it was fed before, compares as a fresh one does. */
  lemma {:induction false} ResetComparesAnew(s: seq<byte>, p: Parser, input: seq<byte>)
    requires Ascii(s) && p.state < |s| + 2
    ensures var q := FeedAll(Comparer(s), NO_CLASSES, p.(state := 0), input);
            var r := FeedAll(Comparer(s), NO_CLASSES, IDLE, input);
            q.state == r.state && (input != [] ==> q.e1 == r.e1 && !q.two)
  {
    if input != [] {
      var init, c := input[..|input| - 1], input[|input| - 1];
      ResetComparesAnew(s, p, init);
      ComparerStep(s, FeedAll(Comparer(s), NO_CLASSES, p.(state := 0), init), c);
      ComparerStep(s, FeedAll(Comparer(s), NO_CLASSES, IDLE, init), c);
    }
  }

  // ----- the generator and the interpreter in place -----

  /** `n` transitions from position `at` of the table are those of a state. */
  ghost predicate Holds(transitions: array<Transition>, at: nat, ts: seq<Transition>)
    reads transitions
  {
    at + |ts| <= transitions.Length && forall k :: 0 <= k < |ts| ==> transitions[at + k] == ts[k]
  }

  /** The three transitions of the state behind `i` matching bytes. */
  method FillState(transitions: array<Transition>, s: seq<byte>, i: nat)
    requires i < |s| && 3 * i + 3 <= transitions.Length
    modifies transitions
    ensures Holds(transitions, 3 * i, StateOf(s, i))
    ensures forall k :: 0 <= k < transitions.Length && !(3 * i <= k < 3 * i + 3) ==> transitions[k] == old(transitions[k])
  {
    var n := |s|;
    var dest := if i + 1 == n then n else i + 1;
    var act := if i + 1 == n then STRING_CMP_EQ else STRING_CMP_MAYEQ;
    transitions[i * 3 + 0] := Transition(ToLower(s[i]), dest, act, None);
    transitions[i * 3 + 1] := Transition(ToUpper(s[i]), dest, act, None);
    transitions[i * 3 + 2] := Transition(ANY, n + 1, STRING_CMP_NEQ, None);
  }

  /** The one transition of the states that lead nowhere else. */
  method FillSink(transitions: array<Transition>, s: seq<byte>, i: nat)
    requires |s| <= i < |s| + 2 && 3 * i < transitions.Length
    modifies transitions
    ensures Holds(transitions, 3 * i, StateOf(s, i))
    ensures forall k :: 0 <= k < transitions.Length && k != 3 * i ==> transitions[k] == old(transitions[k])
  {
    transitions[i * 3] := Transition(ANY, |s| + 1, STRING_CMP_NEQ, None);
  }

  /** `parser_utils_strcmpi`: all the transitions in one array, three slots per state. */
  method Strcmpi(s: seq<byte>) returns (transitions: array<Transition>, states: array<nat>, nstates: array<nat>)
    ensures fresh(transitions) && fresh(states) && fresh(nstates)
    ensures states.Length == nstates.Length == |Comparer(s).states|
    ensures forall i :: 0 <= i < |s| + 2 ==>
              nstates[i] == |Comparer(s).states[i]| && Holds(transitions, states[i], Comparer(s).states[i])
  {
    var n := |s|;
    states := new nat[n + 2](_ => 0);
    nstates := new nat[n + 2](_ => 0);
    for i := 0 to n
      invariant forall j :: 0 <= j < i ==> states[j] == 3 * j && nstates[j] == 3
    {
      states[i] := i * 3;
      nstates[i] := 3;
    }
    states[n], nstates[n] := n * 3, 1;
    states[n + 1], nstates[n + 1] := (n + 1) * 3, 1;
    transitions := FillTable(s);
    forall i | 0 <= i < n + 2
      ensures nstates[i] == |Comparer(s).states[i]| && Holds(transitions, states[i], Comparer(s).states[i])
    {
      assert Comparer(s).states[i] == StateOf(s, i);
      assert Holds(transitions, 3 * i, StateOf(s, i));
      assert states[i] == 3 * i;
    }
  }

  method FillTable(s: seq<byte>) returns (transitions: array<Transition>)
    ensures fresh(transitions)
    ensures forall i :: 0 <= i < |s| + 2 ==> Holds(transitions, 3 * i, StateOf(s, i))
  {
    var n := |s|;
    var zero := Transition(0, 0, STRING_CMP_MAYEQ, None);
    transitions := new Transition[3 * (n + 2)](_ => zero);
    for i := 0 to n
      invariant forall j :: 0 <= j < i ==> Holds(transitions, 3 * j, StateOf(s, j))
    {
      FillState(transitions, s, i);
    }
    FillSink(transitions, s, n);
    FillSink(transitions, s, n + 1);
  }

  class Automaton {
    const classes: seq<nat>
    const transitions: array<Transition>
    const states: array<nat>
    const nstates: array<nat>
    const start: nat
    /** What the tables mean. */
    ghost const def: Definition
    var state: nat
    var e1: ParserEvent
    var e2: ParserEvent
    var two: bool

    ghost predicate Valid()
      reads this, transitions, states, nstates
    {
      && |classes| == 256 && def.Ok() && start == def.start
      && states.Length == nstates.Length == |def.states| && state < |def.states|
      && forall i :: 0 <= i < |def.states| ==>
           nstates[i] == |def.states[i]| && Holds(transitions, states[i], def.states[i])
    }

    ghost function View(): Parser
      reads this
    {
      Parser(state, e1, e2, two)
    }

    /** `parser_init` on the tables of a definition. */
    constructor (
        classes: seq<nat>, transitions: array<Transition>, states: array<nat>, nstates: array<nat>, start: nat,
        ghost def: Definition)
      requires |classes| == 256 && def.Ok() && start == def.start
      requires states.Length == nstates.Length == |def.states|
      requires forall i :: 0 <= i < |def.states| ==>
                 nstates[i] == |def.states[i]| && Holds(transitions, states[i], def.states[i])
      ensures Valid() && this.def == def && this.classes == classes && View() == IDLE.(state := start)
    {
      this.classes := classes;
      this.transitions, this.states, this.nstates := transitions, states, nstates;
      this.start, this.def := start, def;
      state := start;
      e1, e2, two := IDLE.e1, IDLE.e2, false;
    }

    method Reset()
      requires Valid()
      modifies this
      ensures Valid() && View() == old(View()).(state := start)
    {
      state := start;
    }

    method FeedByte(c: byte) returns (event: ParserEvent)
      requires Valid()
      modifies this
      ensures Valid() && View() == Feed(def, classes, old(View()), c) && event == e1
    {
      var class_ := classes[c];
      two := false;
      var base, n := states[state], nstates[state];
      ghost var ts := def.states[state];
      var i := 0;
      while i < n
        invariant 0 <= i <= n && Valid() && View() == old(View()).(two := false)
        invariant forall k :: 0 <= k < i ==> !Matches(ts[k], c, class_)
      {
        var t := transitions[base + i];
        assert t == ts[i];
        if Matches(t, c, class_) {
          assert FirstMatch(ts, c, class_) == i;
          e1 := ParserEvent(t.act1, c, 1);
          if t.act2.Some? {
            two := true;
            e2 := ParserEvent(t.act2.value, c, 1);
          }
          state := t.dest;
          break;
        }
        i := i + 1;
      }
      event := e1;
    }
  }
}
