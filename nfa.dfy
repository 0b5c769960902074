/** The NFA object of src/structures/NFA.java: public counters and lists
    that the two load methods reset and then fill line by line. Each file
    is given as its lines, looked up by path in a FileSystem map. */
module Nfa {
  import opened JavaText
  import opened NfaSpec

  class NFA {
    const nfaId: Int32
    var numberOfStates: nat
    var numberOfTransitions: nat
    var states: seq<State>
    var transitions: seq<seq<Transition>>

    /** The automaton the fields currently hold. */
    function Model(): Automaton
      reads this
    {
      Automaton(nfaId, numberOfStates, numberOfTransitions, states, transitions)
    }

    /** A fully loaded object: the counters agree with the lists and there is
        one slot per state. */
    ghost predicate Valid()
      reads this
    {
      numberOfStates == |states| == |transitions| &&
      numberOfTransitions == TotalLength(transitions)
    }

    /** The object before any file is read: Java's default field values,
        with the unset lists as empty ones. */
    constructor Empty(nfaId: Int32)
      ensures this.nfaId == nfaId && Valid()
      ensures numberOfStates == 0 && states == [] && transitions == []
    {
      this.nfaId := nfaId;
      numberOfStates := 0;
      numberOfTransitions := 0;
      states := [];
      transitions := [];
    }

    /** loadStates: resets the state list, then appends one State per
        non-empty line of the file, counting them. On a bad line it stops,
        keeping the states appended before it. */
    method LoadStates(filepath: string, fs: FileSystem) returns (failure: Option<LoadError>)
      modifies this`numberOfStates, this`states
      ensures numberOfStates == |states|
      ensures filepath !in fs ==> failure == Some(FileNotFound(filepath)) && states == []
      ensures filepath in fs ==> Loaded(states, failure) == ParseLines(ParseStateLine, fs[filepath])
    {
      numberOfStates := 0;
      states := [];
      if filepath !in fs {
        return Some(FileNotFound(filepath));
      }
      var lines := fs[filepath];
      var i := 0;
      while i < |lines|
        invariant 0 <= i <= |lines|
        invariant numberOfStates == |states|
        invariant ParseLines(ParseStateLine, lines[..i]) == Loaded(states, None)
      {
        ParseLinesStep(ParseStateLine, lines, i);
        var line := lines[i];
        if |line| > 0 {
          var parsed := ParseStateLine(line);
          if parsed.Err? {
            failure := Some(BadLine(i, parsed.error));
            ParseLinesStops(ParseStateLine, lines, i + 1);
            return;
          }
          states := states + [parsed.value];
          numberOfStates := numberOfStates + 1;
        }
        i := i + 1;
      }
      assert lines[..i] == lines;
      failure := None;
    }

    /** The start of loadTransitions: no transitions counted and one empty
        slot per known state. */
    method ResetTransitions()
      modifies this`numberOfTransitions, this`transitions
      ensures numberOfTransitions == 0 == TotalLength(transitions)
      ensures transitions == EmptySlots(numberOfStates)
    {
      numberOfTransitions := 0;
      transitions := [];
      var k := 0;
      while k < numberOfStates
        invariant k <= numberOfStates
        invariant numberOfTransitions == 0
        invariant transitions == EmptySlots(k)
      {
        transitions := transitions + [[]];
        k := k + 1;
      }
      TotalLengthEmpty(numberOfStates);
    }

    /** loadTransitions: resets the transition lists to one empty slot per
        known state, then appends each non-empty line's Transition to the end
        of the slot of its source state, counting them. On a bad line it
        stops, keeping the transitions appended before it. The reading loop
        is ReadTransitionLines; what it leaves is stored in the fields. */
    method LoadTransitions(filepath: string, fs: FileSystem) returns (failure: Option<LoadError>)
      modifies this`numberOfTransitions, this`transitions
      ensures |transitions| == numberOfStates
      ensures numberOfTransitions == TotalLength(transitions)
      ensures filepath !in fs ==>
        failure == Some(FileNotFound(filepath)) && transitions == EmptySlots(numberOfStates)
      ensures filepath in fs ==>
        var read := ReadTransitions(numberOfStates, fs[filepath]);
        failure == read.failure &&
        transitions == Slots(numberOfStates, read.items) &&
        numberOfTransitions == |read.items|
    {
      ResetTransitions();
      if filepath !in fs {
        return Some(FileNotFound(filepath));
      }
      var slots, count;
      slots, count, failure := ReadTransitionLines(numberOfStates, fs[filepath], transitions);
      transitions, numberOfTransitions := slots, count;
    }

    /** The Java constructor: derives both file names from the directory and
        the id, loads the states, then the transitions; the first failure is
        thrown and no object is handed out. */
    static method Create(filepath: string, nfaId: Int32, fs: FileSystem) returns (r: Result<NFA, LoadError>)
      ensures r.Ok? <==> Load(filepath, nfaId, fs).Ok?
      ensures r.Ok? ==> fresh(r.value) && r.value.Valid() && r.value.Model() == Load(filepath, nfaId, fs).value
      ensures r.Err? ==> r.error == Load(filepath, nfaId, fs).error
    {
      var nfa := new NFA.Empty(nfaId);
      var failure := nfa.LoadStates(StatesFileName(filepath, nfaId), fs);
      if failure.Some? {
        return Err(failure.value);
      }
      failure := nfa.LoadTransitions(TransitionsFileName(filepath, nfaId), fs);
      if failure.Some? {
        return Err(failure.value);
      }
      return Ok(nfa);
    }
  }

  /** The reading loop of loadTransitions, on the `n` freshly allocated empty
      slots it starts from: each good line's transition goes to the end of
      its source's slot and is counted, up to the first bad line. */
  method ReadTransitionLines(n: nat, lines: seq<string>, start: seq<seq<Transition>>)
    returns (slots: seq<seq<Transition>>, count: nat, failure: Option<LoadError>)
    requires start == EmptySlots(n)
    ensures var read := ReadTransitions(n, lines);
      failure == read.failure && slots == Slots(n, read.items) &&
      count == |read.items| == TotalLength(slots)
  {
    TotalLengthEmpty(n);
    slots, count := start, 0;
    ghost var edges: seq<Edge> := [];
    var i := 0;
    while i < |lines|
      invariant 0 <= i <= |lines|
      invariant ReadTransitions(n, lines[..i]) == Loaded(edges, None)
      invariant slots == Slots(n, edges)
      invariant count == |edges| == TotalLength(slots)
    {
      ReadTransitionsStep(n, lines, i);
      var line := lines[i];
      if |line| > 0 {
        var parsed := ParseTransitionLine(n, line);
        if parsed.Err? {
          failure := Some(BadLine(i, parsed.error));
          return;
        }
        var e := parsed.value;
        SlotsStep(n, edges, e);
        slots := slots[e.source := slots[e.source] + [e.transition]];
        count := count + 1;
        edges := edges + [e];
      }
      i := i + 1;
    }
    assert lines[..i] == lines;
    failure := None;
  }

  /** Constructing twice from the same files gives two distinct objects
      holding the same automaton, or the same error twice. */
  method LoadTwice(filepath: string, nfaId: Int32, fs: FileSystem)
    returns (first: Result<NFA, LoadError>, second: Result<NFA, LoadError>)
    ensures first.Ok? <==> second.Ok?
    ensures first.Ok? ==> first.value != second.value && first.value.Model() == second.value.Model()
    ensures first.Err? ==> first == second
  {
    first := NFA.Create(filepath, nfaId, fs);
    second := NFA.Create(filepath, nfaId, fs);
  }
}
