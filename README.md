# NFA loader

A Dafny model of the automaton loader in `src/structures/NFA.java`. An `NFA`
object is built from two text files in one directory:

- `nfa<id>_states.txt` has one state per non-empty line, written
  `initial,final,label`;
- `nfa<id>_transitions.txt` has one transition per non-empty line, written
  `from,to,label`.

The constructor loads the states first, so their number is known. It then
allocates one empty adjacency slot per state and loads the transitions. Each
transition is appended to the slot of its `from` state.

The project has three modules:

- `JavaText` (`java_text.dfy`) holds the pieces of `java.lang` the loader
  relies on, written out:
  - `String.split(",")`, which drops trailing empty fields;
  - `Integer.parseInt`;
  - `String.valueOf(int)`;
  - `List.get`;
  - `String.charAt(0)`.

  Their unchecked exceptions become `Fault` values. The comma cut
  `Pieces` is proved inverse to `Join` in both directions. `split` of
  two or more joined comma-free fields gives those fields less the
  trailing empty ones. `parseInt` reads back what `valueOf` writes.
- `NfaSpec` (`nfa_spec.dfy`) is the loader as values:
  - the `State`, `Transition` and `Automaton` records;
  - the line parsers `ParseStateLine` and `ParseTransitionLine`;
  - `ParseLines`, which reads a whole file: it skips empty lines (a line
    of spaces is not empty and is parsed), parses the others in order and
    stops at the first line that throws, keeping what it had read;
  - `Slots`, which distributes the read edges over per-state slots,
    keeping file order;
  - `Load`, the whole two-phase construction.

  The lemmas state what the source promises about these.
- `Nfa` (`nfa.dfy`) holds the class `NFA`:
  - its public fields;
  - the loops of `loadStates` and `loadTransitions` as methods that update
    those fields (the reading loop of `loadTransitions` is the method
    `ReadTransitionLines`, whose result is stored in the fields);
  - the constructor as the static method `Create`.

  Each method is proved against the `NfaSpec` function that describes its
  result.

A file system is a map from path to the file's lines. A path that is not in
the map raises `FileNotFoundException`. A load that stops on a bad line keeps
its partial state. In the source, that partial state is left in the fields
of an object whose constructor then throws. The model keeps it the same way:
`Loaded(items, failure)`.

Some members are definitions whose meaning is stated by lemmas: their rows
in the table below name those lemmas.

Behaviour of the code worth knowing:

- A states line also fails when its label field is empty (`charAt(0)`), not
  only when it has fewer than three fields. A line `1,0,` has only two
  fields, because `split` drops the empty last one.
- Only lines of length 0 are skipped. A line holding spaces is parsed like
  any other, and fails.
- `reader.close()` is called only after a complete read, so a failing line
  leaves the file open. Closing is not part of this model.
- `toState` is stored as parsed, with no range check. The model keeps this
  leniency, and `LoadWritten` states it.

## Model

| member | source | states |
|---|---|---|
| JavaText.Pieces | src/structures/NFA.java:54 | cutting at every comma gives at least one piece and no piece holds a comma |
| JavaText.DropTrailingEmpty | src/structures/NFA.java:54 | `split` keeps a prefix of the pieces, drops only empty ones, and its last kept field is non-empty |
| JavaText.Split | src/structures/NFA.java:54 | `split(",")`; see SplitFields, JoinPieces, PiecesOfJoin and SplitOfJoin |
| JavaText.SplitFields | src/structures/NFA.java:54 | the fields of a line are comma-free, a prefix of its pieces with only empty pieces after it, their last one non-empty when the line has a comma, and the whole line when it has none |
| JavaText.JoinPieces | src/structures/NFA.java:54 | joining the pieces of a line with commas gives the line back |
| JavaText.PiecesOfJoin | src/structures/NFA.java:54 | cutting comma-free fields joined with commas gives the fields back |
| JavaText.SplitOfJoin | src/structures/NFA.java:54 | `split` of two or more joined comma-free fields is those fields less the trailing empty ones |
| JavaText.ParseInt | src/structures/NFA.java:86-87 | `Integer.parseInt`; see ParseIntFormat and ParseIntToString |
| JavaText.ParseIntFormat | src/structures/NFA.java:86-87 | `parseInt` fails only with NumberFormatException, and what it accepts is non-empty and comma-free |
| JavaText.IntToString | src/structures/NFA.java:38-39 | `valueOf` writes at least one character and no comma |
| JavaText.ParseIntToString | src/structures/NFA.java:86-87 | `parseInt` of `valueOf(n)` succeeds exactly when n fits an int, and then gives n back |
| JavaText.IntToStringInjective | src/structures/NFA.java:38-39 | different ints have different decimal text |
| JavaText.Get | src/structures/NFA.java:56-58 | `row.get(k)` gives field k when the row has one, and otherwise throws IndexOutOfBoundsException |
| JavaText.FirstChar | src/structures/NFA.java:58 | `charAt(0)` gives the first character of a non-empty field, and otherwise throws StringIndexOutOfBoundsException |
| NfaSpec.ParseStateLine | src/structures/NFA.java:54-60 | a states line never throws NumberFormatException, and one that is read holds a comma; see StateLineFields and StateLineRoundTrip |
| NfaSpec.StateLineFields | src/structures/NFA.java:54-60 | a states line is read exactly when it has three fields and a non-empty third. Initial and final are true exactly when their field is "1", and the label is the third field's first character. Otherwise the error is get(2) or charAt(0) |
| NfaSpec.ParseTransitionLine | src/structures/NFA.java:84-90 | a transitions line that is read has a source below the number of slots; see TransitionLineFields and TransitionLineRoundTrip |
| NfaSpec.TransitionLineFields | src/structures/NFA.java:84-90 | a transitions line is read exactly when it has three fields, the first two parse as ints, the third is non-empty and `from` names a slot. `to` is stored unchecked. A failure is the first exception in evaluation order |
| NfaSpec.CommaLabelRow | src/structures/NFA.java:54-58 | a line whose label is a comma, after two comma-free fields the second of which is non-empty, splits into just those two fields |
| NfaSpec.StateLineRoundTrip | src/structures/NFA.java:54-60 | the line written for a state reads back to that state exactly when its label is not a comma |
| NfaSpec.TransitionLineRoundTrip | src/structures/NFA.java:84-90 | the line written for an edge reads back to that edge exactly when its source is an allocated slot that fits an int and its label is not a comma |
| NfaSpec.NonEmptyLines | src/structures/NFA.java:51-52 | the lines kept are no more than the lines and are all non-empty; see NonEmptyLinesInOrder |
| NfaSpec.NonEmptyLinesStep | src/structures/NFA.java:51-52 | line j adds itself, when it is not empty, to the lines kept before it, and adds nothing when it is empty |
| NfaSpec.NonEmptyLinesPrefix | src/structures/NFA.java:51-52 | the lines kept from a prefix of the file are a prefix of those kept from the whole file |
| NfaSpec.NonEmptyLinesInOrder | src/structures/NFA.java:51-52 | every non-empty line j is kept, at the position given by the number of non-empty lines before it |
| NfaSpec.ParseLines | src/structures/NFA.java:51-63 | the read loop reads no more items than there are lines, and a failure names one of the lines; see ParseLinesItems and ParseLinesFailure |
| NfaSpec.ParseLinesItems | src/structures/NFA.java:51-63 | item k comes from the k-th non-empty line. A read that does not stop has exactly one item per non-empty line |
| NfaSpec.ParseLinesFailure | src/structures/NFA.java:51-63 | a read stops exactly when some non-empty line throws. It then reports the first such line, by position, with its fault, and keeps one item per non-empty line before it |
| NfaSpec.ParseLinesStep | src/structures/NFA.java:51-63 | one loop iteration: an empty line changes nothing, a good line appends its item, and a bad line stops the read at that line |
| NfaSpec.ParseLinesStops | src/structures/NFA.java:51-64 | after the first bad line, the rest of the file changes nothing |
| NfaSpec.EmptyLinesReadNothing | src/structures/NFA.java:51-52 | a file of empty lines reads like a file with no lines |
| NfaSpec.ParseLinesAllOk | src/structures/NFA.java:51-63 | a file whose every line parses reads to exactly those items, in order |
| NfaSpec.ReadTransitionsStep | src/structures/NFA.java:81-93 | one iteration of the transitions loop, stated with the transitions line parser |
| NfaSpec.EmptySlots | src/structures/NFA.java:71-75 | pre-allocation gives n slots, all empty |
| NfaSpec.Slots | src/structures/NFA.java:73-75 | there is one slot per state, however many edges are read; see SlotsAreOutgoing |
| NfaSpec.SlotsStep | src/structures/NFA.java:90-91 | a read edge appends its transition to the end of its own slot and leaves every other slot as it was, and the total number of stored transitions goes up by one |
| NfaSpec.SlotsAreOutgoing | src/structures/NFA.java:90 | slot s holds the transitions of exactly the edges leaving s, in file order |
| NfaSpec.TotalLengthEmpty | src/structures/NFA.java:70-75 | freshly allocated slots hold no transitions |
| NfaSpec.SlotsTotal | src/structures/NFA.java:90-91 | the slots together hold one transition per edge read |
| NfaSpec.StatesFileName | src/structures/NFA.java:38 | the states file name starts with the directory and "nfa" and ends with "_states.txt"; see FileNamesDistinct |
| NfaSpec.TransitionsFileName | src/structures/NFA.java:39 | the transitions file name starts with the directory and "nfa" and ends with "_transitions.txt"; see FileNamesDistinct |
| NfaSpec.FileNamesDistinct | src/structures/NFA.java:38-39 | the states and transitions files of one automaton differ, and different ids use different files |
| NfaSpec.Load | src/structures/NFA.java:35-40 | a successful load keeps the id and has one slot per state, and a missing-file error names a file that is missing; see LoadShape and LoadWritten |
| NfaSpec.LoadShape | src/structures/NFA.java:35-95 | a successful load has found both files and keeps the id. Its number of states is the number of slots, the number of states read and the number of non-empty states lines, and state k is the k-th such line read. Its number of transitions is the total over the slots and the number of non-empty transitions lines. Slot s holds the transitions of exactly the edges read that leave s, in file order |
| NfaSpec.LoadOfReads | src/structures/NFA.java:35-40 | two files present and read to the end give the automaton of what was read |
| NfaSpec.LoadWritten | src/structures/NFA.java:35-95 | files written from states and edges, with comma-free labels and sources that are states, load back to those states. Each edge's transition is in its source's slot, in file order, and any target is accepted |
| NfaSpec.EmptyLinesLoadEmpty | src/structures/NFA.java:35-95 | two files of empty lines, or of no lines, give an automaton with no states, no transitions and no slots |
| NfaSpec.ScenarioStates | src/structures/NFA.java:54-62 | three states lines read to three states, the first initial and the second final |
| NfaSpec.ScenarioTransitionLines | src/structures/NFA.java:84-91 | three transitions lines over three states read to three edges, in file order |
| NfaSpec.ScenarioTransitionSlots | src/structures/NFA.java:90 | those edges leave slot 0 with two transitions in file order, slot 1 with one, and slot 2 empty |
| NfaSpec.ScenarioSpaceLine | src/structures/NFA.java:52-57 | an empty line is skipped, but a line holding one space is parsed and stops the load at `get(1)` |
| NfaSpec.ScenarioMissingLabel | src/structures/NFA.java:54-58 | the states line `1,0` stops the load at line 0 with an index error |
| Nfa.NFA.Empty | src/structures/NFA.java:28-33 | the object before loading has the given id, no states and no slots |
| Nfa.NFA.LoadStates | src/structures/NFA.java:42-66 | the state counter equals the length of the state list. A missing file leaves both reset and reports it. Otherwise the list and the failure are exactly the read of the states file |
| Nfa.NFA.ResetTransitions | src/structures/NFA.java:70-75 | the counter is zero and there is one empty slot per known state |
| Nfa.NFA.LoadTransitions | src/structures/NFA.java:68-95 | there is one slot per state, and the counter equals the total over the slots. A missing file leaves the empty slots and reports it. Otherwise the failure is that of the read, the slots are `Slots` of the edges read, and the counter is their number |
| Nfa.ReadTransitionLines | src/structures/NFA.java:80-93 | from the empty slots, the loop leaves the failure of the read, the slots of the edges read and their number, which is the total over the slots |
| Nfa.NFA.Create | src/structures/NFA.java:35-40 | the constructor succeeds exactly when `Load` does. It then gives a fresh, consistent object holding `Load`'s automaton; otherwise it gives `Load`'s error |
| Nfa.LoadTwice | src/structures/NFA.java:35-40 | constructing twice from the same files gives two distinct objects with the same automaton, or the same error twice |

## Left out

- File reading: `FileReader`, `BufferedReader`, `readLine`'s handling of line terminators and `reader.close()`. A file is given as its list of lines.
- JavaText.Fault: `IndexOutOfBounds` stands for two Java exceptions. `get` past the end of a row built by `Arrays.asList` throws ArrayIndexOutOfBoundsException, and `get` past the end of the `ArrayList` of slots throws IndexOutOfBoundsException. The model does not tell a too-short transitions row from an out-of-range `from`; both are reported by line and fault.
- NfaSpec.LoadError: a `BadLine` from `Load` gives the line's position but not which file it is in. In the source the stack trace names `loadStates` or `loadTransitions`.
- I/O errors other than a missing file. An unreadable or unopenable file that does exist is not modelled.
- Nfa.NFA.LoadTransitions: the reading loop, `ReadTransitionLines`, builds the slot lists and the counter as values. `LoadTransitions` stores them in the fields when the loop ends or stops at a bad line. In the source the fields are updated line by line. No other code runs in between, so both leave the same state at every exit.
- Nfa.NFA.LoadTransitions: the inner adjacency lists are values. In the source they are separate `ArrayList` objects, so a caller holding one would see later appends; aliasing of that kind is not modelled.
- Nfa.NFA.LoadStates: the counter is a `nat`. The source's `int` counter would wrap after 2^31 - 1 lines, and the model ignores that.
- Nfa.NFA.LoadTransitions: the counter is a `nat` for the same reason.
- Nfa.NFA.Empty: the source's list fields are `null` until the first load. The model starts them as empty lists.
- Other code can assign the public fields directly, for example a negative `numberOfStates`. The model does not represent such writes: `numberOfStates` is a `nat` and only the load methods change the fields.
- JavaText.ParseInt: only ASCII digits are accepted. `Integer.parseInt` also accepts other Unicode decimal digits through `Character.digit`.
- Characters are Dafny `char`s. Java's UTF-16 code units and surrogate pairs are not modelled.
- The `State` and `Transition` classes are not part of this model. They are records holding the fields passed at their construction sites, with no further behaviour.
- What the automaton is later used for (route planning, label matching) is outside the loader and not modelled.
