/**
 * The program's state and its main loop. The global `lstTbl` and the file `CDInventory.dat`
 * become the fields of one `Inventory` object; the file is modelled by the sequence of
 * records it holds (`None` when it does not exist), not by its pickle bytes.
 */
module Inventory {
  import opened Wrappers
  import opened Text
  import opened Table
  import opened Console

  /** How one pass of the main loop ends. */
  datatype Status =
    | Continue        // back to the menu
    | Exited          // the user chose `x`
    | InputExhausted  // `input()` hit the end of the console input (an uncaught `EOFError`)
    | FileMissing     // loading found no file: `sys.exit()` after clearing the table
    | FileUnwritable  // saving could not open the file: `sys.exit()` after `FileNotFoundError`,
                      // or an uncaught error such as `PermissionError` ending the run

  /** The table in memory and the records held by the stored file. */
  datatype State = State(table: seq<Record>, stored: Option<seq<Record>>)

  datatype StepResult = StepResult(state: State, status: Status, next: nat)

  /** The record `DataProcessor.myAddProcCode` builds: the ID text converted with `int()`. */
  function ToRecord(id: string, title: string, artist: string): Record
    requires ParseInt(id).Some?
  {
    Record(ParseInt(id).value, title, artist)
  }

  /**
   * An ID typed in plain decimal, as the add prompt accepts it, is displayed exactly as it
   * was typed; only a leading `+` or leading zeros are lost in the conversion.
   */
  lemma ToRecordDisplaysId(id: string, title: string, artist: string)
    requires |id| > 0 && AllDigits(id) && (id[0] != '0' || |id| == 1)
    ensures ParseInt(id).Some?
    ensures IntToString(ToRecord(id, title, artist).id) == id
  {
    NatToStringOfDigits(id);
  }

  /** The reload answer: lower-cased but not stripped, it must be exactly `yes`. */
  predicate ReloadConfirmed(answer: string) {
    Lower(answer) == "yes"
  }

  /** The save answer: stripped and lower-cased, it must be exactly `y`. */
  predicate SaveConfirmed(answer: string) {
    Lower(Strip(answer)) == "y"
  }

  /** Command `l` once the menu key is read: the confirmation, then the reload or the acknowledgement. */
  function LoadCommand(s: State, inputs: seq<string>, p: nat): (r: StepResult)
    requires p <= |inputs|
    ensures p <= r.next <= |inputs|
    ensures r.status == Continue ==> p < r.next
    ensures p < |inputs| && r.status == Continue ==>
      r.next == p + (if ReloadConfirmed(inputs[p]) then 1 else 2)
    ensures p < |inputs| && !ReloadConfirmed(inputs[p]) ==> r.state == s
    ensures p < |inputs| && ReloadConfirmed(inputs[p]) ==>
      && r.state.stored == s.stored && r.state.table == (if s.stored.Some? then s.stored.value else [])
      && (r.status == FileMissing <==> s.stored.None?)
  {
    if p == |inputs| then StepResult(s, InputExhausted, p)
    else if ReloadConfirmed(inputs[p]) then
      match s.stored
      case None => StepResult(State([], None), FileMissing, p + 1)
      case Some(t) => StepResult(State(t, s.stored), Continue, p + 1)
    else if p + 1 == |inputs| then StepResult(s, InputExhausted, p + 1)
    else StepResult(s, Continue, p + 2)
  }

  /** Command `a`: the add prompt, then the new record at the end of the table. */
  function AddCommand(s: State, inputs: seq<string>, p: nat): (r: StepResult)
    requires p <= |inputs|
    ensures p <= r.next <= |inputs|
    ensures r.status == Continue ==> p < r.next
    ensures r.status == Continue || r.status == InputExhausted
    ensures r.status != Continue ==> r.state == s
    ensures r.state.stored == s.stored
    ensures r.status == Continue ==>
      && |r.state.table| == |s.table| + 1 && r.state.table[..|s.table|] == s.table
      && 0 < r.state.table[|s.table|].id < 500
      && r.state.table[|s.table|].title != [] && r.state.table[|s.table|].artist != []
  {
    AddPromptAccepts(inputs, p);
    var (cd, q) := AddPrompt(inputs, p);
    match cd
    case None => StepResult(s, InputExhausted, q)
    case Some(c) =>
      StepResult(State(s.table + [ToRecord(c.id, c.title, c.artist)], s.stored), Continue, q)
  }

  /** Command `d`: one ID line; a non-integer abandons the delete, otherwise the first match goes. */
  function DeleteCommand(s: State, inputs: seq<string>, p: nat): (r: StepResult)
    requires p <= |inputs|
    ensures p <= r.next <= |inputs|
    ensures r.status == Continue ==> p < r.next
    ensures p < |inputs| ==> r.status == Continue && r.next == p + 1
    ensures r.state.stored == s.stored
    ensures p < |inputs| && ParseInt(Strip(inputs[p])).None? ==> r.state == s
    ensures p < |inputs| && ParseInt(Strip(inputs[p])).Some? ==>
      r.state.table == RemoveFirst(s.table, ParseInt(Strip(inputs[p])).value)
  {
    if p == |inputs| then StepResult(s, InputExhausted, p)
    else
      match ParseInt(Strip(inputs[p]))
      case None => StepResult(s, Continue, p + 1)
      case Some(id) => StepResult(State(RemoveFirst(s.table, id), s.stored), Continue, p + 1)
  }

  /** Command `s`: the confirmation, then the write or the acknowledgement. */
  function SaveCommand(s: State, writable: bool, inputs: seq<string>, p: nat): (r: StepResult)
    requires p <= |inputs|
    ensures p <= r.next <= |inputs|
    ensures r.status == Continue ==> p < r.next
    ensures p < |inputs| && r.status == Continue ==>
      r.next == p + (if SaveConfirmed(inputs[p]) then 1 else 2)
    ensures r.state.table == s.table
    ensures r.state.stored != s.stored ==> p < |inputs| && SaveConfirmed(inputs[p]) && writable
    ensures p < |inputs| && SaveConfirmed(inputs[p]) && writable ==>
      r.status == Continue && r.state.stored == Some(s.table)
    ensures p < |inputs| && SaveConfirmed(inputs[p]) ==> (r.status == FileUnwritable <==> !writable)
  {
    if p == |inputs| then StepResult(s, InputExhausted, p)
    else if SaveConfirmed(inputs[p]) then
      if writable then StepResult(State(s.table, Some(s.table)), Continue, p + 1)
      else StepResult(s, FileUnwritable, p + 1)
    else if p + 1 == |inputs| then StepResult(s, InputExhausted, p + 1)
    else StepResult(s, Continue, p + 2)
  }

  /**
   * One pass of the main loop from console position `pos`: read a menu key, then run its
   * command. The source's final "General Error" branch is left out: `MenuChoice` only
   * returns one of the six keys, so the last case is `s`.
   */
  function StepSpec(s: State, writable: bool, inputs: seq<string>, pos: nat): (r: StepResult)
    requires pos <= |inputs|
    ensures pos <= r.next <= |inputs|
    ensures r.status == Continue ==> pos < r.next
  {
    var m := FirstWhere(inputs, pos, IsMenuInput);
    if m == |inputs| then StepResult(s, InputExhausted, |inputs|)
    else
      var cmd := MenuKey(inputs[m]);
      if cmd == "x" then StepResult(s, Exited, m + 1)
      else if cmd == "l" then LoadCommand(s, inputs, m + 1)
      else if cmd == "a" then AddCommand(s, inputs, m + 1)
      else if cmd == "i" then StepResult(s, Continue, m + 1)
      else if cmd == "d" then DeleteCommand(s, inputs, m + 1)
      else SaveCommand(s, writable, inputs, m + 1)
  }

  /**
   * The main loop from position `pos` until it stops, with the final state and why it stopped.
   * The loop always stops: every pass that returns to the menu consumes at least one line
   * (the progress clause of `StepSpec`), which is what the `decreases` clause rests on.
   */
  function Session(s: State, writable: bool, inputs: seq<string>, pos: nat): (r: (State, Status))
    requires pos <= |inputs|
    ensures r.1 != Continue
    decreases |inputs| - pos
  {
    var step := StepSpec(s, writable, inputs, pos);
    if step.status == Continue then Session(step.state, writable, inputs, step.next)
    else (step.state, step.status)
  }

  /** The whole program: the start-up load, then the main loop over all of the console input. */
  function Program(s: State, writable: bool, inputs: seq<string>): (State, Status) {
    match s.stored
    case None => (State([], None), FileMissing)
    case Some(t) => Session(State(t, s.stored), writable, inputs, 0)
  }

  class Inventory {
    /** `lstTbl`: the inventory table in memory. */
    var table: seq<Record>
    /** The records in `CDInventory.dat`; `None` when the file does not exist. */
    var stored: Option<seq<Record>>
    /** Whether `CDInventory.dat` can be opened for writing. */
    const writable: bool

    /** The program before start-up: an empty table and whatever file is already there. */
    constructor (stored: Option<seq<Record>>, writable: bool)
      ensures table == [] && this.stored == stored && this.writable == writable
    {
      table := [];
      this.stored := stored;
      this.writable := writable;
    }

    function Snapshot(): State
      reads this
    {
      State(table, stored)
    }

    /** `DataProcessor.myAddProcCode`: appends the record for the given ID text, title and artist. */
    method Add(id: string, title: string, artist: string)
      requires ParseInt(id).Some?
      modifies this
      ensures table == old(table) + [ToRecord(id, title, artist)]
      ensures |table| == |old(table)| + 1 && table[..|old(table)|] == old(table)
      ensures stored == old(stored)
    {
      var row := ToRecord(id, title, artist);
      table := table + [row];
    }

    /**
     * `DataProcessor.myDeleteDataProcFunc`: scans the table with a row counter and deletes the
     * first record whose ID is `id`. `removed` tells which message is printed: "The CD was
     * removed" or "Could not find this CD".
     */
    method Delete(id: int) returns (removed: bool)
      modifies this
      ensures removed <==> HasId(old(table), id)
      ensures table == RemoveFirst(old(table), id)
      ensures stored == old(stored)
    {
      removed := false;
      var rowNr := 0;
      while rowNr < |table|
        invariant 0 <= rowNr <= |table| && table == old(table)
        invariant forall j :: 0 <= j < rowNr ==> table[j].id != id
      {
        if table[rowNr].id == id {
          assert FirstIndex(table, id) == rowNr;
          RemoveFirstSplice(table, id);
          table := table[..rowNr] + table[rowNr + 1..];
          removed := true;
          break;
        }
        rowNr := rowNr + 1;
      }
      FirstIndexFound(old(table), id);
      if !removed {
        RemoveFirstAbsent(table, id);
      }
    }

    /**
     * `FileProcessor.read_file`: clears the table, then, when the file exists, appends its
     * records one by one in order. With no file the table stays empty and `found` is false
     * (the source then exits).
     */
    method Load() returns (found: bool)
      modifies this
      ensures stored == old(stored)
      ensures found <==> stored.Some?
      ensures table == if found then stored.value else []
    {
      table := [];
      if stored.None? {
        return false;
      }
      var rows := stored.value;
      var k := 0;
      while k < |rows|
        invariant 0 <= k <= |rows| && table == rows[..k] && stored == old(stored)
      {
        table := table + [rows[k]];
        k := k + 1;
      }
      return true;
    }

    /**
     * `FileProcessor.write_file`: replaces the file's contents with the whole table. When the
     * file cannot be opened for writing nothing is written and `ok` is false (the source
     * then exits).
     */
    method Save() returns (ok: bool)
      modifies this
      ensures ok == writable
      ensures stored == if ok then Some(table) else old(stored)
      ensures table == old(table)
    {
      ok := writable;
      if ok {
        stored := Some(table);
      }
    }

    /** Command `l` of the main loop, from the line after the menu key. */
    method LoadStep(inputs: seq<string>, p: nat) returns (status: Status, next: nat)
      requires p <= |inputs|
      modifies this
      ensures StepResult(Snapshot(), status, next) == LoadCommand(old(Snapshot()), inputs, p)
    {
      if p == |inputs| {
        return InputExhausted, p;
      }
      var answer := inputs[p];
      next := p + 1;
      if ReloadConfirmed(answer) {
        var found := Load();
        if !found {
          return FileMissing, next;
        }
      } else {
        // "Press [ENTER] to continue to the menu."
        if next == |inputs| {
          return InputExhausted, next;
        }
        next := next + 1;
      }
      return Continue, next;
    }

    /** Command `d` of the main loop, from the line after the menu key. */
    method DeleteStep(inputs: seq<string>, p: nat) returns (status: Status, next: nat)
      requires p <= |inputs|
      modifies this
      ensures StepResult(Snapshot(), status, next) == DeleteCommand(old(Snapshot()), inputs, p)
    {
      if p == |inputs| {
        return InputExhausted, p;
      }
      var id := ParseInt(Strip(inputs[p]));
      next := p + 1;
      if id.None? {
        // "That is not an Integer!": the delete is abandoned.
        return Continue, next;
      }
      var _ := Delete(id.value);
      return Continue, next;
    }

    /** Command `s` of the main loop, from the line after the menu key. */
    method SaveStep(inputs: seq<string>, p: nat) returns (status: Status, next: nat)
      requires p <= |inputs|
      modifies this
      ensures StepResult(Snapshot(), status, next) == SaveCommand(old(Snapshot()), writable, inputs, p)
    {
      if p == |inputs| {
        return InputExhausted, p;
      }
      var answer := inputs[p];
      next := p + 1;
      if SaveConfirmed(answer) {
        var ok := Save();
        if !ok {
          return FileUnwritable, next;
        }
      } else {
        // "Press [ENTER] to return to the menu."
        if next == |inputs| {
          return InputExhausted, next;
        }
        next := next + 1;
      }
      return Continue, next;
    }

    /** One pass of the main loop, reading console lines from `pos`. */
    method Step(inputs: seq<string>, pos: nat) returns (status: Status, next: nat)
      requires pos <= |inputs|
      modifies this
      ensures StepResult(Snapshot(), status, next) == StepSpec(old(Snapshot()), writable, inputs, pos)
    {
      var choice;
      choice, next := MenuChoice(inputs, pos);
      if choice.None? {
        return InputExhausted, next;
      }
      var cmd := choice.value;
      if cmd == "x" {
        return Exited, next;
      } else if cmd == "l" {
        status, next := LoadStep(inputs, next);
      } else if cmd == "a" {
        var cd;
        cd, next := AddIO(inputs, next);
        if cd.None? {
          return InputExhausted, next;
        }
        Add(cd.value.id, cd.value.title, cd.value.artist);
        return Continue, next;
      } else if cmd == "i" {
        return Continue, next;
      } else if cmd == "d" {
        status, next := DeleteStep(inputs, next);
      } else {
        // cmd == "s"
        status, next := SaveStep(inputs, next);
      }
    }

    /** The program: the start-up load, then the main loop until it stops. */
    method Run(inputs: seq<string>) returns (status: Status)
      modifies this
      ensures (Snapshot(), status) == Program(old(Snapshot()), writable, inputs)
    {
      var found := Load();
      if !found {
        return FileMissing;
      }
      var pos := 0;
      status := Continue;
      while status == Continue
        invariant pos <= |inputs|
        invariant status == Continue ==>
          Session(Snapshot(), writable, inputs, pos) == Program(old(Snapshot()), writable, inputs)
        invariant status != Continue ==> (Snapshot(), status) == Program(old(Snapshot()), writable, inputs)
        decreases |inputs| - pos, if status == Continue then 1 else 0
      {
        status, pos := Step(inputs, pos);
      }
    }
  }
}
