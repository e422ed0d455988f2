/**
 * Properties of the main loop: what the confirmation gates protect, the save/reload round
 * trip, and the worked examples of the program's behaviour.
 */
module Properties {
  import opened Wrappers
  import opened Text
  import opened Table
  import opened Console
  import opened Inventory

  /** Declining the save confirmation leaves both the table and the stored file as they were. */
  lemma SaveDeclinedKeepsState(s: State, writable: bool, inputs: seq<string>, pos: nat)
    requires pos <= |inputs|
    requires var m := FirstWhere(inputs, pos, IsMenuInput);
      m + 1 < |inputs| && MenuKey(inputs[m]) == "s" && !SaveConfirmed(inputs[m + 1])
    ensures StepSpec(s, writable, inputs, pos).state == s
  {
  }

  /** Declining the reload confirmation leaves both the table and the stored file as they were. */
  lemma ReloadDeclinedKeepsState(s: State, writable: bool, inputs: seq<string>, pos: nat)
    requires pos <= |inputs|
    requires var m := FirstWhere(inputs, pos, IsMenuInput);
      m + 1 < |inputs| && MenuKey(inputs[m]) == "l" && !ReloadConfirmed(inputs[m + 1])
    ensures StepSpec(s, writable, inputs, pos).state == s
  {
  }

  /**
   * The stored file changes only through a confirmed save to a writable file, and then it
   * holds exactly the table.
   */
  lemma StoredChangesOnlyOnConfirmedSave(s: State, writable: bool, inputs: seq<string>, pos: nat)
    requires pos <= |inputs|
    ensures var r := StepSpec(s, writable, inputs, pos); var m := FirstWhere(inputs, pos, IsMenuInput);
      r.state.stored != s.stored ==>
        && m + 1 < |inputs| && MenuKey(inputs[m]) == "s" && SaveConfirmed(inputs[m + 1])
        && writable && r.state.stored == Some(s.table) && r.state.table == s.table
  {
  }

  /** The table changes only under the load, add and delete commands. */
  lemma TableChangesOnlyByCommand(s: State, writable: bool, inputs: seq<string>, pos: nat)
    requires pos <= |inputs|
    ensures var r := StepSpec(s, writable, inputs, pos); var m := FirstWhere(inputs, pos, IsMenuInput);
      r.state.table != s.table ==> m < |inputs| && MenuKey(inputs[m]) in {"l", "a", "d"}
  {
  }

  /**
   * Command `a`: the file is unchanged. Either the prompt runs out of input and nothing
   * changes, or the table grows by exactly one valid record at its end.
   */
  lemma AddStepAppends(s: State, writable: bool, inputs: seq<string>, pos: nat)
    requires pos <= |inputs|
    requires var m := FirstWhere(inputs, pos, IsMenuInput); m < |inputs| && MenuKey(inputs[m]) == "a"
    ensures var r := StepSpec(s, writable, inputs, pos); var n := |s.table|;
      && r.state.stored == s.stored
      && (r.status == Continue || r.status == InputExhausted)
      && (r.status != Continue ==> r.state == s)
      && (r.status == Continue ==>
        && |r.state.table| == n + 1 && r.state.table[..n] == s.table
        && 0 < r.state.table[n].id < 500
        && r.state.table[n].title != [] && r.state.table[n].artist != [])
  {
    var m := FirstWhere(inputs, pos, IsMenuInput);
    assert StepSpec(s, writable, inputs, pos) == AddCommand(s, inputs, m + 1);
  }

  /**
   * Command `d` with an integer: the first record with that ID is removed, or nothing when
   * there is none; the file is unchanged and the loop goes back to the menu.
   */
  lemma DeleteStepRemovesFirst(s: State, writable: bool, inputs: seq<string>, pos: nat, id: int)
    requires pos <= |inputs|
    requires var m := FirstWhere(inputs, pos, IsMenuInput);
      m + 1 < |inputs| && MenuKey(inputs[m]) == "d" && ParseInt(Strip(inputs[m + 1])) == Some(id)
    ensures var r := StepSpec(s, writable, inputs, pos);
      && r.status == Continue && r.state.stored == s.stored
      && r.state.table == RemoveFirst(s.table, id)
      && (HasId(s.table, id) ==> |r.state.table| == |s.table| - 1)
      && (!HasId(s.table, id) ==> r.state == s)
  {
    var m := FirstWhere(inputs, pos, IsMenuInput);
    assert StepSpec(s, writable, inputs, pos) == DeleteCommand(s, inputs, m + 1);
    if HasId(s.table, id) {
      RemoveFirstPresent(s.table, id);
    } else {
      RemoveFirstAbsent(s.table, id);
    }
  }

  /**
   * Save followed by reload, with no change in between, gives back the same table, record
   * for record and in order.
   */
  lemma SaveThenReloadRestores(s: State, inputs: seq<string>, pos: nat)
    requires pos + 3 < |inputs|
    requires IsMenuInput(inputs[pos]) && MenuKey(inputs[pos]) == "s" && SaveConfirmed(inputs[pos + 1])
    requires IsMenuInput(inputs[pos + 2]) && MenuKey(inputs[pos + 2]) == "l"
    requires ReloadConfirmed(inputs[pos + 3])
    ensures var r1 := StepSpec(s, true, inputs, pos);
      && r1.status == Continue && r1.next == pos + 2
      && var r2 := StepSpec(r1.state, true, inputs, r1.next);
      && r2.status == Continue && r2.next == pos + 4
      && r2.state == State(s.table, Some(s.table))
  {
    FirstWhereHere(inputs, pos, IsMenuInput);
    FirstWhereHere(inputs, pos + 2, IsMenuInput);
  }

  lemma MenuKeyOf(c: char)
    requires 'a' <= c <= 'z'
    ensures MenuKey([c]) == [c]
  {
    assert Lower([c]) == [c];
    assert TrimRight([c]) == [c];
    assert TrimLeft([c]) == [c];
  }

  /**
   * A whole session that saves, reloads and then reaches the end of the console input ends
   * with the table it started with, now also in the stored file.
   */
  lemma SaveReloadSession(t: seq<Record>, stored: Option<seq<Record>>)
    ensures Session(State(t, stored), true, ["s", "y", "l", "yes"], 0)
      == (State(t, Some(t)), InputExhausted)
  {
    var inputs := ["s", "y", "l", "yes"];
    MenuKeyOf('s');
    MenuKeyOf('y');
    MenuKeyOf('l');
    assert SaveConfirmed(inputs[1]);
    assert Lower("yes") == "yes";
    SaveThenReloadRestores(State(t, stored), inputs, 0);
    var r2 := StepSpec(StepSpec(State(t, stored), true, inputs, 0).state, true, inputs, 2);
    assert StepSpec(r2.state, true, inputs, 4) == StepResult(r2.state, InputExhausted, 4);
  }

  /** The reload answer is not stripped but the save answer is: " yes" does not reload, " y " saves. */
  lemma ConfirmationAsymmetry()
    ensures !ReloadConfirmed(" yes") && ReloadConfirmed("YES")
    ensures SaveConfirmed(" Y ")
  {
    assert Lower(" yes") == " yes";
    assert Lower("YES") == "yes";
    assert TrimRight(" Y ") == " Y";
    assert TrimLeft(" Y") == "Y";
    assert Lower("Y") == "y";
  }

  /**
   * The delete example: deleting ID 1 from [{1, A, X}, {2, B, Y}] leaves [{2, B, Y}];
   * deleting ID 1 again finds nothing and changes nothing.
   */
  lemma DeleteExample()
    ensures RemoveFirst([Record(1, "A", "X"), Record(2, "B", "Y")], 1) == [Record(2, "B", "Y")]
    ensures !HasId([Record(2, "B", "Y")], 1)
    ensures RemoveFirst([Record(2, "B", "Y")], 1) == [Record(2, "B", "Y")]
  {
  }

  /** The add example: the values "5", "Thriller", "Michael Jackson" make the record {5, Thriller, Michael Jackson}. */
  lemma AddExampleRecord()
    ensures ParseInt("5") == Some(5)
    ensures ToRecord("5", "Thriller", "Michael Jackson") == Record(5, "Thriller", "Michael Jackson")
  {
    assert AllDigits("5");
    assert DigitsValue("5") == 5 by {
      assert "5"[..0] == [];
    }
  }

  /** The add example's record is displayed as `5<TAB>Thriller (by:Michael Jackson)`. */
  lemma AddExampleRow()
    ensures FormatRow(Record(5, "Thriller", "Michael Jackson")) == "5\tThriller (by:Michael Jackson)"
  {
    assert IntToString(5) == "5";
    assert "5" + "\t" + "Thriller" + " (by:" + "Michael Jackson" + ")" == "5\tThriller (by:Michael Jackson)";
  }
}
