/**
 * The console side of the program (the `IO` class): the menu prompt, the prompt for a new
 * CD and the per-row inventory display. Console input is a finite sequence of lines; `pos`
 * is the next line `input()` would return. When the lines run out, `input()` raises
 * `EOFError`, which nothing catches; the methods then return `None`.
 */
module Console {
  import opened Wrappers
  import opened Text
  import opened Table

  /** The six menu keys: load, add, inventory, delete, save, exit. */
  const MenuKeys: set<string> := {"l", "a", "i", "d", "s", "x"}

  /** The first line at or after `from` that `accept` takes; `|inputs|` when there is none. */
  function FirstWhere(inputs: seq<string>, from: nat, accept: string -> bool): (r: nat)
    requires from <= |inputs|
    ensures from <= r <= |inputs|
    ensures r < |inputs| ==> accept(inputs[r])
    decreases |inputs| - from
  {
    if from == |inputs| then from
    else if accept(inputs[from]) then from
    else FirstWhere(inputs, from + 1, accept)
  }

  /** Every line the scan passes over is one that `accept` rejects. */
  lemma {:induction false} FirstWhereSkips(inputs: seq<string>, from: nat, accept: string -> bool)
    requires from <= |inputs|
    ensures forall t :: from <= t < FirstWhere(inputs, from, accept) ==> !accept(inputs[t])
    decreases |inputs| - from
  {
    if from < |inputs| && !accept(inputs[from]) {
      FirstWhereSkips(inputs, from + 1, accept);
    }
  }

  lemma FirstWhereHere(inputs: seq<string>, from: nat, accept: string -> bool)
    requires from < |inputs| && accept(inputs[from])
    ensures FirstWhere(inputs, from, accept) == from
  {
  }

  lemma FirstWhereNext(inputs: seq<string>, from: nat, accept: string -> bool)
    requires from < |inputs| && !accept(inputs[from])
    ensures FirstWhere(inputs, from, accept) == FirstWhere(inputs, from + 1, accept)
  {
  }

  /** `inputs` with line `d` taken out. */
  function Drop(inputs: seq<string>, d: nat): (r: seq<string>)
    requires d < |inputs|
    ensures |r| == |inputs| - 1
  {
    inputs[..d] + inputs[d + 1..]
  }

  /** The lines before `d` keep their positions; those after it move back by one. */
  lemma DropAt(inputs: seq<string>, d: nat, i: nat)
    requires d < |inputs| && i < |inputs| && i != d
    ensures i < d ==> Drop(inputs, d)[i] == inputs[i]
    ensures d < i ==> Drop(inputs, d)[i - 1] == inputs[i]
  {
  }

  /** Taking out a line before the scan start moves the scan's result back by one. */
  lemma {:induction false} FirstWhereDrop(inputs: seq<string>, d: nat, from: nat, accept: string -> bool)
    requires d < from <= |inputs|
    ensures FirstWhere(Drop(inputs, d), from - 1, accept) == FirstWhere(inputs, from, accept) - 1
    decreases |inputs| - from
  {
    if from < |inputs| {
      DropAt(inputs, d, from);
      if !accept(inputs[from]) {
        FirstWhereDrop(inputs, d, from + 1, accept);
      }
    }
  }

  /** The menu answer as the program normalises it: `input().lower().strip()`. */
  function MenuKey(line: string): string {
    Strip(Lower(line))
  }

  predicate IsMenuInput(line: string) {
    MenuKey(line) in MenuKeys
  }

  /**
   * `IO.menu_choice`: keeps reading lines until one, lower-cased and stripped, is a menu key,
   * and returns that key. `next` is the position after the accepted line.
   */
  method MenuChoice(inputs: seq<string>, pos: nat) returns (choice: Option<string>, next: nat)
    requires pos <= |inputs|
    ensures choice.Some? ==> choice.value in MenuKeys
    ensures var m := FirstWhere(inputs, pos, IsMenuInput);
      if m < |inputs| then choice == Some(MenuKey(inputs[m])) && next == m + 1
      else choice == None && next == |inputs|
  {
    var c := " ";
    next := pos;
    while c !in MenuKeys
      invariant pos <= next <= |inputs|
      invariant c !in MenuKeys ==>
        FirstWhere(inputs, pos, IsMenuInput) == FirstWhere(inputs, next, IsMenuInput)
      invariant c in MenuKeys ==>
        pos < next && c == MenuKey(inputs[next - 1])
        && FirstWhere(inputs, pos, IsMenuInput) == next - 1
      decreases |inputs| - next
    {
      if next == |inputs| {
        return None, next;
      }
      c := MenuKey(inputs[next]);
      next := next + 1;
    }
    choice := Some(c);
  }

  /** The three raw values `IO.myAddIOFunc` returns: the ID as text, the title, the artist. */
  datatype NewCd = NewCd(id: string, title: string, artist: string)

  /** An ID the add prompt accepts: it parses as an integer strictly between 0 and 500. */
  predicate IsValidIdText(id: string) {
    ParseInt(id).Some? && 0 < ParseInt(id).value < 500
  }

  predicate IsValidIdInput(line: string) {
    IsValidIdText(Strip(line))
  }

  /** A title or artist the add prompt accepts: not empty once stripped. */
  predicate IsFieldInput(line: string) {
    |Strip(line)| != 0
  }

  /** The positions of the ID, title and artist lines the add prompt accepts. */
  datatype Picks = Picks(id: nat, title: nat, artist: nat)

  /**
   * The add prompt's reading order over lines judged by `idOk` and `fieldOk`: the first
   * line at or after `pos` that `idOk` accepts, then after it the first line `fieldOk`
   * accepts, then after that the next such line. `None` when the lines run out first.
   */
  function PickLines(inputs: seq<string>, pos: nat, idOk: string -> bool, fieldOk: string -> bool): (r: Option<Picks>)
    requires pos <= |inputs|
    ensures r.Some? ==> pos <= r.value.id < r.value.title < r.value.artist < |inputs|
  {
    var i := FirstWhere(inputs, pos, idOk);
    if i == |inputs| then None
    else
      var j := FirstWhere(inputs, i + 1, fieldOk);
      if j == |inputs| then None
      else
        var k := FirstWhere(inputs, j + 1, fieldOk);
        if k == |inputs| then None else Some(Picks(i, j, k))
  }

  lemma PickLinesAt(inputs: seq<string>, pos: nat, idOk: string -> bool, fieldOk: string -> bool, i: nat, j: nat, k: nat)
    requires pos <= i < j < k <= |inputs|
    requires FirstWhere(inputs, pos, idOk) == i
    requires FirstWhere(inputs, i + 1, fieldOk) == j
    requires FirstWhere(inputs, j + 1, fieldOk) == k
    ensures PickLines(inputs, pos, idOk, fieldOk) == if k < |inputs| then Some(Picks(i, j, k)) else None
  {
  }

  lemma PickLinesNoTitle(inputs: seq<string>, pos: nat, idOk: string -> bool, fieldOk: string -> bool, i: nat)
    requires pos <= i < |inputs|
    requires FirstWhere(inputs, pos, idOk) == i
    requires FirstWhere(inputs, i + 1, fieldOk) == |inputs|
    ensures PickLines(inputs, pos, idOk, fieldOk) == None
  {
  }

  /**
   * Every line between the picks was rejected for the field being asked at that point, and
   * each picked line was accepted.
   */
  lemma PickLinesSpec(inputs: seq<string>, pos: nat, idOk: string -> bool, fieldOk: string -> bool)
    requires pos <= |inputs|
    ensures match PickLines(inputs, pos, idOk, fieldOk)
      case None => true
      case Some(p) =>
        && idOk(inputs[p.id]) && fieldOk(inputs[p.title]) && fieldOk(inputs[p.artist])
        && (forall t :: pos <= t < p.id ==> !idOk(inputs[t]))
        && (forall t :: p.id < t < p.title ==> !fieldOk(inputs[t]))
        && (forall t :: p.title < t < p.artist ==> !fieldOk(inputs[t]))
  {
    var i := FirstWhere(inputs, pos, idOk);
    FirstWhereSkips(inputs, pos, idOk);
    if i < |inputs| {
      var j := FirstWhere(inputs, i + 1, fieldOk);
      FirstWhereSkips(inputs, i + 1, fieldOk);
      if j < |inputs| {
        FirstWhereSkips(inputs, j + 1, fieldOk);
      }
    }
  }

  /**
   * The converse of `PickLinesSpec`: when an accepted ID line, then an accepted title line,
   * then an accepted artist line exist, the picks are found (at or before those lines).
   */
  lemma PickLinesFound(inputs: seq<string>, pos: nat, idOk: string -> bool, fieldOk: string -> bool, i: nat, j: nat, k: nat)
    requires pos <= i < j < k < |inputs|
    requires idOk(inputs[i]) && fieldOk(inputs[j]) && fieldOk(inputs[k])
    ensures PickLines(inputs, pos, idOk, fieldOk).Some?
  {
    FirstWhereSkips(inputs, pos, idOk);
    var i' := FirstWhere(inputs, pos, idOk);
    assert i' <= i;
    FirstWhereSkips(inputs, i' + 1, fieldOk);
    var j' := FirstWhere(inputs, i' + 1, fieldOk);
    assert j' <= j;
    FirstWhereSkips(inputs, j' + 1, fieldOk);
    var k' := FirstWhere(inputs, j' + 1, fieldOk);
    assert k' <= k;
  }

  /** A rejected first line is skipped: the picks are those of the remaining lines. */
  lemma PickLinesSkipsId(inputs: seq<string>, pos: nat, idOk: string -> bool, fieldOk: string -> bool)
    requires pos < |inputs| && !idOk(inputs[pos])
    ensures PickLines(inputs, pos, idOk, fieldOk) == PickLines(inputs, pos + 1, idOk, fieldOk)
  {
    assert FirstWhere(inputs, pos, idOk) == FirstWhere(inputs, pos + 1, idOk);
  }

  /** Taking out line `d`, before the title scan, when the title scan from `d + 1` finds a line. */
  lemma PickLinesDropFound(inputs: seq<string>, pos: nat, d: nat, idOk: string -> bool, fieldOk: string -> bool)
    requires pos < d < |inputs|
    requires FirstWhere(inputs, pos, idOk) == pos && FirstWhere(Drop(inputs, d), pos, idOk) == pos
    requires FirstWhere(inputs, pos + 1, fieldOk) == FirstWhere(inputs, d + 1, fieldOk)
    requires FirstWhere(Drop(inputs, d), pos + 1, fieldOk) == FirstWhere(Drop(inputs, d), d, fieldOk)
    requires FirstWhere(inputs, d + 1, fieldOk) < |inputs|
    ensures var j := FirstWhere(inputs, d + 1, fieldOk); var k := FirstWhere(inputs, j + 1, fieldOk);
      && PickLines(inputs, pos, idOk, fieldOk) == (if k < |inputs| then Some(Picks(pos, j, k)) else None)
      && PickLines(Drop(inputs, d), pos, idOk, fieldOk) == (if k < |inputs| then Some(Picks(pos, j - 1, k - 1)) else None)
  {
    var j := FirstWhere(inputs, d + 1, fieldOk);
    var k := FirstWhere(inputs, j + 1, fieldOk);
    DropScans(inputs, d, j, fieldOk);
    PickLinesAt(inputs, pos, idOk, fieldOk, pos, j, k);
    PickLinesAt(Drop(inputs, d), pos, idOk, fieldOk, pos, j - 1, k - 1);
  }

  lemma DropScans(inputs: seq<string>, d: nat, j: nat, fieldOk: string -> bool)
    requires d < j < |inputs| && FirstWhere(inputs, d + 1, fieldOk) == j
    ensures FirstWhere(Drop(inputs, d), d, fieldOk) == j - 1
    ensures FirstWhere(Drop(inputs, d), j, fieldOk) == FirstWhere(inputs, j + 1, fieldOk) - 1
  {
    FirstWhereDrop(inputs, d, d + 1, fieldOk);
    FirstWhereDrop(inputs, d, j + 1, fieldOk);
  }

  /**
   * Taking out a rejected title line right after an accepted ID line keeps the ID pick and
   * moves the later picks back by one.
   */
  lemma PickLinesDropTitle(inputs: seq<string>, pos: nat, idOk: string -> bool, fieldOk: string -> bool)
    requires pos + 1 < |inputs| && idOk(inputs[pos]) && !fieldOk(inputs[pos + 1])
    ensures var p := PickLines(inputs, pos, idOk, fieldOk);
      var q := PickLines(Drop(inputs, pos + 1), pos, idOk, fieldOk);
      && (q.None? <==> p.None?)
      && (p.Some? ==> p.value.id == pos && q.value == Picks(pos, p.value.title - 1, p.value.artist - 1))
  {
    var dropped := Drop(inputs, pos + 1);
    DropAt(inputs, pos + 1, pos);
    FirstWhereHere(inputs, pos, idOk);
    FirstWhereHere(dropped, pos, idOk);
    FirstWhereNext(inputs, pos + 1, fieldOk);
    if FirstWhere(inputs, pos + 2, fieldOk) < |inputs| {
      PickLinesDropFound(inputs, pos, pos + 1, idOk, fieldOk);
    } else {
      FirstWhereDrop(inputs, pos + 1, pos + 2, fieldOk);
      PickLinesNoTitle(inputs, pos, idOk, fieldOk, pos);
      PickLinesNoTitle(dropped, pos, idOk, fieldOk, pos);
    }
  }

  /**
   * Taking out a rejected artist line right after accepted ID and title lines keeps those
   * two picks and moves the artist pick back by one.
   */
  lemma PickLinesDropArtist(inputs: seq<string>, pos: nat, idOk: string -> bool, fieldOk: string -> bool)
    requires pos + 2 < |inputs| && idOk(inputs[pos]) && fieldOk(inputs[pos + 1])
    requires !fieldOk(inputs[pos + 2])
    ensures var p := PickLines(inputs, pos, idOk, fieldOk);
      var q := PickLines(Drop(inputs, pos + 2), pos, idOk, fieldOk);
      && (q.None? <==> p.None?)
      && (p.Some? ==> p.value.id == pos && p.value.title == pos + 1 && q.value == Picks(pos, pos + 1, p.value.artist - 1))
  {
    var dropped := Drop(inputs, pos + 2);
    DropAt(inputs, pos + 2, pos);
    DropAt(inputs, pos + 2, pos + 1);
    FirstWhereHere(inputs, pos, idOk);
    FirstWhereHere(dropped, pos, idOk);
    FirstWhereHere(inputs, pos + 1, fieldOk);
    FirstWhereHere(dropped, pos + 1, fieldOk);
    FirstWhereNext(inputs, pos + 2, fieldOk);
    FirstWhereDrop(inputs, pos + 2, pos + 3, fieldOk);
    var k := FirstWhere(inputs, pos + 3, fieldOk);
    PickLinesAt(inputs, pos, idOk, fieldOk, pos, pos + 1, k);
    PickLinesAt(dropped, pos, idOk, fieldOk, pos, pos + 1, k - 1);
  }

  /**
   * What the add prompt returns: the picked ID, title and artist lines, each stripped, and
   * the position after the artist line. Running out of lines gives `None`.
   */
  function AddPrompt(inputs: seq<string>, pos: nat): (r: (Option<NewCd>, nat))
    requires pos <= |inputs|
    ensures pos <= r.1 <= |inputs|
    ensures r.0.None? ==> r.1 == |inputs|
    ensures r.0.Some? ==> pos < r.1
  {
    match PickLines(inputs, pos, IsValidIdInput, IsFieldInput)
    case None => (None, |inputs|)
    case Some(p) =>
      (Some(NewCd(Strip(inputs[p.id]), Strip(inputs[p.title]), Strip(inputs[p.artist]))), p.artist + 1)
  }

  lemma AddPromptAt(inputs: seq<string>, pos: nat, i: nat, j: nat, k: nat)
    requires pos <= i < j < k <= |inputs|
    requires FirstWhere(inputs, pos, IsValidIdInput) == i
    requires FirstWhere(inputs, i + 1, IsFieldInput) == j
    requires FirstWhere(inputs, j + 1, IsFieldInput) == k
    ensures AddPrompt(inputs, pos) == if k < |inputs|
      then (Some(NewCd(Strip(inputs[i]), Strip(inputs[j]), Strip(inputs[k]))), k + 1)
      else (None, |inputs|)
  {
    PickLinesAt(inputs, pos, IsValidIdInput, IsFieldInput, i, j, k);
  }

  lemma AddPromptNoTitle(inputs: seq<string>, pos: nat, i: nat)
    requires pos <= i < |inputs|
    requires FirstWhere(inputs, pos, IsValidIdInput) == i
    requires FirstWhere(inputs, i + 1, IsFieldInput) == |inputs|
    ensures AddPrompt(inputs, pos) == (None, |inputs|)
  {
    PickLinesNoTitle(inputs, pos, IsValidIdInput, IsFieldInput, i);
  }

  /**
   * An accepted ID parses as an integer strictly between 0 and 500, the accepted title and
   * artist are not empty, and all three are returned stripped.
   */
  lemma AddPromptAccepts(inputs: seq<string>, pos: nat)
    requires pos <= |inputs|
    ensures var cd := AddPrompt(inputs, pos).0;
      cd.Some? ==>
        && IsValidIdText(cd.value.id) && Strip(cd.value.id) == cd.value.id
        && cd.value.title != [] && Strip(cd.value.title) == cd.value.title
        && cd.value.artist != [] && Strip(cd.value.artist) == cd.value.artist
  {
    PickLinesSpec(inputs, pos, IsValidIdInput, IsFieldInput);
    match PickLines(inputs, pos, IsValidIdInput, IsFieldInput)
    case None =>
    case Some(p) =>
      StripIdempotent(inputs[p.id]);
      StripIdempotent(inputs[p.title]);
      StripIdempotent(inputs[p.artist]);
  }

  /**
   * The add prompt succeeds whenever a valid ID line, then a nonempty line, then another
   * nonempty line are typed, whatever comes between them.
   */
  lemma AddPromptSucceeds(inputs: seq<string>, pos: nat, i: nat, j: nat, k: nat)
    requires pos <= i < j < k < |inputs|
    requires IsValidIdInput(inputs[i]) && IsFieldInput(inputs[j]) && IsFieldInput(inputs[k])
    ensures AddPrompt(inputs, pos).0.Some?
  {
    PickLinesFound(inputs, pos, IsValidIdInput, IsFieldInput, i, j, k);
  }

  /** An unacceptable ID line is skipped and the ID is asked for again. */
  lemma AddPromptRetriesId(inputs: seq<string>, pos: nat)
    requires pos < |inputs| && !IsValidIdInput(inputs[pos])
    ensures AddPrompt(inputs, pos) == AddPrompt(inputs, pos + 1)
  {
    PickLinesSkipsId(inputs, pos, IsValidIdInput, IsFieldInput);
  }

  /** An empty title after an accepted ID re-prompts the title only; the ID is kept. */
  lemma AddPromptRetriesTitle(inputs: seq<string>, pos: nat)
    requires pos + 1 < |inputs|
    requires IsValidIdInput(inputs[pos]) && !IsFieldInput(inputs[pos + 1])
    ensures AddPrompt(inputs, pos).0 == AddPrompt(Drop(inputs, pos + 1), pos).0
  {
    PickLinesDropTitle(inputs, pos, IsValidIdInput, IsFieldInput);
    var p := PickLines(inputs, pos, IsValidIdInput, IsFieldInput);
    if p.Some? {
      DropAt(inputs, pos + 1, pos);
      DropAt(inputs, pos + 1, p.value.title);
      DropAt(inputs, pos + 1, p.value.artist);
    }
  }

  /** An empty artist after an accepted ID and title re-prompts the artist only. */
  lemma AddPromptRetriesArtist(inputs: seq<string>, pos: nat)
    requires pos + 2 < |inputs|
    requires IsValidIdInput(inputs[pos]) && IsFieldInput(inputs[pos + 1])
    requires !IsFieldInput(inputs[pos + 2])
    ensures AddPrompt(inputs, pos).0 == AddPrompt(Drop(inputs, pos + 2), pos).0
  {
    PickLinesDropArtist(inputs, pos, IsValidIdInput, IsFieldInput);
    var p := PickLines(inputs, pos, IsValidIdInput, IsFieldInput);
    if p.Some? {
      DropAt(inputs, pos + 2, pos);
      DropAt(inputs, pos + 2, pos + 1);
      DropAt(inputs, pos + 2, p.value.artist);
    }
  }

  /**
   * The ID loop of `IO.myAddIOFunc`: reads stripped lines until one parses as an integer
   * strictly between 0 and 500. A non-integer (`ValueError`) and an out-of-range value
   * (the `TypeError` raised by `raise print(...)`, caught by `except Exception`) both lead
   * back to the ID prompt.
   */
  method ReadId(inputs: seq<string>, pos: nat) returns (id: Option<string>, next: nat)
    requires pos <= |inputs|
    ensures id.Some? ==> IsValidIdText(id.value)
    ensures var i := FirstWhere(inputs, pos, IsValidIdInput);
      if i < |inputs| then id == Some(Strip(inputs[i])) && next == i + 1
      else id == None && next == |inputs|
  {
    next := pos;
    while true
      invariant pos <= next <= |inputs|
      invariant FirstWhere(inputs, pos, IsValidIdInput) == FirstWhere(inputs, next, IsValidIdInput)
      decreases |inputs| - next
    {
      if next == |inputs| {
        return None, next;
      }
      var text := Strip(inputs[next]);
      next := next + 1;
      if IsValidIdText(text) {
        FirstWhereHere(inputs, next - 1, IsValidIdInput);
        return Some(text), next;
      }
    }
  }

  /**
   * The title loop, and likewise the artist loop, of `IO.myAddIOFunc`: reads stripped lines
   * until one is not empty; an empty one ("You must enter a Title!") re-prompts this field.
   */
  method ReadField(inputs: seq<string>, pos: nat) returns (field: Option<string>, next: nat)
    requires pos <= |inputs|
    ensures field.Some? ==> field.value != []
    ensures var j := FirstWhere(inputs, pos, IsFieldInput);
      if j < |inputs| then field == Some(Strip(inputs[j])) && next == j + 1
      else field == None && next == |inputs|
  {
    next := pos;
    while true
      invariant pos <= next <= |inputs|
      invariant FirstWhere(inputs, pos, IsFieldInput) == FirstWhere(inputs, next, IsFieldInput)
      decreases |inputs| - next
    {
      if next == |inputs| {
        return None, next;
      }
      var text := Strip(inputs[next]);
      next := next + 1;
      if |text| != 0 {
        FirstWhereHere(inputs, next - 1, IsFieldInput);
        return Some(text), next;
      }
    }
  }

  /**
   * `IO.myAddIOFunc`. The source nests the title loop inside the ID loop and the artist loop
   * inside the title loop, but an inner loop is only ever left by the final `return`, so
   * the three loops run one after the other; the title and artist loops are the same loop.
   */
  method AddIO(inputs: seq<string>, pos: nat) returns (cd: Option<NewCd>, next: nat)
    requires pos <= |inputs|
    ensures (cd, next) == AddPrompt(inputs, pos)
    ensures cd.Some? ==> IsValidIdText(cd.value.id) && cd.value.title != [] && cd.value.artist != []
  {
    var id;
    id, next := ReadId(inputs, pos);
    if id.None? {
      return None, next;
    }
    ghost var i := next - 1;
    var title, artist;
    title, artist, next := ReadTitleArtist(inputs, next);
    ghost var j := FirstWhere(inputs, i + 1, IsFieldInput);
    if title.None? {
      AddPromptNoTitle(inputs, pos, i);
      return None, next;
    }
    AddPromptAt(inputs, pos, i, j, FirstWhere(inputs, j + 1, IsFieldInput));
    if artist.None? {
      return None, next;
    }
    cd := Some(NewCd(id.value, title.value, artist.value));
  }

  /** The title loop and then the artist loop of `IO.myAddIOFunc`. */
  method ReadTitleArtist(inputs: seq<string>, pos: nat) returns (title: Option<string>, artist: Option<string>, next: nat)
    requires pos <= |inputs|
    ensures var j := FirstWhere(inputs, pos, IsFieldInput);
      if j == |inputs| then title == None && next == |inputs|
      else
        && title == Some(Strip(inputs[j])) && title.value != []
        && var k := FirstWhere(inputs, j + 1, IsFieldInput);
        if k == |inputs| then artist == None && next == |inputs|
        else artist == Some(Strip(inputs[k])) && artist.value != [] && next == k + 1
  {
    title, next := ReadField(inputs, pos);
    if title.None? {
      return None, None, next;
    }
    artist, next := ReadField(inputs, next);
  }

  /** One displayed inventory row: `ID<TAB>Title (by:Artist)`. */
  function FormatRow(r: Record): string {
    IntToString(r.id) + "\t" + r.title + " (by:" + r.artist + ")"
  }

  /**
   * A row shows its record legibly: the text before the first tab is the ID and parses back
   * to it, the title follows the tab, and the artist stands just before the closing
   * parenthesis.
   */
  lemma FormatRowFields(r: Record)
    ensures var n := |IntToString(r.id)|; var line := FormatRow(r);
      && n < |line| && line[n] == '\t'
      && (forall i :: 0 <= i < n ==> line[i] != '\t')
      && ParseInt(line[..n]) == Some(r.id)
      && line[n + 1..n + 1 + |r.title|] == r.title
      && line[|line| - 1 - |r.artist|..|line| - 1] == r.artist
      && line[|line| - 1] == ')'
  {
    var n := |IntToString(r.id)|;
    var line := FormatRow(r);
    assert line[..n] == IntToString(r.id);
    ParseIntOfIntToString(r.id);
  }

  /** The rows of `IO.show_inventory`, one per record in table order (header and footer left out). */
  method ShowInventory(table: seq<Record>) returns (lines: seq<string>)
    ensures |lines| == |table|
    ensures forall i :: 0 <= i < |table| ==> lines[i] == FormatRow(table[i])
  {
    lines := [];
    for i := 0 to |table|
      invariant |lines| == i
      invariant forall k :: 0 <= k < i ==> lines[k] == FormatRow(table[k])
    {
      lines := lines + [FormatRow(table[i])];
    }
  }
}
