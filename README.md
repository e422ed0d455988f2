# CD Inventory in Dafny

A model of `CDInventory.py`, a console program that keeps an inventory of CDs. Each CD
has an integer ID, a title and an artist. The program holds the inventory in a table in
memory, and the user drives it from a menu:

- `l` reloads the table from the binary file `CDInventory.dat`, after the user confirms.
- `a` adds a CD.
- `i` displays the table.
- `d` deletes the first CD with a given ID.
- `s` saves the table to the file, after the user confirms.
- `x` exits.

At start-up the program loads the file once. From then on the table changes only through
`l`, `a` and `d`, and the file changes only through `s`.

The model has these modules:

- `Wrappers`: the `Option` type.
- `Text`: the parts of the Python runtime the program relies on: `str.strip()`,
  `str.lower()`, `int(str)` and `str(int)`.
- `Table`: the inventory's records and the "remove the first match" operation.
- `Console`: the `IO` class. It covers the menu prompt, the add prompt with its
  re-prompting rules, and the format of a displayed row.
- `Inventory`: the program's state and main loop.
  - The global table and the data file become the fields of one `Inventory` object.
  - `DataProcessor` and `FileProcessor` become its methods.
  - The main loop becomes `Step` and `Run`.
  - `Add`, `Delete`, `Load` and `Save` state their new table and file directly.
  - `LoadStep`, `DeleteStep` and `SaveStep` are proved equal to the functions
    `LoadCommand`, `DeleteCommand` and `SaveCommand`, `Step` to `StepSpec`, and `Run` to
    `Program` (the start-up load, then `Session`, the main loop as a recursive function).
- `Properties`: lemmas relating several steps, and worked examples.

Console input is a finite sequence of lines, read from a position `pos`. When the lines
run out, `input()` raises `EOFError`, which nothing catches. The model ends the run with
the status `InputExhausted` in that case.

The data file is modelled by the sequence of records it holds, or `None` when the file
does not exist. The program's exits through `sys.exit()` become the statuses
`FileMissing` and `FileUnwritable`. `FileUnwritable` covers both ways a save can end the
run: `sys.exit()` after a caught `FileNotFoundError`, and an uncaught error such as
`PermissionError`, which ends the run with a traceback.

## Model

The specification functions without a contract of their own (`Text.ParseInt`,
`Console.FormatRow`, `Console.MenuKey`, `Console.IsValidIdText`, `Inventory.ReloadConfirmed`,
`Inventory.SaveConfirmed`, `Inventory.ToRecord` and `Inventory.Program`) are specified by
the lemma and method rows that use them.

| member | source | states |
|---|---|---|
| `Text.StripSpec` | CDInventory.py:205 | `strip()` keeps a contiguous window of its input. Everything outside the window is whitespace, and the window neither starts nor ends with whitespace. |
| `Text.StripEmpty` | CDInventory.py:219-222 | A stripped line is empty, so the title or artist is refused, exactly when the line is all whitespace. |
| `Text.StripIdempotent` | CDInventory.py:238 | The returned ID, title and artist are already stripped: stripping again changes nothing. |
| `Text.Lower` | CDInventory.py:171 | `lower()` keeps the length and maps each character on its own. |
| `Text.StripLowerCommute` | CDInventory.py:295 | `strip().lower()` (the save answer) and `lower().strip()` (the menu key) normalise a line the same way. |
| `Text.NatToString` | CDInventory.py:190 | `str()` of a natural number is a nonempty string of decimal digits. |
| `Text.IntToString` | CDInventory.py:190 | `str()` of an integer is nonempty, and each of its characters is a digit or a minus sign. |
| `Text.DigitChar` | CDInventory.py:190 | The digit character for a value below 10 is a digit with that value. |
| `Text.NatToStringOfDigits` | CDInventory.py:190 | A digit string with no leading zero, converted to a number and printed back, is the same text. |
| `Text.ParseIntOfIntToString` | CDInventory.py:44 | `int(str(n)) == n`: a displayed ID parses back to the same ID. |
| `Table.FirstIndex` | CDInventory.py:60-67 | The scan's position is within the table. When below the length, it holds a record with the ID, and every earlier record has a different ID. |
| `Table.FirstIndexFound` | CDInventory.py:62-68 | The scan stops inside the table exactly when some record has the ID. |
| `Table.RemoveFirstSplice` | CDInventory.py:62-67 | Deleting cuts out exactly the record at the first matching position. With no match, the table is unchanged. |
| `Table.RemoveFirstPresent` | CDInventory.py:62-67 | When the ID is present, the table shrinks by one. Records before the match keep their positions; later ones move up by one. |
| `Table.RemoveFirstMultiset` | CDInventory.py:62-67 | The table after the delete, plus the deleted record, is a permutation of the table before. |
| `Table.RemoveFirstAbsent` | CDInventory.py:68-71 | Deleting an ID no record has leaves the table unchanged. |
| `Table.RemoveFirstKeepsOthers` | CDInventory.py:62-67 | A delete removes no record with a different ID, so every such record is still in the table. |
| `Console.FirstWhere` | CDInventory.py:169-171 | The re-prompting scan stops at an accepted line or at the end of the input, never before its start. |
| `Console.FirstWhereSkips` | CDInventory.py:169-171 | Every line the scan passes over is rejected. |
| `Console.FirstWhereDrop` | CDInventory.py:218-237 | Taking out a line before the scan's start moves the scan's result back by one line, and changes nothing else. |
| `Console.MenuChoice` | CDInventory.py:168-173 | `menu_choice` returns only one of the six keys. That key is the first line at or after `pos` that, lower-cased and stripped, is a key. The position moves past that line. When no line qualifies, the result is `None` at the end of the input. |
| `Console.PickLines` | CDInventory.py:204-238 | The ID line, the title line and the artist line are read in that order, after `pos`. |
| `Console.PickLinesSpec` | CDInventory.py:204-238 | Each picked line is accepted, and every line read between picks was rejected for the field being asked at that point. |
| `Console.PickLinesFound` | CDInventory.py:204-238 | When an accepted ID line, a later accepted title line and a later accepted artist line exist, the prompt finds its three lines. |
| `Console.AddPromptSucceeds` | CDInventory.py:204-238 | The add prompt succeeds whenever a valid ID line, then a nonempty line, then another nonempty line are typed, whatever comes between them. |
| `Console.AddPrompt` | CDInventory.py:204-238 | The add prompt consumes at least one line when it succeeds. When it runs out of lines, it ends at the end of the input. |
| `Console.AddPromptAccepts` | CDInventory.py:205-238 | An accepted ID parses as an integer with `0 < id < 500`. The title and artist are not empty. All three are returned stripped. |
| `Console.AddPromptRetriesId` | CDInventory.py:206-217 | A non-integer or out-of-range ID line is skipped, and the prompt asks for the ID again. |
| `Console.AddPromptRetriesTitle` | CDInventory.py:218-227 | An empty title after an accepted ID re-prompts only the title. The outcome is the same as if the empty line had never been typed. |
| `Console.AddPromptRetriesArtist` | CDInventory.py:228-237 | An empty artist after an accepted ID and title re-prompts only the artist. The outcome is the same as if the empty line had never been typed. |
| `Console.ReadId` | CDInventory.py:204-217 | The ID loop returns the first line that, stripped, is a valid ID, and only a valid ID. When no such line exists, it returns `None`. |
| `Console.ReadField` | CDInventory.py:218-227 | The title loop (and the artist loop at 228-237) returns the first line that is not empty once stripped, and never an empty value. |
| `Console.ReadTitleArtist` | CDInventory.py:218-238 | The title loop, then the artist loop. Each returns the first line at or after its start that is not empty once stripped, and the two nonempty values come back together. |
| `Console.AddIO` | CDInventory.py:194-238 | `myAddIOFunc` returns and consumes exactly what `AddPrompt` specifies: a valid ID, a nonempty title and a nonempty artist. |
| `Console.FormatRowFields` | CDInventory.py:190 | In a displayed row, the text before the first tab parses back to the ID. The title follows the tab, and the artist stands just before the closing `)`. |
| `Console.ShowInventory` | CDInventory.py:189-190 | One row per record, in table order, each formatted as `ID<TAB>Title (by:Artist)`. |
| `Inventory.ToRecordDisplaysId` | CDInventory.py:44-45 | An ID typed in plain decimal (digits, no leading zero) converts with `int()`, and the stored ID is displayed exactly as it was typed. |
| `Inventory.LoadCommand` | CDInventory.py:255-267 | Command `l` reads the confirmation line, plus the acknowledgement line when the user declines. Declining changes nothing. Confirming keeps the file and sets the table to the file's records, or to the empty table when there is no file; the run ends with `FileMissing` exactly when there is no file. It stays within the input and advances whenever it continues. |
| `Inventory.AddCommand` | CDInventory.py:269-273 | Command `a` never changes the file. When the prompt runs out of input, nothing changes. Otherwise the loop goes back to the menu with the table grown by exactly one record at its end, whose ID is between 1 and 499 and whose title and artist are not empty; the earlier records stay in place. |
| `Inventory.DeleteCommand` | CDInventory.py:278-291 | Command `d` reads exactly one ID line and always returns to the menu when that line exists. A line that is not an integer changes nothing; an integer leaves the table with its first record of that ID removed. The file never changes. |
| `Inventory.SaveCommand` | CDInventory.py:292-302 | Command `s` reads the confirmation line, plus the acknowledgement line when the user declines. It never changes the table. The file changes only on a confirmed save to a writable file, and then it holds the table and the loop goes back to the menu. A confirmed save ends the run with `FileUnwritable` exactly when the file is not writable. |
| `Inventory.StepSpec` | CDInventory.py:245-305 | One pass of the main loop stays within the input and consumes at least one line whenever it goes back to the menu. |
| `Inventory.Session` | CDInventory.py:245-305 | The main loop always ends: with `x`, at the end of the input, or at a `sys.exit()`. |
| `Inventory.Inventory.constructor` | CDInventory.py:13-17 | The program starts with an empty table and the file as it is. |
| `Inventory.Inventory.Add` | CDInventory.py:31-46 | `myAddProcCode` appends exactly the new record, keeps every earlier record in place, and leaves the file alone. |
| `Inventory.Inventory.Delete` | CDInventory.py:49-73 | `myDeleteDataProcFunc` reports a removal exactly when some record has the ID. The new table is the old one with its first matching record removed. The file is unchanged. |
| `Inventory.Inventory.Load` | CDInventory.py:80-109 | `read_file` reports success exactly when the file exists. The table then holds the file's records in order; with no file, the table is left empty. The file is unchanged. |
| `Inventory.Inventory.Save` | CDInventory.py:112-134 | `write_file` succeeds exactly when the file can be opened for writing, and then the file holds the whole table. On failure the file is untouched. The table is unchanged either way. |
| `Inventory.Inventory.LoadStep` | CDInventory.py:255-267 | Command `l` changes the table, the file and the input position exactly as `LoadCommand` says. |
| `Inventory.Inventory.DeleteStep` | CDInventory.py:278-291 | Command `d` changes the table, the file and the input position exactly as `DeleteCommand` says. |
| `Inventory.Inventory.SaveStep` | CDInventory.py:292-302 | Command `s` changes the table, the file and the input position exactly as `SaveCommand` says. |
| `Inventory.Inventory.Step` | CDInventory.py:245-305 | One pass of the main loop changes the table, the file and the input position exactly as `StepSpec` says, and ends with the status `StepSpec` gives. |
| `Inventory.Inventory.Run` | CDInventory.py:241-305 | The whole program (start-up load, then the main loop) ends in the state and with the status `Program` gives. |
| `Properties.SaveDeclinedKeepsState` | CDInventory.py:295-301 | Declining the save confirmation leaves both the table and the file unchanged. |
| `Properties.ReloadDeclinedKeepsState` | CDInventory.py:257-266 | Declining the reload confirmation leaves both the table and the file unchanged. |
| `Properties.StoredChangesOnlyOnConfirmedSave` | CDInventory.py:292-302 | The file changes only through a confirmed `s` to a writable file. It then holds exactly the table, and the table is unchanged. |
| `Properties.TableChangesOnlyByCommand` | CDInventory.py:252-305 | The table changes only under the commands `l`, `a` and `d`. |
| `Properties.AddStepAppends` | CDInventory.py:269-273 | A pass whose menu key is `a` keeps the file. It either runs out of input with nothing changed, or appends exactly one record with an ID between 1 and 499 and a nonempty title and artist, keeping the earlier records in place. |
| `Properties.DeleteStepRemovesFirst` | CDInventory.py:278-290 | A pass whose menu key is `d`, followed by an integer line, returns to the menu with the file kept and the first record of that ID removed: the table shrinks by one when the ID is present and is unchanged when it is absent. |
| `Properties.SaveThenReloadRestores` | CDInventory.py:255-298 | A confirmed save followed by a confirmed reload returns the table saved, record for record and in order. The file then holds that table too. |
| `Properties.SaveReloadSession` | CDInventory.py:245-298 | The whole session `s`, `y`, `l`, `yes` ends at the end of the input, with the table it started with, now also in the file. |
| `Properties.ConfirmationAsymmetry` | CDInventory.py:259 | The reload answer is lower-cased but not stripped, so `" yes"` declines and `"YES"` confirms. The save answer is also stripped, so `" Y "` confirms. |
| `Properties.DeleteExample` | CDInventory.py:60-71 | Deleting ID 1 from `[{1, A, X}, {2, B, Y}]` leaves `[{2, B, Y}]`. Deleting 1 again finds nothing and changes nothing. |
| `Properties.AddExampleRecord` | CDInventory.py:44-45 | The ID text `"5"` becomes the ID 5 in the record `{5, Thriller, Michael Jackson}`. |
| `Properties.AddExampleRow` | CDInventory.py:190 | That record is displayed as `5<TAB>Thriller (by:Michael Jackson)`. |

## Left out

- File contents: they are modelled as the records the file holds. The bytes `pickle` writes and reads, and a corrupt file, are not modelled.
- Other open failures: `write_file` catches only `FileNotFoundError`. An unwritable file is a fixed flag of the `Inventory` object, and other I/O errors are not modelled.
- `sys.exit()`: it becomes a final status. The program's messages before it are left out.
- Console output: menus, prompts, error messages and the blank lines are not modelled. `ShowInventory` models the row lines only, without the header and footer.
- Displays inside the main loop: `Step` does not return what each command displays. It reports only the new state, the status and the input position.
- `Text.Lower`: models `str.lower()` for ASCII letters only. Other letters are left as they are, unlike Python's full Unicode lower-casing.
- `Text.ParseInt`: models `int()` on stripped text as an optional sign and ASCII digits. Python also accepts underscores between digits and non-ASCII decimal digits; those inputs are rejected here. In the other direction, Python 3.11 and later refuse `int()` on more than 4300 digits, which the model accepts: such an ID line would re-prompt in Python but is taken here (4300 zeros followed by `7` is the ID 7).
- The "General Error" branch: the final `else` of the main loop is not modelled. `menu_choice` returns only one of the six keys, and `x` is handled first, so the branch cannot be reached.
- `myAddIOFunc`'s nesting: the title loop sits inside the ID loop and the artist loop inside the title loop. An inner loop is only ever left by the final `return`, so `AddIO` runs the three loops one after the other: `ReadId`, then `ReadTitleArtist`, which runs `ReadField` twice.
- `Inventory.Inventory.Add`: requires that the ID text parses as an integer. `int(myID)` would raise otherwise, but its only caller passes an ID that `myAddIOFunc` has already validated.
- The ID range check's mechanics: `raise print(CDIDoutOfRange())` raises a `TypeError`, caught by `except Exception`. Only the outcome is modelled: an out-of-range ID re-prompts. The printed text of `CDIDoutOfRange` is left out.
