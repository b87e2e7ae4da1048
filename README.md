# Experience list manager

A model of the in-memory experience list in `src/App.js`. The application is a
single-page React form for personal "experience" entries. Each entry has a
title, a start and an end date, a derived display date, a duration, a summary,
details, keywords and notes. The top-level component holds the list. The list
view deletes an entry after the user confirms. The form view, shared by the add
and edit routes, appends or replaces an entry. The edit route reads the index
of the entry from the last segment of its path.

Every operation in the source builds a new array or object and replaces the
React state cell wholesale. So each one is a pure Dafny function over
`seq<Record>` or `Record`, and lemmas state what it promises.

Modules:

- `Wrappers`: `Option`. `None` stands for JavaScript's NaN or undefined.
- `Decimal`: digit strings. `ToDecimal` is what `${index}` renders a number to.
- `Experience`: the `Record` datatype, the editable `Field`s and `DatePart`, the model of `split("T")[0]`.
- `ExperienceList`: delete by `filter`, update by `map`, and append by spread.
- `Home`: the confirmation-gated delete and the card's `/edit/<index>` path.
- `ExperienceForm`: the initial form, `handleChange`, the saved record and `handleSave`.
- `ExperienceEdit`: `split("/").pop()` and `parseInt(_, 10)` on the pathname.
- `App`: the empty initial list, the invariant that every stored `date` is derived, and lemmas that follow a record through the routes.

The code has no bounds check: `filter` and `map` match no position, so an
out-of-range or NaN index is a silent no-op. The model has no error case.

The model takes inputs in place of the source's I/O calls:

- Each `Date` is kept as the ISO 8601 text its `toISOString()` returns.
- `new Date()` in the default form is the parameter `now`.
- The answer of `window.confirm` is the parameter `confirmed`.
- `window.location.pathname` is the parameter `pathname`.

## Model

| member | source | states |
|---|---|---|
| `Decimal.ToDecimal` | src/App.js:30 | the text a card index renders to in `/edit/${index}` is a non-empty run of decimal digits |
| `Decimal.ValueOfToDecimal` | src/App.js:30 | reading the rendered digits back gives the index that was rendered |
| `Experience.DatePart` | src/App.js:73 | the date part is a prefix of the timestamp and contains no "T"; it ends at the first "T", or at the end of the text if there is none |
| `Experience.DatePartUnique` | src/App.js:73 | those three facts determine the date part uniquely |
| `Experience.DatePartOfTimestamp` | src/App.js:73 | of `<day>T<time>` with no "T" in `day` the date part is exactly `day` |
| `Experience.DateRangeOfTimestamps` | src/App.js:73 | the display date of two ISO timestamps is `<start day> ~ <end day>` |
| `Experience.DateRange` | src/App.js:73 | the display date holds no "T" and is a prefix of the start timestamp, then " ~ ", then a prefix of the end timestamp |
| `ExperienceList.DeleteAt` | src/App.js:14 | filtering out one position shortens the list by one when the index is in range, and keeps its length otherwise |
| `ExperienceList.DeleteAtShifts` | src/App.js:14 | after a valid delete, positions before the index are unchanged and position `k >= index` holds the old `k + 1` |
| `ExperienceList.DeleteAtRemoves` | src/App.js:14 | a valid delete gives `xs[..index] + xs[index + 1..]` |
| `ExperienceList.DeleteAtOutOfRange` | src/App.js:14 | an index naming no position matches nothing and the list is unchanged |
| `ExperienceList.DeleteAtUndoesAppend` | src/App.js:14 | deleting the last position after an append gives back the original list |
| `ExperienceList.UpdateAt` | src/App.js:77 | the map keeps the list's length |
| `ExperienceList.UpdateAtPositions` | src/App.js:77 | position `index` holds the new record and every other position holds what it held |
| `ExperienceList.UpdateAtReplaces` | src/App.js:77 | an in-range update is `xs[index := rec]`; an out-of-range one leaves the list unchanged |
| `ExperienceList.UpdateAtRestores` | src/App.js:77 | writing the old record back undoes an update |
| `ExperienceList.UpdateAtOverwrites` | src/App.js:77 | of two updates at one position the later one wins |
| `ExperienceList.Append` | src/App.js:80 | the result is one longer, begins with the old list and ends with the new record |
| `Home.HandleDelete` | src/App.js:12-17 | unconfirmed or out of range, the list is unchanged; confirmed and in range, exactly that record is removed and later ones shift down |
| `Home.EditPath` | src/App.js:30 | a card click opens `/edit/` followed by digits whose value is the card's index |
| `ExperienceForm.InitialForm` | src/App.js:51-62 | editing an existing position starts from that record. Adding, or editing an index that names no record, starts from empty text fields with both dates `now` |
| `ExperienceForm.DefaultForm` | src/App.js:53-62 | the default record has both dates `now` and every text field, `date` included, empty |
| `ExperienceForm.HandleChange` | src/App.js:65-67 | the named field gets the new value; every other field, and `date`, is unchanged |
| `ExperienceForm.HandleChangeSameValue` | src/App.js:66 | writing a field's current value back changes nothing |
| `ExperienceForm.HandleChangeUndo` | src/App.js:66 | restoring a field's old value undoes a change |
| `ExperienceForm.HandleChangeCommutes` | src/App.js:66 | changes to two different fields commute |
| `ExperienceForm.NewExperience` | src/App.js:71-74 | the saved record's `date` is `DatePart(start) + " ~ " + DatePart(end)`, and every editable field is copied from the form |
| `ExperienceForm.NewExperienceIdempotent` | src/App.js:71-74 | saving an already saved record again gives the same record |
| `ExperienceForm.NewExperienceIgnoresDate` | src/App.js:71-74 | a stale `date` in the form never reaches the saved record |
| `ExperienceForm.Save` | src/App.js:70-84 | adding appends the new record. Editing a valid position replaces only that position. Editing an index that names no position leaves the list unchanged |
| `ExperienceEdit.LastSegment` | src/App.js:140 | the segment is a suffix of the path with no "/"; it is the whole path or is preceded by a "/" |
| `ExperienceEdit.LastSegmentAfterSlash` | src/App.js:140 | the last segment of `<prefix>/<seg>` is `seg` |
| `ExperienceEdit.LeadingDigits` | src/App.js:140 | the digit run is the longest all-digit prefix of its input |
| `ExperienceEdit.LeadingDigitsOf` | src/App.js:140 | digits followed by a non-digit, or by nothing, are exactly the digit run |
| `ExperienceEdit.LeadingDigitsOfAll` | src/App.js:140 | a string made only of digits is its own digit run |
| `ExperienceEdit.Unsigned` | src/App.js:140 | parseInt drops at most one leading character, and drops one exactly when the text begins with "+" or "-" |
| `ExperienceEdit.Magnitude` | src/App.js:140 | the unsigned digit run is missing exactly when the text does not begin with a digit |
| `ExperienceEdit.MagnitudeOfDigits` | src/App.js:140 | a non-empty digit string has the magnitude it denotes |
| `ExperienceEdit.ParseInt` | src/App.js:140 | the result is NaN exactly when no digit follows the optional sign. A leading "-" gives a value `<= 0`, otherwise the value is `>= 0` |
| `ExperienceEdit.ParseIntOfDigits` | src/App.js:140 | a segment made only of digits parses to its decimal value |
| `ExperienceEdit.ParseIntOfNegative` | src/App.js:140 | a "-" followed by digits parses to minus their value |
| `ExperienceEdit.ParseIntOfMinus` | src/App.js:140 | a "-" in front of a digit run of magnitude `m` parses to `-m` |
| `ExperienceEdit.ParseIntOfPositive` | src/App.js:140 | a "+" followed by digits parses to their value |
| `ExperienceEdit.ParseIntStopsAtNonDigit` | src/App.js:140 | parsing stops at the first non-digit |
| `ExperienceEdit.ParseIntEdgeCases` | src/App.js:140 | "-0" parses to 0, and "0x10" stops at the "x" and parses to 0 |
| `ExperienceEdit.EditIndex` | src/App.js:140 | the index is NaN exactly when the last path segment, after its optional sign, does not begin with a digit |
| `ExperienceEdit.EditIndexOfDigitSegment` | src/App.js:140 | any path whose last segment is a non-empty digit string gives that string's decimal value as the index |
| `ExperienceEdit.EditIndexOfTrailingSlash` | src/App.js:140 | a path ending in "/" has an empty last segment and gives NaN |
| `ExperienceEdit.EditIndexOfEditPath` | src/App.js:140 | the index read from a card's edit path is the card's index |
| `App.EditFromCard` | src/App.js:138-142 | a card's edit route opens a form holding that record, and saving replaces that position only |
| `App.InitialDatesDerived` | src/App.js:124 | the empty list the application starts with satisfies the invariant that every stored `date` is derived from its record's two dates |
| `App.SavePreservesDatesDerived` | src/App.js:70-84 | every save, adding or editing, keeps that invariant |
| `App.HandleDeletePreservesDatesDerived` | src/App.js:12-17 | every delete, confirmed or not, keeps that invariant |
| `App.SaveUnchangedEdit` | src/App.js:70-84 | on a list that keeps the invariant, saving an untouched edit form leaves the list unchanged |
| `App.EditUnparsablePath` | src/App.js:138-142 | an edit path whose last segment gives NaN opens an empty form, and saving it leaves the list unchanged |
| `App.AddDeleteUpdateScenario` | src/App.js:124 | from the empty list: add A, add B, delete 0 and edit 0 to C. The successive lists are [A], [A, B], [B], [C] |
| `App.DateScenario` | src/App.js:73 | dates on 2024-01-05 and 2024-01-10 display as "2024-01-05 ~ 2024-01-10" |

## Left out

- JSX rendering, styles, the card grid, buttons and `stopPropagation` (src/App.js:19-45, 86-119): layout only, nothing to state.
- React Router routes and `navigate` calls (src/App.js:22, 30, 83, 117, 127-133): navigation only. Saving always returns to `/`. The model keeps only the path text a card click builds.
- `useState`: each setter is modelled as the new value replacing the old one. The initial form is evaluated once, when the form mounts.
- `window.confirm`, `window.location.pathname` and `new Date()`: I/O and clock reads. They become the parameters `confirmed`, `pathname` and `now`.
- `Date` and `toISOString()`: library code that depends on the time zone. The model starts from the ISO text. Which calendar day a picked date shows after UTC conversion is not modelled.
- The date pickers' `dayClassName` current-month highlighting (src/App.js:96, 103): a third-party widget reading the wall clock.
- A date picker cleared to `null`: `toISOString` would throw on save. The model's dates are always text.
- DefaultForm: the JavaScript default object has no `date` key (it reads as undefined). The model stores "" there. Saving recomputes `date`, so the stored list is the same.
- ParseInt: leading whitespace is not skipped, because a pathname never holds raw whitespace (it is percent-encoded). The model's integers are unbounded. JavaScript reads digit runs past 2^53 as rounded doubles, and these never name a list position either way. JavaScript's `-0` is modelled as 0; it compares equal to 0 and indexes position 0 in the source too.
- HandleChange: `[e.target.name]` can in principle write any key. The model covers the eight names the form wires up: the six text inputs and, through the same spread update, the two date pickers (src/App.js:95, 102).
