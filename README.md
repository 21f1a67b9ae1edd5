# Roster model of the streamvip player table

The page in `app/page.tsx` keeps an ordered list of players, called the roster. Each player has a name (`nama`), an optional numeric `id`, and two counters: `slotVip` and `slotMatch`. The `Home` component changes the roster in a few ways:

- four handlers raise or lower one counter of the row at a given index;
- one handler deletes a row by index;
- one handler appends a new player built from a four-field text form, then clears the form.

A row menu also copies a one-line summary of a player to the clipboard.

This project models those operations in Dafny:

- `Wrappers` holds the `Option` type used for the optional id.
- `Numbers` holds the two integer/text conversions the page relies on. `ParseNumber` is `Number(s)` on plain decimal numerals. `IntToString` is how a template string renders an integer. A lemma proves that reading back a rendered integer gives the same integer.
- `Roster` holds the `Player` and `NewPlayer` (form) datatypes and the handlers. Each handler is a pure function from the old roster to the new one, as the source passes it to `setData`.
- `RosterProperties` holds the lemmas that relate several handlers: inverses, floors, commutation, preserved invariants and worked examples.
- `CopyInfo` holds the clipboard summary text. A lemma proves that, for a given name, the summary determines the player.
- `Page` holds the class `Home`, with fields `data` and `newPlayer`. Its methods mirror the handlers. The counter and delete handlers replace `data` and leave the form unchanged. The input handlers replace the form and leave `data` unchanged. `HandleAddPlayer` replaces both when the guard accepts the form.

Two facts about the code shape what is proved:

- Counters can be negative. The add handler passes the form's numbers through `Number(...)` (app/page.tsx:122-123) with no sign check, so a player can be added with a negative count (`RosterProperties.ExampleAddNegative`). Only a decrement guarantees a result of at least zero. Non-negativity is therefore proved as an invariant the other handlers preserve (`HandlersKeepNonNegative`). Add preserves it exactly when the submitted numbers are non-negative (`AddKeepsNonNegative`).
- Loading has no parse-failure fallback. app/page.tsx:69 calls `JSON.parse` unguarded, so there is no "unreadable storage gives an empty roster" behaviour to model.

## Model

| member | source | states |
|---|---|---|
| `Roster.MapAt` | app/page.tsx:82-84 | `prev.map((row, idx) => idx === rowIndex ? f(row) : row)` is the roster with the one entry at a valid `rowIndex` replaced by `f` of it, and the roster itself for any other index |
| `Roster.Max` | app/page.tsx:92 | `Math.max(a, b)` is at least both arguments and equal to one of them |
| `Roster.IncMatch` | app/page.tsx:80-86 | the length is kept; at a valid index the row's `slotMatch` is one more, and its name, id and VIP count are unchanged; every other row is unchanged; an out-of-range index leaves the roster unchanged |
| `Roster.DecMatch` | app/page.tsx:88-96 | at a valid index, `slotMatch` becomes `max(0, old - 1)`, so it is at least 0; all other fields and rows are unchanged; an out-of-range index changes nothing |
| `Roster.IncVip` | app/page.tsx:98-104 | at a valid index, `slotVip` is one more and the rest of the row is unchanged; every other row is unchanged; an out-of-range index changes nothing |
| `Roster.DecVip` | app/page.tsx:106-114 | at a valid index, `slotVip` becomes `max(0, old - 1)`, so it is at least 0; all other fields and rows are unchanged; an out-of-range index changes nothing |
| `Roster.FilterIndex` | app/page.tsx:131 | `prev.filter((_, idx) => idx !== rowIndex)` yields one row fewer when the index falls inside the roster, and the same number of rows otherwise |
| `Roster.FilterIndexSpec` | app/page.tsx:131 | the index filter `idx !== rowIndex` yields `data[..i] + data[i+1..]` when the index is in range, and the whole roster otherwise |
| `Roster.Delete` | app/page.tsx:130-132 | at a valid index the result is the rows before it followed by the rows after it, with length one less and order kept; an out-of-range index changes nothing |
| `Roster.GuardIgnoresId` | app/page.tsx:117 | the guard (reject when the name, VIP or match input is empty) never depends on the id input, rejects the cleared form, and rejects any form once its name, VIP or match input is emptied |
| `Roster.BuildEntry` | app/page.tsx:119-124 | the new entry has the form's name; its id is absent exactly when the id input is empty, and otherwise it is the number the input reads as; both counters are the numbers their inputs read as |
| `Roster.Add` | app/page.tsx:116-128 | if the name, VIP input or match input is empty, the roster is unchanged whatever the other inputs hold (no number is read); otherwise exactly one entry, the built one, is appended after the unchanged old roster |
| `Roster.BuildEntryFormOf` | app/page.tsx:116-124 | every player with a non-empty name can be entered through the form, and submitting that form builds exactly that player |
| `Numbers.ParseNumber` | app/page.tsx:121-123 | `Number(s)` on a decimal numeral: a readable input is non-empty and space-free, and a negative value comes only from a leading '-' |
| `Numbers.IntToString` | app/page.tsx:258-260 | `${n}` for an integer is non-empty, space-free, begins with a digit or '-', and begins with '-' exactly when the integer is negative; the digits of a natural number have no leading zero |
| `Numbers.DigitsValueOfNatToString` | app/page.tsx:258-260 | the decimal digits rendered for a natural number read back as that number |
| `Numbers.ParseIntToString` | app/page.tsx:121-123 | `Number` applied to the rendering of any integer gives back that integer |
| `Numbers.IntToStringInjective` | app/page.tsx:258-260 | distinct integers render as distinct text |
| `CopyInfo.IdText` | app/page.tsx:258 | `player.id ?? "No ID"` is non-empty and starts with 'N' exactly when the id is absent; a present id, 0 included, renders as text that reads back as that id |
| `CopyInfo.Summary` | app/page.tsx:257-260 | the copy-info text is `nama + " - ID: " + (id or "No ID") + " - Slot VIP: " + slotVip + " - Slot Match: " + slotMatch`; it begins with the player's name |
| `CopyInfo.SummaryInjective` | app/page.tsx:257-260 | two players with the same name and the same copy-info text are equal in id, VIP count and match count |
| `CopyInfo.SummaryShowsMissingId` | app/page.tsx:258 | the text after " - ID: " is "No ID" exactly when the player has no id |
| `RosterProperties.IncDecMatchRestores` | app/page.tsx:83-92 | at a valid index, incrementing and then decrementing match slots restores the roster if and only if that counter was non-negative |
| `RosterProperties.IncDecVipRestores` | app/page.tsx:101-110 | at a valid index, incrementing and then decrementing VIP slots restores the roster if and only if that counter was non-negative |
| `RosterProperties.DecIncMatchRestores` | app/page.tsx:83-92 | decrementing and then incrementing match slots restores the roster if and only if the counter was at least 1 |
| `RosterProperties.DecIncVipRestores` | app/page.tsx:101-110 | decrementing and then incrementing VIP slots restores the roster if and only if the counter was at least 1 |
| `RosterProperties.DecMatchFixedAtFloor` | app/page.tsx:92 | a match decrement at a valid index leaves the roster unchanged if and only if the counter is 0 |
| `RosterProperties.DecVipFixedAtFloor` | app/page.tsx:110 | a VIP decrement at a valid index leaves the roster unchanged if and only if the counter is 0 |
| `RosterProperties.DecMatchIdempotentAtFloor` | app/page.tsx:92 | once a match counter is at most 1, a second decrement changes nothing |
| `RosterProperties.DecVipIdempotentAtFloor` | app/page.tsx:110 | once a VIP counter is at most 1, a second decrement changes nothing |
| `RosterProperties.CounterHandlersKeepIdentities` | app/page.tsx:80-114 | no counter handler changes any row's name or id; match handlers keep every VIP count and VIP handlers keep every match count |
| `RosterProperties.MatchAndVipCommute` | app/page.tsx:80-114 | any match handler (increment or decrement) and any VIP handler, at any two indices, give the same roster in either order |
| `RosterProperties.HandlersKeepNonNegative` | app/page.tsx:80-114 | if all counters are non-negative, they stay so after any counter handler or delete, at any index |
| `RosterProperties.AddKeepsNonNegative` | app/page.tsx:116-128 | an accepted add keeps all counters non-negative if and only if the submitted VIP and match numbers are non-negative |
| `RosterProperties.DeleteUndoesAdd` | app/page.tsx:126-131 | deleting at the old length, after an accepted add, gives back the roster from before the add |
| `RosterProperties.ExampleIncrementVip` | app/page.tsx:98-104 | one more VIP slot at index 0 of `[Alice 2/1]` gives `[Alice 3/1]` |
| `RosterProperties.ExampleAddBob` | app/page.tsx:116-128 | submitting `("Bob", "7", "3", "0")` on an empty roster gives `[{Bob, id 7, 3, 0}]` |
| `RosterProperties.ExampleAddNegative` | app/page.tsx:122-123 | the form accepts "-1" VIP slots, and the roster then holds a negative counter |
| `RosterProperties.ExampleRejectBeforeNumber` | app/page.tsx:117 | a form with an empty name and free-text id "abc", VIP "1.5" and empty match is rejected, leaving the roster unchanged |
| `RosterProperties.ExampleDeleteFirst` | app/page.tsx:130-132 | deleting index 0 of a two-row roster leaves the second row |
| `Page.Home.constructor` | app/page.tsx:57-63 | the component starts with an empty roster and a form whose four inputs are empty |
| `Page.Home.HandleIncrement` | app/page.tsx:80-86 | `data` becomes `IncMatch` of the old roster; the form is unchanged |
| `Page.Home.HandleDecrement` | app/page.tsx:88-96 | `data` becomes `DecMatch` of the old roster; the form is unchanged |
| `Page.Home.HandleIncrementVip` | app/page.tsx:98-104 | `data` becomes `IncVip` of the old roster; the form is unchanged |
| `Page.Home.HandleDecrementVip` | app/page.tsx:106-114 | `data` becomes `DecVip` of the old roster; the form is unchanged |
| `Page.Home.HandleDeletePlayer` | app/page.tsx:130-132 | `data` becomes `Delete` of the old roster; the form is unchanged |
| `Page.Home.HandleAddPlayer` | app/page.tsx:116-128 | `data` becomes `Add` of the old roster and form; the form is cleared to four empty strings exactly when the add was accepted, and is untouched otherwise; any input is allowed on the reject path |
| `Page.Home.SetNama` | app/page.tsx:335-341 | the name input is replaced; the other inputs and the roster are unchanged |
| `Page.Home.SetId` | app/page.tsx:342-346 | the id input is replaced by any text; the other inputs and the roster are unchanged |
| `Page.Home.SetSlotVip` | app/page.tsx:347-354 | the VIP input is replaced; the other inputs and the roster are unchanged |
| `Page.Home.SetSlotMatch` | app/page.tsx:355-362 | the match input is replaced; the other inputs and the roster are unchanged |
| `Page.AddThroughForm` | app/page.tsx:335-363 | typing a named player's fields into the form and pressing add appends exactly that player and leaves the form empty |

## Left out

- Loading from and saving to `localStorage`, and `JSON.parse`/`JSON.stringify` (app/page.tsx:65-78), are browser I/O. The constructor models only the initial state `useState([])`. The code has no fallback when the stored text does not parse.
- `navigator.clipboard.writeText` (app/page.tsx:257) is a foreign call; only the text it is given is modelled (`CopyInfo.Summary`).
- Sorting, name filtering, pagination, column visibility and row-selection counting are done by `@tanstack/react-table`, whose code is not part of this model. So is the mapping from a displayed row to its store index (`row.index`, app/page.tsx:195, 223, 243). Every handler takes the store index directly.
- JSX rendering, column headers, dropdown menus and checkboxes are presentation only.
- `Roster.BuildEntry`, `Roster.Add`, `Page.Home.HandleAddPlayer`: `Number(...)` is modelled only on plain decimal numerals (an optional '-' and then digits). When the guard accepts the form, strings that `Number` reads as fractions, exponents, hexadecimal, padded with spaces, or `NaN` are excluded by the precondition `NumbersReadable`. A rejected form may hold anything, since the source returns before calling `Number`.
- `Numbers.IntToString`: counters are unbounded integers. JavaScript doubles lose precision above 2^53, and template strings switch to exponent notation at 10^21. Neither is modelled.
- `Roster.IncMatch`, `Roster.IncVip`: in JavaScript `x + 1 === x` once `x` reaches 2^53, so these, and the if-and-only-if of `RosterProperties.IncDecMatchRestores` and `RosterProperties.IncDecVipRestores`, hold only below that bound. The model's unbounded integers do not capture this.
- `Numbers.ParseNumber`, `Roster.BuildEntry`: `Number` rounds digit strings above 2^53 to the nearest double. The model reads them exactly.
- React's effect and state scheduling (`useEffect`, batched `setState` updaters) is not modelled. Each handler applies its update to the current state immediately.
