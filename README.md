# Braille cell translation and per-user accumulation

A Dafny model of the logic of a multi-user braille conversion service. A
client submits one six-dot braille cell at a time. The cell is written as a
string of six `0`/`1` characters and comes with a mode name and a user id.
The service translates the cell to one symbol, using the Unified English
Braille (UEB) letter table or the Nemeth digit table. It appends the symbol
to that user's accumulated text and answers with the symbol and the whole
text.

- `braille.dfy`, module `Braille`: the two fixed tables (`UebMap`,
  `NemethDigits`) and the translator `TranslateCell`. Mode selection is
  ASCII upper-casing followed by a comparison with `"NEMETH"`. A lookup
  that misses yields the fallback `"?"`.
- `session.dfy`, module `Session`: the process-wide store of accumulated
  text. The class `UserBuffers` holds a `map<string, string>` from user id
  to text, and its methods `Append` and `Submit` update that map in place.
  The request defaults are modelled by `Resolve`. Value-level functions
  (`Put`, `Replay`, `TokensFor`) specify what a sequence of submissions
  does to the store, and lemmas about them state the accumulation
  properties.

`bits` is an arbitrary string, as in the source, which never validates it.
A pattern that is not a key of the selected table, whatever its length,
translates to `"?"`.

Two behaviours of the code worth stating plainly:
- The code does not check a cell's width. A pattern of any other length
  translates to `"?"`; it is not rejected.
- The user id defaults to `"default"` only when the field is absent. A
  present but empty user id is kept as the key `""`.

## Model

| member | source | states |
|---|---|---|
| `Braille.UebMap` | app.py:8-12 | the UEB table, entry for entry as in the source: the ten letter cells to `a`..`j` and the blank cell to a space |
| `Braille.NemethDigits` | app.py:14-18 | the Nemeth table, entry for entry as in the source: the same ten cells to `1`..`9`,`0`, and no blank cell |
| `Braille.SelectsNemeth` | app.py:21 | the mode test: the upper-cased mode equals `NEMETH` |
| `Braille.TableFor` | app.py:21-23 | the table a mode selects: Nemeth when the mode test holds, UEB otherwise |
| `Braille.Lookup` | app.py:22-23 | dictionary lookup with `"?"` as the default for a missing key |
| `Braille.UebTableWellFormed` | app.py:8-12 | every UEB key is a six-character 0/1 cell and every UEB symbol is one character other than `"?"` |
| `Braille.NemethTableWellFormed` | app.py:14-18 | every Nemeth key is a six-character 0/1 cell and every Nemeth symbol is one character other than `"?"` |
| `Braille.Upper` | app.py:21 | upper-casing keeps the length and upper-cases each ASCII letter in place, leaving every other character unchanged |
| `Braille.TranslateCell` | app.py:20-23 | total: always exactly one character; `"?"` exactly when the pattern is not a key of the selected table; otherwise the table's symbol; a non-`"?"` answer only ever comes from a well-formed cell |
| `Braille.MalformedIsFallback` | app.py:20-23 | a pattern that is not six 0/1 characters translates to `"?"` under every mode |
| `Braille.UpperEqualsIff` | app.py:21 | the upper-cased mode equals an upper-case word if and only if the mode spells that word with any mix of cases |
| `Braille.SelectsNemethIff` | app.py:21 | a mode selects the Nemeth table if and only if it spells `NEMETH` in any mix of cases |
| `Braille.ModeExamples` | app.py:21 | `nemeth`, `Nemeth` and `NEMETH` select Nemeth; `UEB`, `ueb`, `foo`, the empty mode and `"NEMETH "` do not |
| `Braille.TranslateCaseInsensitive` | app.py:21-23 | the mode, its upper-case form and its lower-case form give the same translation for every pattern |
| `Braille.SameUpperSameTranslation` | app.py:21-23 | any two modes with the same upper-case form (`ueb`, `UEB`, `Ueb`) translate every pattern alike |
| `Braille.UnknownModeIsUeb` | app.py:21-23 | every mode that does not spell `NEMETH` translates like `UEB`, by a UEB lookup with `"?"` as default |
| `Braille.TablesShareCells` | app.py:8-18 | the Nemeth keys are exactly the UEB keys minus the blank cell `000000` |
| `Braille.LetterCellsCorrespond` | app.py:8-18 | the cell of the i-th letter of a..j is in both tables, as that letter in UEB and as the i-th digit of 1..9,0 in Nemeth |
| `Braille.LetterCellsCover` | app.py:14-18 | every Nemeth key is one of the ten letter cells |
| `Braille.LetterCellIsDigit` | app.py:8-23 | any pattern that translates to the i-th letter of a..j under UEB translates to the i-th digit of 1..9,0 under Nemeth |
| `Braille.CellExamples` | app.py:8-23 | `100000` is `a` under UEB and `1` under Nemeth; `110000` is `b` under UEB |
| `Braille.BlankAndUnknownExamples` | app.py:11-23 | `000000` is a space under UEB and `"?"` under Nemeth; `999999` is `"?"` under UEB |
| `Session.Resolve` | app.py:96-98 | an absent user id, bits or mode becomes `"default"`, `"000000"` or `"UEB"`; a present field is kept as given, even when empty |
| `Session.EmptyRequestIsBlank` | app.py:96-100 | a request with no fields appends a space to the `"default"` user's text |
| `Session.TextOf` | app.py:101 | a user's stored text, the empty text for a user with no entry (`USER_BUFFERS.get(user_id, "")`) |
| `Session.Put` | app.py:101 | get-or-create append: the user's entry becomes its old text (empty if none) followed by the token; the keys gain only that user; every other user's text is unchanged |
| `Session.ReplayAccumulates` | app.py:100-101 | after any interleaved sequence of submissions, a user's text is its old text followed by the symbols of that user's submissions, in submission order, with no separator |
| `Session.TokensLength` | app.py:100-101 | the symbols of a user's submissions total exactly one character per submission |
| `Session.ReplayLength` | app.py:100-101 | after a sequence of submissions a user's text has grown by exactly the number of that user's submissions |
| `Session.ReplayIndependent` | app.py:101 | a user with no submissions in a sequence keeps the text it had |
| `Session.ReplaySnoc` | app.py:100-101 | one more submission is one more `Put` on the replayed store, so successive `Append` calls replay the submissions in call order |
| `Session.UserBuffers.constructor` | app.py:48 | the store starts with no user entries |
| `Session.UserBuffers.Text` | app.py:101 | the store's text for a user, the empty text for a user never seen |
| `Session.UserBuffers.Append` | app.py:100-105 | the map becomes `Put` of the old map with the translated symbol; the response carries that symbol and the user's new full text, which is the old text plus one character; every other user's text is unchanged |
| `Session.UserBuffers.Submit` | app.py:94-105 | resolves the request's defaults, then updates the map as a one-step replay of the resolved submission and answers with the symbol and the user's full text |
| `Session.UserBuffers.AppendAll` | app.py:100-101 | a run of successive submissions, one `Append` each in order: the store ends as their replay, and every user's text is its old text followed by that user's symbols in order |
| `Session.Scenario` | app.py:94-105 | on a fresh store: alice's `100000`/UEB then `110000`/UEB give `("a","a")` then `("b","ab")`; bob's `100000`/NEMETH gives `("1","1")`; carol's `999999`/UEB gives `("?","?")` |

## Left out

- Persistence to the remote database (`update_translation`, `get_translation`, the credential and app set-up, app.py:29-41, and their calls at app.py:104 and app.py:109): remote I/O through a vendor library. `Append` models the in-memory path only. In the code the write at app.py:104 runs after the buffer update, so if it fails the in-memory text has still grown.
- The read endpoint `api_get` (app.py:107-110) returns the remote record, not the in-memory buffer, so it is left out with persistence.
- HTTP routing, JSON parsing and `jsonify`, the index page and its inline HTML/JavaScript, and starting the server (app.py:47, 51-91, 93-95, 107-117): transport and UI glue. The request is modelled as three optional strings.
- Request values that are not strings. The model's fields are strings, so it covers none of these cases:
  - a non-string `mode` raises an `AttributeError` at the `mode.upper()` call (app.py:21);
  - a list or object `bits` or `user_id` is unhashable and raises a `TypeError` at the lookup or the buffer update (app.py:22-23, 101);
  - a number, boolean or `null` `bits` is hashable, is no key of either table, and so translates to `"?"`;
  - a number, boolean or `null` `user_id` is accepted as a buffer key of its own, distinct from its string spelling;
  - a request body that is not a JSON object fails at `data.get` (app.py:96).
- Concurrency: the source has no locking around the shared map. Calls are modelled as sequential.
- `Braille.Upper`: models ASCII upper-casing only, not Python's full Unicode `str.upper()` (which can, for example, lengthen `ß` to `SS`). ASCII upper-casing is enough to decide whether a mode equals `NEMETH`.
