# Snorlax-Gatekeeper sign-in core, modelled in Dafny

Snorlax-Gatekeeper is a small Flask application. Trainers register by uploading a
screenshot of their game profile. The trainer name is read from the
screenshot's text. Each trainer then sets a PIN and a memorable phrase (the reset
code) and can log in, reset a forgotten PIN, and manage the account. Every
account is one row of a Google spreadsheet:
`[name, pin_hash, screenshot_url, progress, reset_code, reset_code_hash]`, with a
header in row 1.

This project models the two parts of `app.py` that have behaviour of their own:

- **The trainer-name extractor** (module `NameExtractor`, with the string
  operations it needs in `Text`). The OCR text is split on `"\n"`. Every line
  is stripped and empty lines are dropped. The first line that passes three
  tests becomes the candidate:
  - its upper-case form contains no interface word;
  - it has none of `, / : %`;
  - it is alphanumeric once spaces are removed, and longer than two characters.

  When no line passes, the candidate is `"Unknown"`. The sign-up and
  forgotten-PIN handlers both call the one method `ExtractTrainerName`. Their
  contracts therefore give the same candidate `CandidateName(text)` for the
  same text.
- **The account table and the handlers that change it.** `Accounts` holds the
  row datatype, the lookups over data rows and the single-cell write.
  `Store.Sheet` is the spreadsheet as a class: `GetAllValues`, `AppendRow`,
  `UpdateCell`. `Gatekeeper.App` holds the sheet, the session (a
  `map<string, string>`, as Flask's session dictionary) and `hash_value`.
  `hash_value` is a constant `hash: string -> string` that is deterministic
  and about which nothing else is assumed, not even injectivity. The handlers
  `Signup`, `Confirm`, `Login`, `Forgot`, `Reset`, `Logout` and
  `ManageAccount` are methods. The four handlers that look a trainer up read
  the table and run the loop over its data rows that the source repeats in
  each of them; the model writes that loop once, as `Accounts.Scan`, and
  proves it returns the first matching data row. Each `ensures` states exactly which cells and session keys change, under
  which guard, and that the table's two invariants hold afterwards whenever
  they held before. The invariants are: data-row names are distinct, and every
  data row stores `hash` of its own reset code.

Rows are numbered from 1 in the spreadsheet and from 0 in the model's
`seq<Row>`. Index 0 is the header, which no lookup matches. `UpdateCell` takes
the spreadsheet's 1-based row and column numbers, as `update_cell` does.

On a worksheet with no header row, `append_row` writes the first account into
row 1. Every handler skips row 1, so that account could never be found. The
model keeps this behaviour: `AppendRow` on an empty table makes the new row
the header. This is why the lemmas about registering and then logging in
require a header.

## Model

| member | source | states |
|---|---|---|
| `Text.Strip` | app.py:133 | `line.strip()`: the result neither starts nor ends with whitespace and is no longer than the input |
| `Text.StripSlice` | app.py:133 | the stripped line is a contiguous slice of the input, and everything cut away on either side is whitespace |
| `Text.StripIdempotent` | app.py:133 | stripping a line that is already stripped gives it back unchanged |
| `Text.StripEmptyIff` | app.py:133 | a line strips to the empty string exactly when it is all whitespace, so only blank lines are dropped |
| `Text.Split` | app.py:133 | `text.split("\n")` gives at least one piece, and no piece contains the separator |
| `Text.JoinSplit` | app.py:133 | joining the pieces of a split with the separator gives back the original text |
| `Text.SplitJoin` | app.py:133 | splitting a join of separator-free pieces gives back exactly those pieces |
| `Text.ToUpper` | app.py:141 | `line.upper()`: same length, no lower-case ASCII letter left, each lower-case letter mapped to its capital, every other character kept |
| `Text.RemoveSpaces` | app.py:146 | `line.replace(" ", "")`: no space left, and every other character kept as many times as it occurs |
| `Text.RemoveSpacesAppend` | app.py:146 | removing the spaces of two strings one after the other gives the two results one after the other, so the kept characters stay in order |
| `Text.RemoveSpacesNoSpace` | app.py:146 | a line without spaces is unchanged by the space removal |
| `Text.IsAlnum` | app.py:146 | `str.isalnum()` over ASCII: the string is not empty and every character is a letter or a digit |
| `Text.Contains` | app.py:142 | `sub in s`: `sub` occurs in `s` at some position that leaves room for all of it; the empty string occurs in every string |
| `Text.Basename` | app.py:168 | `os.path.basename`: a suffix of the path with no slash in it, preceded by a slash or making up the whole path |
| `NameExtractor.Kept` | app.py:133 | what one piece contributes: its stripped form, or nothing when that is empty |
| `NameExtractor.KeepStripped` | app.py:133 | the kept forms of the pieces, in the order of the pieces, never more lines than pieces |
| `NameExtractor.PrepareLines` | app.py:133 | the text cut at line feeds, each piece stripped, the empty ones dropped, in order |
| `NameExtractor.KeepStrippedLines` | app.py:133 | every prepared line is non-empty and stripped |
| `NameExtractor.KeepStrippedAppend` | app.py:133 | preparing two runs of lines gives the two results one after the other, so line order is kept |
| `NameExtractor.StrippedPieceKept` | app.py:133 | every piece of the text whose stripped form is not empty contributes that stripped form as a line |
| `NameExtractor.KeptLineFromPiece` | app.py:133 | every prepared line is non-empty and is the stripped form of some piece of the text |
| `NameExtractor.KeepStrippedMembers` | app.py:133 | a line is prepared exactly when it is non-empty and is the stripped form of some piece of the text |
| `NameExtractor.Denied` | app.py:142 | the upper-cased line contains one of FRIENDS, RIENDS, PARTY, STYLE, SCRAPBOOK, JOURNAL, BUDDY, HISTORY as a substring |
| `NameExtractor.HasPunctuation` | app.py:144 | the line contains one of `,` `/` `:` `%` |
| `NameExtractor.LooksLikeName` | app.py:146 | without its spaces the line is non-empty and alphanumeric, and with them it is longer than two characters |
| `NameExtractor.Accepted` | app.py:141-146 | the line is not denied, has no punctuation and looks like a name: the lines the loop neither skips nor passes over |
| `NameExtractor.FirstAcceptedFrom` | app.py:139-148 | the first accepted line at or after a position, or none when no line from there is accepted |
| `NameExtractor.FirstAccepted` | app.py:139-148 | the position of a line that passes all three tests and is preceded only by lines that fail one; none only when every line fails |
| `NameExtractor.Choose` | app.py:139-148 | the first accepted line, or `"Unknown"` when there is none |
| `NameExtractor.CandidateName` | app.py:133-148 | the candidate for a screenshot's text: the choice among its prepared lines |
| `NameExtractor.ChooseSpec` | app.py:139-148 | the selected line is `"Unknown"` or a line of the input; when not `"Unknown"` it passes all three tests; when no line passes it is `"Unknown"` |
| `NameExtractor.CandidateNameSpec` | app.py:139-148 | the candidate is `"Unknown"` with every prepared line failing, or a prepared line that passes every test and is preceded only by failing lines |
| `NameExtractor.SelectTrainerName` | app.py:139-148 | the selection loop with `continue`/`break` returns the first accepted line or `"Unknown"`: the result is `"Unknown"` or a line of the input, it passes the tests unless it is `"Unknown"`, and it is `"Unknown"` when no line passes |
| `NameExtractor.ExtractTrainerName` | app.py:133-148 | line preparation followed by selection returns `CandidateName(text)`: `"Unknown"`, or a prepared, stripped, non-empty line that passes the tests |
| `NameExtractor.AlnumHasNoPunctuation` | app.py:144-146 | a line of letters and digits never trips the punctuation test |
| `NameExtractor.SampleNameNotDenied` | app.py:141-142 | `"AshKetchum99"` contains none of the eight denylisted words once upper-cased |
| `NameExtractor.SampleNameAccepted` | app.py:141-146 | `"AshKetchum99"` passes the denylist, punctuation and name tests |
| `NameExtractor.SampleChromeRejected` | app.py:142-145 | `"Friends"` and `"Journal"` hit the denylist, and `"A,B/C"` has punctuation |
| `NameExtractor.SampleScreenshot` | app.py:139-148 | on the lines `Friends, Journal, A,B/C, AshKetchum99, xy` the candidate is `AshKetchum99` |
| `Accounts.Row.WithCell` | app.py:254 | writing one column sets that column and keeps the other five |
| `Accounts.FindFrom` | app.py:252-253 | the first matching row at or after a position, or none when no row from there matches |
| `Accounts.Matches` | app.py:173 | what a lookup compares: the name alone (here and at line 294), the name and the PIN digest in column 2 (line 196), or the name and the reset digest in column 6 (line 253) |
| `Accounts.NewAccount` | app.py:181 | the appended row: name, `hash(pin)`, screenshot URL, progress `"0"`, the reset code and `hash(reset_code)` |
| `Accounts.DataRows` | app.py:172 | `rows[1:]`: one row fewer than the table, none for an empty table, and its `j`-th row is the table's row `j + 1` |
| `Accounts.Scan` | app.py:252-253 | the loop over `rows[1:]` that stops at the first row matching the key returns what `Find` specifies: the first matching data row, or none when no data row matches |
| `Accounts.Find` | app.py:172-173 | the first data row (never the header) that matches the key, with all earlier data rows not matching; none only when no data row matches |
| `Accounts.SetCell` | app.py:254 | `update_cell(row, col, v)` on the table: same length, that cell becomes `v`, the rest of that row and every other row are unchanged |
| `Accounts.RegistrationKeepsConsistency` | app.py:170-181 | appending a row whose name no data row has, and which stores the digest of its reset code, keeps names distinct and reset digests matching |
| `Accounts.PinWriteKeepsConsistency` | app.py:254 | overwriting a data row's PIN digest keeps both invariants |
| `Accounts.MemorableWrite` | app.py:339-340 | the table after writing the new phrase into column 5 of a data row and then its digest into column 6 |
| `Accounts.MemorableWriteKeepsConsistency` | app.py:339-340 | writing column 5 and then column 6 of a data row changes only the reset code and its digest, to `m` and `hash(m)`, and keeps both invariants |
| `Accounts.UniqueNameLocates` | app.py:293-296 | with distinct names, looking up a data row's name finds exactly that row |
| `Accounts.RegisteredNameIsTaken` | app.py:170-181 | after an account is appended, a second registration under the same name finds it and is refused |
| `Accounts.RegisteredCanLogIn` | app.py:181-196 | an account appended under a fresh name is the first row that name and PIN digest find at login |
| `Accounts.PinWriteEnablesLogin` | app.py:254 | after a row's PIN digest is overwritten, login under that row's name with the new digest finds a row |
| `Accounts.MemorableWriteEnablesReset` | app.py:339-340 | after a new memorable phrase is written, a PIN reset under that name with the new phrase finds a row |
| `Store.Sheet.GetAllValues` | app.py:171 | reading the table returns its rows and changes nothing, so two reads with no write between them agree |
| `Store.Sheet.AppendRow` | app.py:181 | the new row is last and every earlier row is kept |
| `Store.Sheet.UpdateCell` | app.py:254 | the table becomes `SetCell` of the old table: one cell changes and nothing else |
| `Gatekeeper.UploadPath` | app.py:127 | `os.path.join("uploads", name)`: `uploads/name`, or the name itself when it starts with a slash |
| `Gatekeeper.PendingScreenshot` | app.py:167 | the path stored in the session at upload, else `uploads/placeholder.png` |
| `Gatekeeper.ScreenshotUrl` | app.py:168 | `/uploads/` followed by the path's base name |
| `Gatekeeper.LoggedInSession` | app.py:198-201 | the session with `trainer_name`, `progress`, `screenshot` and `reset_code` set from the name and the row, every other key kept |
| `Gatekeeper.SessionRow` | app.py:286-296 | the logged-in trainer's first data row, or none when nobody is logged in or no data row has the name |
| `Gatekeeper.UploadedScreenshotUrl` | app.py:127-168 | a screenshot saved as `uploads/<name>`, with no slash in `<name>`, is recorded as `/uploads/<name>` |
| `Gatekeeper.PlaceholderScreenshotUrl` | app.py:167-168 | with no upload in the session, the account records `/uploads/placeholder.png` |
| `Gatekeeper.Dashboard` | app.py:268-280 | the login redirect when the session has no `trainer_name`; otherwise the page with the session's name, its progress (`"0"` when absent), and its screenshot and reset code when present |
| `Gatekeeper.LoginThenDashboard` | app.py:268-280 | the dashboard after a login shows the page, not the login redirect, with the logged-in name and the stored row's progress, screenshot and reset code |
| `Gatekeeper.App.Signup` | app.py:118-153 | no file gives "No file uploaded", an empty filename gives "No file selected"; both leave the session unchanged; otherwise the candidate is `CandidateName(text)` and only `screenshot_path` is set, to `uploads/<saved name>` |
| `Gatekeeper.App.Confirm` | app.py:158-184 | if a data row has the name: refused, with table and session unchanged; otherwise exactly one row `[name, hash(pin), /uploads/<basename>, "0", reset_code, hash(reset_code)]` is appended, earlier rows are kept and only `screenshot_path` leaves the session; both invariants are preserved |
| `Gatekeeper.App.Login` | app.py:188-204 | the table never changes; success exactly when a data row has the name and `hash(pin)`; then the name, progress, screenshot and reset code of the first such row are set in the session; otherwise the one generic failure with the session unchanged |
| `Gatekeeper.App.Forgot` | app.py:209-237 | a missing file is a bad request, an empty filename "No file selected"; both leave the session unchanged; otherwise the candidate is `CandidateName(text)` and only `reset_trainer` is set; the table is not consulted |
| `Gatekeeper.App.Reset` | app.py:242-259 | if a data row has the name and `hash(reset_code)`, only column 2 of the first such row becomes `hash(new_pin)`; otherwise failure with nothing changed; both invariants are preserved |
| `Gatekeeper.App.Logout` | app.py:262-265 | the session becomes empty and the table is unchanged |
| `Gatekeeper.App.ManageAccount` | app.py:283-347 | nothing changes unless the session has a trainer whose data row exists. Changing the PIN also needs `hash(current_memorable)` to equal column 6 and the two new PINs to agree. Then only column 2 of that row becomes `hash(new_pin)` and the session's `pin_hash` is set. Changing the phrase needs `hash(current_pin)` to equal column 2. Then only columns 5 and 6 become the phrase and its digest, and the session's `reset_code` is set. Both invariants are preserved |

## Left out

- SHA-256 inside `hash_value` (app.py:107-108): the digest is the constant `App.hash`, an arbitrary deterministic function. No property may depend on collisions being absent, so none does.
- OCR, the image library and file saving (app.py:128-132, 218-222): the text read from the image is the `text` field of an `Upload`, an input.
- `secure_filename` (werkzeug, not part of this model): its result is the `savedName` field of an `Upload`, an input.
- The `print` diagnostics (app.py:135-137, 150), `send_from_directory` (app.py:102-104) and the `/` redirect (app.py:111-113): they are output and routing only.
- The GET branches of `/signup`, `/login` and `/forgot`, templates, `flash` messages and `redirect`: each handler returns an outcome value instead.
- The Campfire routes (app.py:24-72) and the `campfire/` package: they make HTTP calls to a remote API whose behaviour cannot be seen.
- Google Sheets authentication and start-up configuration (app.py:75-99): the sheet is a `Store.Sheet` given to the `App` constructor.
- Missing form fields: `request.form[...]` on a missing field makes Flask answer 400 before any state changes. The model takes every field as a parameter.
- Rows shorter than six cells (an `IndexError` in the source) and columns beyond the sixth: a row is a six-field datatype.
- Concurrency: two requests racing on read-then-write of the sheet can lose an update or register one name twice. The model is sequential.
- Session signing and the cookie: the session is a plain map.
- `Text.ToUpper`: approximates Python's `str.upper()` on ASCII only. Non-ASCII letters are kept, including those whose upper case is longer, such as `ß`.
- `Text.Strip`: approximates Python's `str.strip()` with the ASCII whitespace set. Non-ASCII spaces are not removed.
- `Text.IsAlnum`: approximates Python's `str.isalnum()` with ASCII letters and digits only; non-ASCII letters and digits are rejected.
- `NameExtractor.SelectTrainerName`: the alphanumeric test is ASCII-only, while Python's `str.isalnum()` also accepts non-ASCII letters and digits, so a name written in another script is rejected by the model and accepted by the source.
- `Gatekeeper.App.Signup`: assumes that saving the file, opening the image and reading its text all succeed. In the source any of them can raise (app.py:128-132), for instance when the sanitised name is empty and `uploads/` is a directory, and the request then ends in a server error before the session is written. The model instead always proposes a name and stores the path.
- `Gatekeeper.App.Forgot`: makes the same assumption about the save and the text reading at app.py:218-222. In the source a failure there ends the request in a server error before `reset_trainer` is set.
- `Store.Sheet.UpdateCell`: stores `v` exactly as given. The spreadsheet client enters an updated cell as if a user had typed it, so a value such as `"0042"` may be read back as `"42"`, while `append_row` stores its values raw. The client is not part of this model. Every write and every call that reads the sheet is also assumed to succeed.
- `Gatekeeper.App.ManageAccount`: the invariant that column 6 holds the digest of column 5 is proved on the assumption that both writes at app.py:339-340 succeed and that the phrase is stored verbatim. If the sheet reinterprets the phrase (see `Store.Sheet.UpdateCell`), the stored code no longer hashes to column 6. If the second write fails after the first, column 6 keeps the old digest. The model covers neither case.
- `Gatekeeper.Dashboard`: Python's default progress is the integer 0, and the model shows it as the string `"0"`, which is how the template renders it.
