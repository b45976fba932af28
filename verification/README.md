# A verified model of the question-to-pandas chat service

`app.py` is a small Flask service. A user uploads a table. The service cleans the
table's column names and adds a few derived columns. Questions in plain language
go to a hosted language model (the *translator*), which is asked for one line of
pandas code. The service cleans and extracts that line and evaluates it against
the table. If the code fails, it gives the translator one corrective retry. The
value the code returns is rendered as HTML.

This project models the deterministic core of that service in Dafny and proves
what it does:

- `text.dfy` (module `Text`): the Python string operations the core relies on.
  These are `strip`, ASCII `lower`, `in`, `startswith`, the single left-to-right
  pass of `str.replace`, `join`/`split` on one separator, and `str(n)` for
  natural numbers.
- `extractor.dfy` (module `Extractor`): the cleaning of the translator's reply.
  It strips the reply, removes every backtick, and removes `python` in one pass.
  It then extracts the expression with `re.search(r"df\[.*\]")`. A match is
  specified as the leftmost start with the greedy end on the same line.
- `formatter.dfy` (module `Formatter`): how an evaluated value becomes the answer.
- `upload.dfy` (module `Upload`): the upload steps, on a `Table` class whose
  methods update the columns in place, as `upload_file` does:
  - column names are stripped and lower-cased;
  - the `clean_emp_name` column is built with the ordered honorific alternation;
  - amount columns are cleaned to digits and dots.

  The module also holds the schema text of `get_column_info` and the summary facts
  and column selection of `get_system_prompt`.
- `chat.dfy` (module `Chat`): the chat handler.
  - One pass of the `try` block is `TryBlock`, specified by the function `Try`.
  - The `while` loop with its attempt counter and carried feedback is `RetryLoop`,
    proved equal to the specification function `Run`.
  - The failure answer, the history append, the per-client `Session`, and the
    `App` holding the shared data frame are modelled too.

The translator and `eval` are function parameters (`translate: Prompt -> Reply`,
`evaluate: string -> Evaluation`). Every result holds for whatever they answer.
The same goes for pandas' `to_numeric` (`toNumeric`) in the upload step. The file
reader is replaced by the columns it produces.

The model follows the code as written. These behaviours of the code are easy to miss:

- A translator failure on the first attempt leaves `generated_code` unbound. Line
  135, inside the `except` clause of line 132, then raises `UnboundLocalError`.
  Nothing catches it, and the request fails with HTTP 500. The model calls this
  outcome `Escaped`. A translator failure on the second attempt becomes the
  ordinary failure answer.
- The failure answer (line 139) shows only the count and the exception text, not
  the failing code.
- The chat history is never sent to the translator; it is only appended to.
- The extractor accepts only the shape `df\[.*\]`. Text without `df[` goes to
  `eval` unchanged.
- The refusal message without an uploaded file (line 94) is "Upload file first."
- Query-time errors can escape. A session cleared by the index page (line 62)
  while the shared frame is still loaded has no `file_schema`. Line 104, in the
  first pass of the `while` body and before the translator is called, then raises
  `KeyError`, so the request fails with HTTP 500 (`App.Chat` answers
  `InternalError`).

The `mrs\.?` alternative of line 78 can never apply. `mr\.?` is tried first and
already matches, so `Mrs Smith` becomes `s smith` (`Upload.MrsLosesOnlyMr`).

## Model

| member | source | states |
|---|---|---|
| `Text.Strip` | app.py:122 | `strip()` keeps exactly the infix with no whitespace at either end that has only whitespace outside it; text with none at its ends is unchanged |
| `Text.TrimmedInfixUnique` | app.py:122 | that infix is unique, so the contract of `Strip` determines its result |
| `Text.Lower` | app.py:74 | `lower()` keeps the length, maps each character, and leaves no upper-case ASCII letter |
| `Extractor.Clean` | app.py:122 | after stripping and removing backticks and `python`, no backtick remains |
| `Extractor.PythonSurvivesClean` | app.py:122 | removal of `python` is a single non-overlapping pass: `pypythonthon` cleans to `python` |
| `Extractor.CleanNotIdempotent` | app.py:122 | hence cleaning twice differs from cleaning once: the surviving `python` goes on the second pass |
| `Extractor.MatchAt` | app.py:126 | from a given start, the match of `df\[.*\]` ends at the last `]` before the next newline, and no longer match exists |
| `Extractor.Search` | app.py:126 | `re.search` returns the leftmost match with its greedy end, and nothing exactly when no substring matches |
| `Extractor.Extract` | app.py:124-126 | code starting with `df[`, or without `df[`, is kept unchanged; otherwise the result is the leftmost greedy match, and it fails exactly when no match exists |
| `Extractor.ExtractIdempotent` | app.py:124-126 | extracting from an extracted expression gives it back unchanged |
| `Extractor.ExtractedHasNoBacktick` | app.py:122-126 | no extracted expression contains a backtick |
| `Extractor.Unfence` | app.py:122 | removing backticks takes a triple-backtick fence off both ends of a body without backticks |
| `Extractor.CleanFenced` | app.py:122 | cleaning a Markdown block fenced and tagged `python` leaves the expression between two newlines |
| `Extractor.ExtractOwnLine` | app.py:125-126 | an expression `df[...]` alone on its line is exactly what the search returns |
| `Extractor.FencedExpression` | app.py:122-126 | a reply fenced as a `python` code block yields exactly the fenced one-line expression |
| `Formatter.Format` | app.py:141-151 | an empty data frame gives the fixed no-records message; any other frame, Series or list gives the wrapped table; any other value gives its text with no newline left, unchanged when it had none |
| `Formatter.ScalarRoundTrip` | app.py:150-151 | turning `<br>` back into newlines recovers a scalar's text whenever that text had no `<br>`: the rendering loses nothing else |
| `Upload.NormalizeName` | app.py:74 | a normalised column name is the lower-cased infix left once the whitespace at both ends is removed; it is stripped and lower-case |
| `Upload.NormalizeNameIdempotent` | app.py:74 | normalising a normalised name changes nothing |
| `Upload.NormalizedColumns` | app.py:74 | each column keeps its dtype and cells, and its name is normalised |
| `Upload.FirstContaining` | app.py:34 | `next(..., None)` returns the first name containing the token, or nothing when no name contains it |
| `Upload.IndexOfName` | app.py:78 | `df[name]` finds the first column with that name, or none exists |
| `Upload.SetColumn` | app.py:78 | assigning `df[name]` replaces the column of that name, or appends the column at the end; afterwards `df[name]` finds the new column, and every column of another name is where it was |
| `Upload.TitleLength` | app.py:78 | the title alternation matches exactly when some alternative matches the front, ignoring case; its length is that of the first matching alternative in pattern order, plus a following `.` where the alternative allows one |
| `Upload.TitleSpan` | app.py:78 | an alternative takes its letters, and one more character exactly when it allows `\.?` and a `.` follows |
| `Upload.FirstTitle` | app.py:78 | the alternatives are tried in order and the first whose letters match is found, or none matches |
| `Upload.StripHonorific` | app.py:78 | a cell without a title is unchanged; otherwise exactly the title and the whitespace run after it are removed: the result is the suffix after them, starting with no whitespace |
| `Upload.CleanEmpName` | app.py:78 | the clean name is the cell without its title, normalised like a column name; it is stripped and lower-case, and equals the normalised cell when there is no title |
| `Upload.MrsLosesOnlyMr` | app.py:78 | for any cell starting with `Mrs`, the alternative `mr` wins and only `Mr` is removed |
| `Upload.DoctorTitle` | app.py:78 | a leading `Dr.` and one following space are removed, and nothing else |
| `Upload.OneTitleRemoved` | app.py:78 | only one title is removed: `Dr. Mr. Smith` becomes `mr. smith` |
| `Upload.KeepAmountChars` | app.py:83 | exactly the digits and dots are kept, each as often as in the input and in the input's order |
| `Upload.KeepAmountCharsIdempotent` | app.py:83 | cleaning an amount twice is the same as cleaning it once |
| `Upload.Coerced` | app.py:81-83 | only a text column with an amount name changes; it keeps its name and length, each cell becomes the cleaned cell, and its dtype is what `to_numeric` gives for the cleaned cells |
| `Upload.WithCleanNames` | app.py:76-78 | without a column whose name contains `name`, the columns are unchanged; otherwise `df['clean_emp_name']` afterwards is a text column holding the clean name of each cell of the first such column, every column of another name stays where it was, and at most one column is added; an existing `clean_emp_name` column is replaced at its own index |
| `Upload.WithCleanNamesColumns` | app.py:76-78 | every column after the step is an old one or named `clean_emp_name`, and every old column of another name is still there |
| `Upload.Table.constructor` | app.py:73 | the table holds the columns and row count the reader produced |
| `Upload.Table.NormalizeColumnNames` | app.py:74 | the new columns are the old ones with normalised names; every column still has one cell per row |
| `Upload.Table.AddCleanNameColumn` | app.py:76-78 | the new columns are the old ones with the clean-name column set; every column still has one cell per row |
| `Upload.Table.CoerceAmountColumns` | app.py:80-83 | the loop leaves each column coerced as `Coerced` says, in place, and the row count unchanged |
| `Upload.NormalizedColumnsFixed` | app.py:74 | every name left by the normalisation step is already normalised |
| `Upload.UploadedNamesNormalized` | app.py:74-83 | after the whole upload step every column name is stripped and lower-case, the added column included |
| `Upload.ColumnInfoLines` | app.py:29-30 | the schema text splits on newlines into exactly one line per column, in column order, when no name or dtype contains a newline |
| `Upload.Summary` | app.py:33-39 | the shape line comes first; the department line follows exactly when some lower-cased name contains `dept`, and names the first such column; the salary line comes last exactly when the first column whose lower-cased name contains `sal` is numeric, and names that column |
| `Upload.DepartmentLine` | app.py:34-36 | a department line exists exactly when some lower-cased name contains `dept`, and names the first such column |
| `Upload.SalaryLine` | app.py:38-40 | a salary line exists exactly when the first column whose lower-cased name contains `sal` is numeric, and names that column |
| `Upload.ShapeSentenceInjective` | app.py:33 | the shape sentence determines the row and column counts: different shapes give different sentences |
| `Chat.RetryPreambleCarriesSchema` | app.py:107 | the retry preamble contains the whole schema text |
| `Chat.RetryMessageCarries` | app.py:108-114 | the retry message contains the question, the failing code and the error text |
| `Chat.MessageOf` | app.py:105-114 | the first attempt sends the bare question; the retry message contains the question, the failing code and the error text |
| `Chat.Try` | app.py:116-128 | an attempt fails without code exactly when the translator raises; otherwise the cleaned reply is what extraction works on: no match leaves the cleaned reply and the `NoneType` error, a match is the code evaluated, the attempt succeeds exactly when the evaluator returns a value, and otherwise reports the evaluator's exception text |
| `Chat.TryBlock` | app.py:116-135 | the imperative `try` block computes `Try`, and `generated_code` is bound in it exactly when the translator replied |
| `Chat.Run` | app.py:97-139 | accepted code has no backtick and evaluated to the value; the outcome escapes exactly when the first translator call raises |
| `Chat.PromptsSent` | app.py:102-114 | one or two prompts are sent, the first always the system prompt with the bare question |
| `Chat.RetryLoop` | app.py:97-139 | the `while` loop with its counter, feedback and unbound-code case ends with the outcome of `Run` after sending exactly `PromptsSent` |
| `Chat.AtMostTwoAttempts` | app.py:102-138 | a second prompt is sent exactly when the first attempt failed with code |
| `Chat.RetryCarriesFirstFailure` | app.py:103-135 | the retry prompt carries the schema, the question, the first attempt's code and its error text |
| `Chat.FirstSuccessWins` | app.py:128-130 | when the first attempt evaluates, its code and value are accepted and no retry is sent |
| `Chat.RetrySuccessAccepted` | app.py:116-135 | when the first attempt fails with code and the retry evaluates, the retry's code and value are accepted after two prompts |
| `Chat.ExhaustedAfterTwoFailures` | app.py:132-139 | a failure answer comes only after two prompts, neither of which succeeded, and reports the second one's error |
| `Chat.FailureAnswerShowsError` | app.py:139 | the failure answer states the count 2 and contains the error text, and different errors give different answers |
| `Chat.ReplyFor` | app.py:139-158 | an accepted value is formatted; an exhausted loop answers with the failure answer for its last error; only an escaped loop gives an internal error |
| `Chat.Record` | app.py:153-156 | the history grows by exactly the user question and then the accepted code; earlier entries are unchanged; user/assistant alternation is kept |
| `Chat.Session.constructor` | app.py:62 | a fresh session holds no schema and no history |
| `Chat.Session.Clear` | app.py:62 | clearing removes the schema and the history |
| `Chat.App.constructor` | app.py:27 | no data frame is loaded at start |
| `Chat.App.Upload` | app.py:73-86 | the shared frame becomes the uploaded table after all upload steps, with normalised names; the session holds its schema text and an empty history |
| `Chat.App.Chat` | app.py:91-158 | with no frame the question is refused; with no schema an internal error is returned; otherwise the reply is that of `Run`'s outcome, and the history changes exactly when the code was accepted, by `Record` |

## Left out

- HTTP plumbing is not modelled. This covers routes, `jsonify`, status codes, the file-part and empty-filename checks (app.py:68-70), the success message (line 87) and the upload's generic exception handler (lines 88-89). `App.Upload` starts from a file the reader accepted.
- `read_csv`/`read_excel` are pandas' own. Their output is given to `App.Upload` as columns and a row count.
- The Cohere client is an oracle. A missing API key (lines 19-25) makes `co.chat` raise inside the `try`, which is one of the translator failures the oracle can return.
- `eval` is an oracle returning a value or an exception text. The model does not capture an expression that mutates the shared data frame while evaluating.
- `to_html`, `str(value)`, `to_numeric` and `dtype` inference are pandas' and Python's own. They appear as given HTML/text or as the `toNumeric` parameter. The cells of a coerced amount column hold the cleaned text that `to_numeric` parses, not floats.
- `Upload.Summary` names the department and salary columns but not the most frequent department or the salary minimum and maximum. Those need `mode()` and floating-point `,.2f` formatting (lines 36, 40).
- On a department column with no values, `mode()` is empty and `[0]` raises `KeyError: 0` (line 36). This happens inside `get_system_prompt`, called at line 104 in the first pass of the `while` body, before the translator is called. It escapes as HTTP 500 and is not modelled.
- The formatter's calls into pandas and Python can raise after the loop (lines 146-151). `pd.DataFrame(result)` fails on a list mixing dicts and other values, and `to_html` or `str` can fail too. Such an exception escapes as HTTP 500, and the history is not appended. `Format` is total and does not model these failures.
- The prose of the system prompt (lines 44-58) is not modelled. `SystemPrompt` carries the values it embeds: the schema text, the summary facts and the question. The retry prompt's text is modelled: `RetryPreamble` gives its preamble and `MessageOf` the message sent with either prompt. `ShapeSentence` is the text of the summary's `Shape` line, the only summary line whose text is modelled.
- The shared global `df` is a single field of `App`. Interleaving of concurrent requests is not modelled.
- `Text.Lower`: maps only ASCII letters. Python's `lower()` and the `case=False` match of line 78 also fold non-ASCII letters.
- `Upload.KeepAmountChars`: keeps only ASCII digits. Python's `\d` also matches other Unicode decimal digits.
- `Upload.IndexOfName`: takes the first of several equal column names. pandas returns all of them as a sub-table when normalisation creates duplicates.
- A request whose JSON has no `question` (so it is `None`, line 95) is not modelled. The question is a string.
- An exception raised by an upload step after the shared frame was replaced (line 73) is not modelled. It would leave that frame half-processed.
