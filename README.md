# A verified model of the course's data-handling scripts

This project models three small pieces of the course repository and proves
what they promise.

- **The JSONL log flattener** (`jsonl_to_csv.py`).
  - `read_jsonl` turns one JSON object per non-blank line into a `LogRow`. The first bad line stops the read and names its physical line number.
  - `_flatten` writes nested `meta` objects into one dictionary under dotted keys.
  - `to_flat_dicts` builds one flat row per log row.
  - `write_csv` computes the CSV header: `ts`, `user_id`, `event`, then the sorted union of every other key. It also picks each row's cells.
- **User-record loading and filtering** (`io_utils.py`, `filtering.py`).
  - `read_json_records` checks that the document is a list of objects.
  - `parse_user_records` validates each item and normalises it into a `UserRecord`.
  - `filter_records` keeps records by a score threshold and an optional country.
  - `to_csv_rows` projects records to rows with the keys `id`, `country` and `score`.
- **The environment check** (`verify_env.py`): the individual checks, the report with its hints, and the exit status of `main`.

Library behaviour the code relies on is modelled in two shared modules:

- `PyText`: ASCII `strip`, `upper`, `startswith`, `ljust`, string `<`, and integer printing.
- `PyJson`: the values `json.loads` returns, `str()`, `repr`, `json.dumps`, `type(v).__name__`, and `dict.get`.

Calls the code makes into the outside world become parameters:

- `json.loads` is a parameter `parse` (or a parsed value).
- `float()` of a number's text or of a string is `toFloat`.
- The environment is a value holding:
  - the version;
  - `VIRTUAL_ENV`;
  - the result of `shutil.which("pip")`;
  - a function standing for running pip;
  - a function standing for `__import__`.

The loops of the source are methods with loops. Each is proved against a specification function or predicate:

- `ReadSpec` for `read_jsonl`;
- `Leaves` with `Apply` for `_flatten`;
- `FlatRowOf` for `to_flat_dicts`;
- `IsHeader` for the header;
- `ParseItem` for `parse_user_records`;
- `Kept` for `filter_records`;
- `Footer` for `_print`.

The lemmas beside each specification state the properties the scripts promise.

`_flatten` writes into a dictionary it shares with its caller. It is a method of the class `FlatDict`, whose field `entries` is that dictionary.

## Model

| member | source | states |
|---|---|---|
| `PyText.StripSpec` | sections/02-python-for-ai/code/jsonl_to_csv.py:61-62 | `strip()` leaves a slice of the text that neither starts nor ends with whitespace, and removes only whitespace before and after it; it is empty exactly when the text is all whitespace |
| `PyText.StripIdempotent` | sections/02-python-for-ai/code/python_crash_course/io_utils.py:52 | stripping twice gives what stripping once gives |
| `PyText.TrimUpperIdempotent` | sections/02-python-for-ai/code/python_crash_course/io_utils.py:53 | `strip().upper()` applied twice gives what it gives once |
| `PyText.LessTransitive` | sections/02-python-for-ai/code/jsonl_to_csv.py:106 | the string order `sorted` uses is transitive |
| `PyText.LessTotal` | sections/02-python-for-ai/code/jsonl_to_csv.py:106 | of two different strings one is smaller |
| `PyText.LJust` | scripts/verify_env.py:84 | `ljust(w)` keeps the text, pads it to at least `w` characters, and pads with spaces only |
| `PyJson.LookupFindsLastEntry` | sections/02-python-for-ai/code/jsonl_to_csv.py:73-76 | `dict.get` finds nothing exactly when no entry has the key; otherwise it finds the value of the last entry with that key |
| `PyJson.PyStr` | sections/02-python-for-ai/code/jsonl_to_csv.py:73-75 | `str()` is empty only for the empty string; a string is itself; `None` prints as `None` |
| `JsonlToCsv.RequiredField` | sections/02-python-for-ai/code/jsonl_to_csv.py:73-75 | a required field is empty exactly when the key is absent or holds the empty string; `null` gives `"None"` |
| `JsonlToCsv.MetaOf` | sections/02-python-for-ai/code/jsonl_to_csv.py:76-77 | a missing `meta` gives no entries; an object `meta` gives its entries; any other `meta` gives the one entry `("meta", value)` |
| `JsonlToCsv.ClassifyOrder` | sections/02-python-for-ai/code/jsonl_to_csv.py:61-82 | a line is skipped exactly when it is all whitespace; it is bad JSON, then not an object, then missing fields, in that order; a good line's row holds the three fields and the meta |
| `JsonlToCsv.ReadJsonl` | sections/02-python-for-ai/code/jsonl_to_csv.py:54-84 | on success no line fails and the rows are one per non-blank line, in order; on failure the error is that of the first failing line, numbered 1-based and counting blank lines |
| `JsonlToCsv.SuccessIffNoLineFails` | sections/02-python-for-ai/code/jsonl_to_csv.py:65-80 | a read succeeds exactly when no line fails |
| `JsonlToCsv.FailingLinesAreNonBlank` | sections/02-python-for-ai/code/jsonl_to_csv.py:61-63 | some line fails exactly when some non-blank line fails |
| `JsonlToCsv.NonBlankIdempotent` | sections/02-python-for-ai/code/jsonl_to_csv.py:61-63 | dropping blank lines twice drops nothing more |
| `JsonlToCsv.NonBlankElements` | sections/02-python-for-ai/code/jsonl_to_csv.py:61-63 | the kept lines are exactly the input lines that are not all whitespace |
| `JsonlToCsv.BlankLinesIgnored` | sections/02-python-for-ai/code/jsonl_to_csv.py:60-63 | reading the lines without their blank ones succeeds exactly when reading the lines does, and gives the same rows |
| `JsonlToCsv.BlankLinesAreCounted` | sections/02-python-for-ai/code/jsonl_to_csv.py:60-68 | a bad third line after two blank ones is reported as line 3 |
| `JsonlToCsv.RowsMatchUnique` | sections/02-python-for-ai/code/jsonl_to_csv.py:82 | the rows of a sequence of good lines are determined by those lines |
| `JsonlToCsv.LeavesAreScalars` | sections/02-python-for-ai/code/jsonl_to_csv.py:40-51 | `_flatten` never stores a list or an object as a value |
| `JsonlToCsv.LeavesUnderPrefix` | sections/02-python-for-ai/code/jsonl_to_csv.py:40-43 | under a non-empty prefix, every key written is the prefix or lies below `prefix.`; under an object it always lies below `prefix.` |
| `JsonlToCsv.ApplyEffect` | sections/02-python-for-ai/code/jsonl_to_csv.py:48-51 | a sequence of writes adds exactly the written keys, keeps every entry no write touches, and leaves each key holding its old value or a value written to it |
| `JsonlToCsv.ApplyLastWriteWins` | sections/02-python-for-ai/code/jsonl_to_csv.py:48-51 | the last write to a key wins: a write that no later write to the same key follows determines that key's value |
| `JsonlToCsv.FlatDict.Flatten` | sections/02-python-for-ai/code/jsonl_to_csv.py:37-51 | the dictionary afterwards is the dictionary before with the writes of `Leaves(prefix, obj)` applied in order |
| `JsonlToCsv.ToFlatDicts` | sections/02-python-for-ai/code/jsonl_to_csv.py:87-95 | one flat row per log row, in order, each the fixed three fields with the flattened `meta` written over them |
| `JsonlToCsv.FlatRowShape` | sections/02-python-for-ai/code/jsonl_to_csv.py:91-92 | every flat row holds `ts`, `user_id` and `event` with the row's values; every other key starts with `meta.`; no value is a list or object; the keys are the three plus the written ones |
| `JsonlToCsv.NonObjectMetaBecomesMetaMeta` | sections/02-python-for-ai/code/jsonl_to_csv.py:77 | a `meta` that is not an object becomes the single column `meta.meta`; a list there is stored as its JSON text |
| `JsonlToCsv.NestedMetaFlattens` | sections/02-python-for-ai/code/jsonl_to_csv.py:40-51 | `meta` `{"a": {"b": 1}}` gives the columns `ts`, `user_id`, `event` and `meta.a.b`, the last holding 1, and no column `meta.a` |
| `JsonlToCsv.ListMetaIsJsonText` | sections/02-python-for-ai/code/jsonl_to_csv.py:47-49 | `meta` `{"tags": ["x", "y"]}` gives the single extra column `meta.tags`, holding the text `["x", "y"]` |
| `JsonlToCsv.Least` | sections/02-python-for-ai/code/jsonl_to_csv.py:106 | the element chosen is in the set and smaller than every other element |
| `JsonlToCsv.SortedKeys` | sections/02-python-for-ai/code/jsonl_to_csv.py:106 | `sorted` of a set is strictly ascending and has exactly the set's elements |
| `JsonlToCsv.Fieldnames` | sections/02-python-for-ai/code/jsonl_to_csv.py:102-106 | the header is `ts, user_id, event` followed by the strictly ascending list of exactly the other keys some row has |
| `JsonlToCsv.AscendingUnique` | sections/02-python-for-ai/code/jsonl_to_csv.py:106 | two strictly ascending lists with the same elements are equal |
| `JsonlToCsv.HeaderIgnoresRowOrder` | sections/02-python-for-ai/code/jsonl_to_csv.py:102-106 | rows that are permutations of each other give the same header |
| `JsonlToCsv.HeaderCoversRows` | sections/02-python-for-ai/code/jsonl_to_csv.py:102-111 | every key of every row is a column, and no column appears twice |
| `JsonlToCsv.Cells` | sections/02-python-for-ai/code/jsonl_to_csv.py:109-111 | a row is written as one cell per column |
| `JsonlToCsv.CellsKeepRow` | sections/02-python-for-ai/code/jsonl_to_csv.py:109-111 | each value of a row lands in its own column; columns the row lacks are empty |
| `IoUtils.ReadJsonRecords` | sections/02-python-for-ai/code/python_crash_course/io_utils.py:25-39 | invalid JSON and a non-list top level are rejected, the latter naming its type; success happens exactly when every item is an object and returns the list unchanged; otherwise the first non-object item is named by index and type |
| `IoUtils.ParseUserRecords` | sections/02-python-for-ai/code/python_crash_course/io_utils.py:42-69 | success happens exactly when every item parses, giving one record per item in order; otherwise the error is that of the first failing item |
| `IoUtils.ParsedRecordIsNormal` | sections/02-python-for-ai/code/python_crash_course/io_utils.py:52-67 | a record holds the trimmed `id`, the trimmed upper-cased `country` and the float of `score`; both texts are non-empty and already normal, and the score lies in [0, 1] |
| `IoUtils.ItemErrorOrder` | sections/02-python-for-ai/code/python_crash_course/io_utils.py:51-65 | each error is raised exactly when every earlier check passes and its own fails. The order is: an item that is not an object; then a missing `id`, `country`, `score`; then a score `float()` rejects; then an empty id, an empty country, and a score outside [0, 1]. Each error names the item's index |
| `IoUtils.ScoreBounds` | sections/02-python-for-ai/code/python_crash_course/io_utils.py:51-65 | an object item that has all three keys, whose score converts, and whose id and country are non-empty after normalising, is accepted exactly when its score lies in [0, 1], both ends included |
| `IoUtils.ScoreOneAccepted` | sections/02-python-for-ai/code/python_crash_course/io_utils.py:52-67 | the item `{"id": "u1", "country": "se", "score": 1}` gives the record `("u1", "SE", 1.0)`: the upper end of the range is accepted and the country is upper-cased |
| `Filtering.CountryNorm` | sections/02-python-for-ai/code/python_crash_course/filtering.py:18 | no country and the empty string give no filter value; any other country gives its trimmed, upper-cased text, which is empty exactly when the country is all whitespace |
| `Filtering.FilterRecords` | sections/02-python-for-ai/code/python_crash_course/filtering.py:9-28 | fails exactly when `min_score` lies outside [0, 1], whatever the records; otherwise it returns the records `Keep` accepts, in order |
| `Filtering.KeptIsSubsequence` | sections/02-python-for-ai/code/python_crash_course/filtering.py:20-28 | the output is an order-preserving subsequence of the input |
| `Filtering.KeptCounts` | sections/02-python-for-ai/code/python_crash_course/filtering.py:20-26 | each record occurs in the output as often as in the input when it is accepted, and never otherwise |
| `Filtering.KeptIsSound` | sections/02-python-for-ai/code/python_crash_course/filtering.py:18-25 | every kept record has a score at least `min_score` and, when a non-blank country was given, that country trimmed and upper-cased |
| `Filtering.KeptIsComplete` | sections/02-python-for-ai/code/python_crash_course/filtering.py:18-26 | every input record that meets the threshold, and the normalised country when a non-blank one was given, is kept |
| `Filtering.BlankCountryIsNoFilter` | sections/02-python-for-ai/code/python_crash_course/filtering.py:18-24 | no country, or one that is blank after trimming, filters on the score alone |
| `Filtering.ToCsvRows` | sections/02-python-for-ai/code/python_crash_course/filtering.py:31-36 | one row per record, in order, with exactly the keys `id`, `country`, `score`; `id` holds `user_id`, and the record reads back whole from its row |
| `VerifyEnv.PythonVersionOk` | scripts/verify_env.py:34-41 | named `Python version`; passes exactly when `(major, minor) >= (min_major, min_minor)` |
| `VerifyEnv.VersionExamples` | scripts/verify_env.py:34-41 | against 3.10, 4.0 passes and 3.9 fails, and a version at least as new as a passing one passes |
| `VerifyEnv.VenvHint` | scripts/verify_env.py:55-64 | named `venv active`; passes exactly when `VIRTUAL_ENV` is set and non-empty, with that value as detail; otherwise the fixed explanation |
| `VerifyEnv.PipOk` | scripts/verify_env.py:44-52 | no pip on the path gives the named failure; otherwise `pip runnable` passes exactly when pip exits with 0, with its stripped output as detail; a failing run always has a non-empty detail |
| `VerifyEnv.ImportResult` | scripts/verify_env.py:70-74 | named `import <module>`; passes exactly when the import succeeded; a raised exception gives the detail `<type>: <message>` |
| `VerifyEnv.ImportsOk` | scripts/verify_env.py:67-75 | one result per module, in order, named `import <module>`, passing exactly when the import succeeded; a failure's detail is the exception type and message |
| `VerifyEnv.MaxNameLength` | scripts/verify_env.py:79 | the width is the length of the longest name, or 0 when there are no results |
| `VerifyEnv.StatusLineShape` | scripts/verify_env.py:83-84 | a status line starts with `[OK] ` or `[FAIL] ` as the check passed or not, then the name, and ends with the detail |
| `VerifyEnv.NamesAligned` | scripts/verify_env.py:79-84 | padding to that width puts every detail of the same status at the same column |
| `VerifyEnv.Failures` | scripts/verify_env.py:81 | the failures are exactly the results that did not pass |
| `VerifyEnv.FooterHints` | scripts/verify_env.py:86-96 | the Python hint appears exactly when the `Python version` check failed, the pip hint exactly when an `import ` check failed, the venv hint exactly when `venv active` failed; `Next steps:` heads the hints of any failure; the all-passed message appears exactly when nothing failed |
| `VerifyEnv.Report` | scripts/verify_env.py:78-97 | one status line per result, names padded to the widest, then the footer; the exit status is 1 exactly when some result failed, else 0 (also for no results) |
| `VerifyEnv.RunChecks` | scripts/verify_env.py:105-119 | the checks run in the order version (against 3.10), venv, pip, then one import per core module: numpy, pandas, sklearn, fastapi, pydantic, pytest |
| `VerifyEnv.AllChecksPass` | scripts/verify_env.py:105-119 | no check fails exactly when the version, venv, pip and every core import pass |
| `VerifyEnv.VerifyEnvironment` | scripts/verify_env.py:100-121 | the exit status is 0 exactly when every check passes; a failing venv check alone makes it 1 and brings the activation hint; a too-old Python brings its hint |

## Left out

- File I/O in every script: existence checks, opening, reading lines, `mkdir` and writing the CSV bytes. The models take the lines, or the parsed document, as inputs.
- `json.loads` is the parameter `parse` (or a parsed value); its grammar, and its error messages, are not modelled.
- A `json.loads` failure that is a plain `ValueError` rather than a `JSONDecodeError` escapes `except json.JSONDecodeError` in both `read_jsonl` and `read_json_records` (for example, an integer literal longer than Python's digit limit for converting text to an integer). The model has no escaping outcome: `Parse` has only `Invalid` and `Valid`, so every parse failure becomes `InvalidJson` or `InvalidDocument`.
- `PyJson.Dumps` and `PyJson.Repr`: model the text of `json.dumps` and of `repr`, but prove only that it is never empty. That text reaches the output as `str()` of a list- or object-valued field, and as the cell of a list under `meta`. Known differences from Python:
  - `Repr` of a string always uses single quotes, while Python switches to double quotes when the string holds a single quote.
  - `Repr` of a string escapes nothing, while Python escapes backslashes, quotes, newlines and other non-printable characters (`str(["a\n"])` is `['a\\n']`).
  - `Repr` and `Dumps` of an object with a repeated key print every entry, while Python's dict prints only the last value of that key.
  - `Dumps` of a number prints the number's Python text, so an infinity or NaN prints as `inf` or `nan`, while `json.dumps` writes `Infinity` and `NaN`.
- `float()` of a number's text or of a string is the parameter `toFloat`. NaN and infinities (`float("nan")` fails the range check in Python) are not modelled; scores are `real`.
- `IoUtils.FloatOf`: `float()` of a JSON integer too large for a float raises `OverflowError`, which `parse_user_records` does not catch, so it escapes the function. The model has no escaping outcome: such a score is either a real or an `InvalidTypes` error.
- Whitespace and case are modelled for the ASCII range only; Unicode spaces and case mapping are not.
- `csv.DictWriter` quoting, line endings and byte output: the model stops at the header and at each row's cells.
- A JSON object with a repeated key: the model keeps every entry in order, and `dict.get` finds the last one, as Python's dict does. `_flatten`, though, walks every entry, where Python's dict would hold only the last value of that key.
- The key order inside the dictionaries `to_csv_rows` builds: rows are maps, and the CSV column order comes from the header.
- Argument parsing, logging setup, `main`'s printing of the interpreter path and OS, and all `print` output, which become returned lines in the report.
- `subprocess`, `shutil.which`, `__import__`, `platform` and `sys`: these are inputs in the environment value. Exceptions that `__import__` raises are an outcome with a type name and message.
- `VerifyEnv.ImportOutcome` has no case for a `BaseException` that is not an `Exception`, such as a module calling `sys.exit` while being imported. Python lets one escape the `except Exception` of `_imports_ok` and stop the script; the model has only success or a caught exception.
- `VerifyEnv.PipOk`: running pip is the total function `runPip`, so the model always has a return code and output. In Python, the process call can raise: `OSError` (for example a `pip` whose interpreter no longer exists), or `UnicodeDecodeError` on output that is not text. `_pip_ok` catches neither, so `main` stops before printing the report or returning a status. The call has no timeout either, so a pip that hangs makes the script hang. `VerifyEnv.VerifyEnvironment`'s exit status covers only runs where pip returns.
- `json_to_csv.py`, the command that chains the record functions, is only command-line plumbing. The pandas, numpy, sklearn and FastAPI demonstrations are not part of this model.
