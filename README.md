# BlogAutoWriter in Dafny

A verified model of the core of BlogAutoWriter, a command-line tool that turns
a list of article titles into Markdown articles by calling a chat-completion
service. The model covers five pieces:

- `Utils` (`utils.dfy`): title validation, slug and filename derivation, and
  the Markdown sanitiser (`src/utils.py`).
- `Config` (`config.dfy`): the nested configuration store. It holds the
  built-in defaults, the recursive merge of a user configuration onto them,
  dotted-path `get` and `set`, and the prompt template (`src/config.py`).
- `Client` (`client.dfy`): the OpenAI client. It covers the constructor's key
  check and defaults, the retry loop with exponential back-off, and the
  connection probe (`src/openai_client.py`).
- `Generator` (`generator.dfy`): the batch run. It probes the connection, runs
  one task per title, and collects results keyed by title
  (`src/generator.py`).
- `Cli` (`cli.dfy`): the interactive front end. It reads titles line by line,
  asks for a yes/no confirmation, and counts the results (`src/cli.py`).

`Wrappers` (`wrappers.dfy`) holds the `Option` and `Result` types.

Outside effects become inputs:

- The chat-completion service is an oracle: the reply to attempt `k` of task
  `i` is `provider(i, k)`, and the probe's reply is a separate value.
- Standard input is a sequence of lines that ends in end-of-file.
- The clock is a date given to each task.
- The output directory is a map from path to file contents. Write failures
  are an oracle on the path.
- Unicode NFKC normalisation, `str.format` and `str()` of a configuration
  value are function parameters.
- `time.sleep` is not called. The model records the list of delays it would
  have been given.

Python's whitespace (`str.isspace`, `str.strip()`, the regular-expression
class `\s`) is modelled exactly, as the table of characters CPython treats as
whitespace. Case mapping (`upper()`, `lower()`) is modelled for ASCII only.
The only comparisons it feeds are against `END`, `y`, `yes`, `n` and `no`, and
no non-ASCII character upper-cases or lower-cases to one of those letters.

Some consequences of the code that the proofs make precise:

- The sanitiser is not idempotent. `Utils.SanitizeIsNotIdempotent` proves
  this for ` #c`: one pass gives `#c` and a second pass gives `# c`.
- The slug keeps `,` and `!`, so "Hello, World!" and "Hello World" get
  the different slugs `Hello,_World!` and `Hello_World` when normalisation
  leaves both titles unchanged (`Utils.PunctuationChangesSlug`). Under the
  same condition, titles that differ by a character of `< > : " / \ | ? *` inside them get the same
  slug (`Utils.ForbiddenCharDoesNotChangeSlug`), and so one output file on a
  given day (`Utils.FilenameCollision`). Normalisation runs before those
  characters are removed, so a removed character can stop two characters
  around it from combining, and then the slugs differ.
- A heading line loses only its first `#` to the rewrite, so `##c` becomes
  `# #c` (`Utils.FixDoubleHash`). The `elif` at src/utils.py:74 can never run.
- `re.sub(r'\n{3,}', '\n\n', …)` replaces three or more newlines, which is two
  or more blank lines, with one blank line (`Utils.CollapseBlankRunsRun`).
- The generator does not check that titles are distinct. With duplicate
  titles the entry of the task that completes last wins, and the model keeps
  that behaviour (`Generator.Collect`).

## Model

| member | source | states |
|---|---|---|
| Utils.ValidateTitle | src/utils.py:10-27 | Defines `validate_title`. It reports `Empty` exactly for blank titles and accepts only titles of at most 200 characters; the full case split is `Utils.ValidateTitleCases` |
| Utils.FirstInvalidChar | src/utils.py:22-25 | `None` exactly when no listed forbidden character from position `i` on occurs in the title; otherwise it is the first listed character, in list order, that occurs |
| Utils.ValidateTitleCases | src/utils.py:10-27 | The error is `Empty` iff the title is blank; `TooLong` iff it is not blank and longer than 200; an `InvalidChar` names the first character of `< > : " \| ? * \ /`, in list order, that occurs; no error iff none of these applies |
| Utils.Strip | src/utils.py:32 | `strip()` returns a contiguous piece of its input with no whitespace at either end. Everything before it and everything after it is whitespace, and it is empty exactly when the input is all whitespace |
| Utils.RemoveForbidden | src/utils.py:36 | The result is never longer than the input, contains none of `< > : " / \ \| ? *`, and text without them is left unchanged |
| Utils.CollapseSpace | src/utils.py:38 | The result is never longer than the input, has no whitespace (U+3000 included), adds no forbidden character, and leaves text without whitespace unchanged |
| Utils.CollapseSpaceConcat | src/utils.py:38 | A text that does not end in whitespace is collapsed independently of what follows it |
| Utils.CollapseSpaceRun | src/utils.py:38 | Each maximal run of whitespace, of any length, becomes exactly one `_`, and the text on either side is collapsed on its own. With `CollapseSpace` leaving text without whitespace unchanged, this fixes the result for every input |
| Utils.SlugBody | src/utils.py:32-40 | Defines the slug before the length cut. It is never longer than the normalised stripped title, and a normalised title that is already slug text (slug characters only, no `_` at either end) passes through unchanged |
| Utils.SlugBodyShape | src/utils.py:32-40 | Before the length cut, the slug has only slug characters and neither starts nor ends with `_` |
| Utils.CutSlug | src/utils.py:42-46 | The cut slug is 1 to 50 characters long, a prefix of the body, equal to the body when that is 1 to 50 long, and `untitled` when the body is empty. For a body over 50, everything from the end of the slug to position 50 is `_`, and the slug does not end in `_`, so exactly the trailing `_` of the first 50 characters are removed |
| Utils.CreateTitleSlug | src/utils.py:30-48 | The slug is never empty, is at most 50 characters, has no forbidden character and no whitespace, and neither starts nor ends with `_`, for any normalisation |
| Utils.SlugTextIsFixed | src/utils.py:30-48 | Text already shaped like a slug, and left alone by normalisation, is its own slug |
| Utils.SlugIsIdempotent | src/utils.py:30-48 | Taking the slug of a slug changes nothing when normalisation leaves the slug alone |
| Utils.WordsJoinedByUnderscore | src/utils.py:30-48 | Two words of slug text around one space, at most 50 characters in all and left alone by normalisation, give the words joined by `_` |
| Utils.PunctuationChangesSlug | src/utils.py:30-48 | When normalisation leaves them unchanged, "Hello, World!" gives `Hello,_World!` and "Hello World" gives `Hello_World`: different slugs |
| Utils.ForbiddenCharDoesNotChangeSlug | src/utils.py:30-48 | When normalisation leaves both titles unchanged and neither has whitespace at either end, inserting a forbidden character inside a title does not change its slug |
| Utils.FormatDate | src/utils.py:56 | `%Y%m%d` prints exactly eight decimal digits |
| Utils.DateRoundTrip | src/utils.py:56 | Reading the eight digits back gives the date |
| Utils.CreateOutputFilename | src/utils.py:51-59 | The filename is 13 to 62 characters: eight digits that read back as the date, `_`, the title's slug, `.md` |
| Utils.FilenameCollision | src/utils.py:51-59 | On one date, two titles get the same filename iff they get the same slug |
| Utils.Split | src/utils.py:64 | `split('\n')` returns at least one piece, and no piece contains the separator |
| Utils.JoinSplit | src/utils.py:64-79 | Joining the pieces of a split gives back the original text |
| Utils.FixLine | src/utils.py:67-77 | A rewritten line starts with `#` iff the right-stripped line does, and then starts with `# ` or `## `. A `#` line that has neither prefix becomes `# ` plus its stripped remainder. A line starting with `# ` or `## ` after the right-strip, and a line not starting with `#`, is only right-stripped. The `##` branch is dead code |
| Utils.FixDoubleHash | src/utils.py:70-74 | A `##c` line becomes `# #c`, not `## c`: the `elif` for `##` is never reached |
| Utils.CollapseBlankRuns | src/utils.py:81 | Defines `re.sub(r'\n{3,}', '\n\n', s)`. It keeps the first character and never makes the text longer |
| Utils.CollapseBlankRunsConcat | src/utils.py:81 | A text that does not end in a newline is collapsed independently of what follows it |
| Utils.CollapseBlankRunsRun | src/utils.py:81 | Each maximal run of newlines becomes exactly `\n\n` when it has three or more, and is kept when it has one or two; the text on either side is collapsed on its own |
| Utils.CollapseLeavesNoTriple | src/utils.py:81 | After `re.sub(r'\n{3,}', '\n\n', …)` no three newlines in a row are left |
| Utils.CollapseKeepsShortRuns | src/utils.py:81 | Text with no run of three newlines is left unchanged by the collapse |
| Utils.Sanitized | src/utils.py:62-83 | Defines what `sanitize_markdown_content` returns: the lines rewritten by `FixLine`, joined, blank runs collapsed, stripped. The result has no whitespace at either end |
| Utils.SanitizedShape | src/utils.py:62-83 | The sanitised document has no whitespace at either end and no run of three newlines |
| Utils.SanitizeMarkdownContent | src/utils.py:62-83 | The loop rewrites every line with `FixLine`. The result is the sanitised document: no whitespace at either end and no triple newline |
| Utils.SanitizedIndentedHash | src/utils.py:70-83 | An indented ` #c` line is not rewritten, and the final strip leaves `#c` |
| Utils.SanitizedBareHash | src/utils.py:70-73 | A `#c` line becomes `# c` |
| Utils.SanitizeIsNotIdempotent | src/utils.py:70-83 | Sanitising twice differs from sanitising once on ` #c`, because the heading rule runs before the final strip |
| Config.DefaultsWhenEmpty | src/config.py:12-32 | Merging an empty user configuration gives exactly the defaults: `max_threads` 10, `retry_attempts` 3, `retry_delay` 1.0 |
| Config.Merged | src/config.py:61-73 | The merged dictionary's keys are the default keys plus the custom keys |
| Config.MergedEntries | src/config.py:65-70 | A default key the custom side lacks keeps its default value. Where both sides hold dictionaries the merge recurses. Everywhere else the custom value wins, scalar over dictionary or dictionary over scalar |
| Config.MergeEmpty | src/config.py:61-73 | Merging nothing onto a dictionary gives it back |
| Config.MergeSelf | src/config.py:65-70 | Merging a dictionary onto itself gives it back |
| Config.MergeTwice | src/config.py:65-70 | Merging the same custom configuration a second time changes nothing |
| Config.MergedKeepsCustomLeaves | src/config.py:65-70 | Every non-dictionary value the custom configuration holds at a path is what the merged configuration holds there |
| Config.DeepMerge | src/config.py:65-70 | The loop over the custom entries, recursing where both sides hold dictionaries, computes `Merged(default, custom)` |
| Config.MergeWithDefaults | src/config.py:61-73 | The result is the user configuration merged onto the defaults. It keeps every user key, and every default key the user omits keeps its default value |
| Config.ConfigManager.constructor | src/config.py:34-51 | The configuration is the defaults when there is no file, and the file's dictionary merged onto the defaults otherwise |
| Config.Lookup | src/config.py:77-86 | Defines the dotted-path walk of `get`. The empty path gives the value itself, and a step succeeds only through a dictionary holding the key |
| Config.LookupConcat | src/config.py:80-84 | Following a path in two legs is the same as following it at once |
| Config.ConfigManager.Get | src/config.py:75-86 | `get(k, d)` returns the value reached by the dotted path when every step is a dictionary holding the key, and `d` otherwise |
| Config.ConfigManager.Set | src/config.py:88-98 | `set` succeeds exactly when `Insert` does, and the new configuration is the insertion. On failure (`TypeError`) the configuration is unchanged |
| Config.Insert | src/config.py:88-98 | Defines what `set` leaves behind, or its `TypeError`. On success the top level gains only the path's first key, every other top-level entry is unchanged, and a one-key path always succeeds |
| Config.InsertFailsIff | src/config.py:93-98 | `set` fails exactly when some proper prefix of the path reaches an existing value that is not a dictionary |
| Config.GetAfterSet | src/config.py:88-98 | After a successful `set(k, v)`, `get(k)` returns `v` |
| Config.SetLeavesOtherPaths | src/config.py:93-98 | Every path that parts from the written one before either ends reads the same value as before |
| Config.SetCreatesOnlyMissing | src/config.py:93-96 | Every proper prefix of the path reaches a dictionary holding the next key. A dictionary is created only where a key was missing, and it holds only the next key |
| Config.Fill | src/config.py:111-126 | The template text contains `{title}` and each of the five rendered settings |
| Config.PromptTemplate | src/config.py:108-126 | A template exists iff style, stance, audience, sections and words-per-section are all present. It then contains `{title}` and the rendering of each of the five |
| Config.DefaultTemplateExists | src/config.py:12-21 | The default configuration holds all five prompt settings, so it has a template |
| Config.ConfigManager.Template | src/config.py:108-126 | The manager's template, when it exists, contains `{title}` |
| Client.Section | src/openai_client.py:22-26 | `config.get(name, {})` reads an absent section as empty and fails on a present non-dictionary |
| Client.NewClient | src/openai_client.py:13-26 | The constructor fails with the missing-key message when `OPENAI_API_KEY` is absent or empty. Otherwise it succeeds iff both sections are readable, and each setting is the configured value or its default (`o4-mini`, 0.7, 1000, 3, 1.0) |
| Client.DefaultClient | src/openai_client.py:22-26 | The client built from the defaults has model `o4-mini`, three attempts and a 1.0 base delay |
| Client.ContentOf | src/openai_client.py:51-58 | A non-empty reply content is returned stripped. An empty or absent content gives `No response generated.` |
| Client.RetryCount | src/openai_client.py:32 | The number of attempts `range(1, max_retries + 1)` runs from the setting: an integer is used as it is, `True` counts as 1 and `False` as 0, and any other value (a float, text, `None`, a dictionary) raises `TypeError` |
| Client.DelayBase | src/openai_client.py:67-68 | The number `retry_delay * 2 ** (attempt - 1)` scales: an integer or float as it is, `True` as 1.0 and `False` as 0.0. Any other value makes the multiplication or the sleep raise `TypeError` |
| Client.Delay | src/openai_client.py:67 | The sleep after the first failed attempt is the base delay itself, and a sleep is negative exactly when the base is, and zero exactly when the base is |
| Client.DelayDoubles | src/openai_client.py:67 | Each sleep is twice the one before |
| Client.SumOfSchedule | src/openai_client.py:66-69 | The sleeps `Delay(b, k)` up to `Delay(b, m - 1)` add up to `Delay(b, m) - Delay(b, k)` |
| Client.AttemptsFrom | src/openai_client.py:32-72 | The attempts from `attempt` to `n` make between `attempt` and `n` calls |
| Client.Generate | src/openai_client.py:28-74 | Defines the outcome, number of calls and sleeps of `generate_article`. A failing `prompt.format` raises before any call, and content is returned only after at least one call |
| Client.GenerateArticle | src/openai_client.py:28-74 | The loop's outcome, number of service calls and list of sleeps are those of `Generate` |
| Client.FirstAnswerWins | src/openai_client.py:32-58 | The first attempt that does not raise ends the loop. Its content is returned and it is the last call; empty replies are not retried |
| Client.NoneIffAllFailed | src/openai_client.py:60-74 | With a non-negative delay, the loop never raises. From any attempt on, the result is `None` iff every remaining attempt raised, and then all `n` calls were made |
| Client.GenerateNoneIffAllFailed | src/openai_client.py:32-74 | When `max_retries` is an integer or a boolean and `retry_delay` is a non-negative number, `generate_article` returns `None` iff each of its `max_retries` attempts raised, including zero attempts. Without the delay condition the result can differ: see `Client.SleepFailureRaises` |
| Client.SleepFailureRaises | src/openai_client.py:60-69 | When the first attempt raises and `max_retries` is at least 2, a negative `retry_delay` makes the first `time.sleep` raise `ValueError` after one call with no sleep recorded, and a `retry_delay` that is neither a number nor a boolean raises `TypeError` there |
| Client.BackoffSchedule | src/openai_client.py:66-72 | When every attempt raises, the sleep after attempt `k < n` is `retry_delay * 2 ** (k - 1)` and there is no sleep after the last |
| Client.BackoffTotal | src/openai_client.py:66-69 | When every attempt raises, the sleeps add up to `retry_delay * (2 ** (n - 1) - 2 ** (attempt - 1))` from attempt `attempt` on |
| Client.AllFailedWaits | src/openai_client.py:32-74 | When all `n` attempts raise, there are `n` calls and `n - 1` sleeps, as in the schedule, totalling `retry_delay * (2 ** (n - 1) - 1)`, and the result is `None` |
| Client.DefaultRetries | src/openai_client.py:60-72 | With three attempts and a 1.0 delay all failing, there are three calls, sleeps of 1.0 and 2.0 (3.0 in all), and the result is `None` |
| Client.BlankReplies | src/openai_client.py:51-58 | Whitespace-only content is returned as the empty string. Empty or absent content gives `No response generated.` |
| Client.NoAttempts | src/openai_client.py:32-74 | With `max_retries` of zero or less, no call is made and the result is `None` |
| Client.CallsBounded | src/openai_client.py:32 | At most `max_retries` calls are made, and when any call is made there are fewer sleeps than calls |
| Client.DelaysBeforeCalls | src/openai_client.py:66-72 | Counted from attempt `k`, a run that ends after `calls` calls slept `calls - k` times: once between each two calls, never after the last |
| Client.TestConnection | src/openai_client.py:76-98 | The probe succeeds iff it did not raise and its first choice has non-empty content |
| Client.ProbeReplyIsArticle | src/openai_client.py:51-55 | A reply that passes the probe, given as the first attempt, is returned at once, stripped, after one call |
| Generator.NewGenerator | src/generator.py:18-22 | The generator is built iff the client is. `max_threads` is the configured value, or 10 |
| Generator.Shape | src/generator.py:91-120 | Every result is either success with no error and a path, or failure with an error and no path. An exception becomes a failure with its message and no write. Absent or empty content becomes the fixed no-valid-response failure and no write. With usable content, the file is touched iff `open` succeeded, and it then holds a prefix of the sanitised content. The task succeeds iff the write completed. The file then holds all of the sanitised content, with no triple newline, and otherwise the error is the write's |
| Generator.SingleArticle | src/generator.py:82-120 | Defines task `i`'s result and write. The result is well shaped, the only path it can touch is its own output path, and a failing `format` gives a failure with that message and no write |
| Generator.GenerateSingleArticle | src/generator.py:82-120 | The task's result and the new files are those of `SingleArticle`: at most one path touched |
| Generator.WriteArticle | src/generator.py:104-113 | A failed `open` changes nothing. A failed write leaves the path holding the first `kept` characters of the text. A completed write stores the whole text and reports success with the path |
| Generator.Tasks | src/generator.py:33-42 | There is one task per title, with task `i` running `_generate_single_article` on title `i` |
| Generator.PoolError | src/generator.py:33 | `ThreadPoolExecutor(max_workers=v)` raises nothing exactly when `v` is `None`, a positive number or `True`. Text and dictionaries raise `TypeError` |
| Generator.GenerateArticles | src/generator.py:24-80 | A failed probe raises before any task runs and leaves the files alone. So does a template with missing settings, and so does a `max_threads` the thread pool rejects. Otherwise the results and files are those of running every task in the completion order |
| Generator.RunTasks | src/generator.py:44-78 | The loop over completed tasks fills the results map and the files as `Collect` and `Apply` do for that order |
| Generator.Collect | src/generator.py:44-49 | Defines the results dictionary after the tasks complete in `order`. It never has more entries than completed tasks |
| Generator.Apply | src/generator.py:101-107 | Defines the files after the tasks write in `order`. No existing file disappears |
| Generator.CollectKeys | src/generator.py:44-49 | The results map's keys are the titles of the tasks that have completed |
| Generator.CollectEntry | src/generator.py:44-49 | With distinct titles, each title's entry is its own task's result whatever the completion order |
| Generator.ResultsIndependentOfOrder | src/generator.py:44-49 | With distinct titles, any two completion orders give the same results map |
| Generator.TitlesAreKeys | src/generator.py:34-49 | After every task completes, the key set equals the set of input titles |
| Generator.CollectCoversTitles | src/generator.py:34-72 | The key set equals the set of titles, and every entry is well shaped. With distinct titles, each title maps to its own task's result |
| Generator.CollectShapes | src/generator.py:47-72 | Every entry of the results map is well shaped when every task result is |
| Generator.ApplyWrites | src/generator.py:101-112 | The files afterwards are the files before plus one per written path. Each written path holds the content of a task that wrote it, and untouched paths keep their contents |
| Generator.WrittenPathsIndependentOfOrder | src/generator.py:101-112 | The set of existing paths afterwards does not depend on the completion order |
| Generator.BlankContentFails | src/generator.py:92-99 | Whitespace-only content is stripped to empty and recorded as the fixed no-valid-response failure, writing nothing |
| Generator.AbsentContentIsWritten | src/generator.py:92-112 | Absent content is not a failure: when the write completes, the placeholder text is sanitised and written |
| Cli.StopsAt | src/cli.py:67-98 | Defines where reading stops. Reading past the input always stops, and an empty line that does not stop is the first line or follows a non-empty one |
| Cli.Kept | src/cli.py:84-94 | Defines the titles kept from the stripped lines. There are never more titles than lines, and every kept title passes `validate_title` |
| Cli.StrippedLineAt | src/cli.py:69 | Line `j` of the lines the loop works on is input line `j` with `strip()` applied |
| Cli.CollectTitles | src/cli.py:56-104 | Reading stops at the first end-of-file, `END` line or second consecutive empty line. The titles are the distinct valid stripped lines before it, in order |
| Cli.ReadTitleLine | src/cli.py:68-95 | One pass of the loop stops iff the line stops the reading, and otherwise moves the state on by that line |
| Cli.StopsIff | src/cli.py:72-80 | A line stops the reading iff it is a second empty line in a row or an `END` line |
| Cli.Advance | src/cli.py:72-94 | A line that does not stop the reading resets the empty counter unless it is empty, and appends it to the titles and the seen set iff it is a valid unseen title |
| Cli.KeptStep | src/cli.py:84-94 | A line is added to the titles iff it is valid and not already kept |
| Cli.SeenStep | src/cli.py:89-94 | The seen set holds exactly the titles kept so far |
| Cli.KeptDistinct | src/cli.py:89-94 | No title is kept twice |
| Cli.KeptAreValidLines | src/cli.py:84-94 | The kept titles are exactly the input lines that pass `validate_title` |
| Cli.KeptInInputOrder | src/cli.py:93 | Kept titles are input lines and appear in the order of their first occurrence |
| Cli.Classify | src/cli.py:115-125 | End-of-file cancels. `y`/`yes` proceeds and `n`/`no`/empty cancels, ignoring case and surrounding whitespace. Anything else asks again |
| Cli.ConfirmGeneration | src/cli.py:113-125 | Every answer before the deciding one asks again. It proceeds iff the deciding answer is a yes |
| Cli.EmptyAnswerCancels | src/cli.py:118-120 | A blank answer cancels |
| Cli.GenerateArticlesReport | src/cli.py:127-159 | A raised error ends with exit status 1. Otherwise `successful` counts the entries with `success` true, `failed` counts the rest, and they add up to the number of entries |
| Cli.SplitCounts | src/cli.py:135-149 | The successful and failed titles partition the results |

## Left out

- Logging is not modelled: `src/logger.py` and every logger call.
- `blog_auto_writer.py` (argument parsing and exit codes) is not part of this model.
- Reading and writing the configuration file (`_load_config`, `_create_default_config`, `save`) is file I/O through JSON and YAML libraries. The constructor receives the parsed file contents instead. A file that fails to load, and a file whose top level is not a dictionary, are not modelled.
- Config.Value has no lists. A user file read by `json.load` or `yaml.safe_load` can hold them; in the source they behave like any other non-dictionary value (`get` through one returns the default, `set` through one raises `TypeError`), and the model does not represent them.
- Config.MergeWithDefaults: `DEFAULT_CONFIG.copy()` is shallow, so the source's merge also mutates the nested default dictionaries, and a later configuration sees them changed. The model gives dictionaries value semantics and does not capture this aliasing.
- The chat-completion request, `os.getenv`, `str.format` and `str()` of a configuration value are oracles or parameters. `time.sleep` is replaced by the recorded list of delays; the argument of a sleep that raises is not recorded.
- Client.RangeTypeError, Client.SleepTypeError, Client.NoAttributeGet, Generator.MissingSetting, Generator.MaxWorkersValueError and Generator.MaxWorkersTypeError are fixed labels. They stand for the message of a `TypeError`, `AttributeError`, `KeyError` or `ValueError`. The source records `str(e)`, whose text differs: it has no class-name prefix and names the offending type or key. `Generator.MissingSetting` stands for both the `KeyError` of a missing prompt setting and the `TypeError` of indexing a setting that is not a dictionary. Only `Client.SleepValueError` is the exact text.
- Unicode NFKC normalisation is a parameter, so the slug properties hold for every normalisation. Case mapping is ASCII only, which is exact for the comparisons the program makes.
- The thread pool is replaced by an arbitrary completion order, a permutation of the tasks. Concurrency, `max_threads` as a bound on parallel work, and thread safety are not modelled; the pool's check of `max_threads` is (`Generator.PoolError`).
- Generator.RunTasks: the results map is a Dafny `map`, so the completion order of its insertions, which the source's dictionary keeps, is not recorded.
- Generator.RunTasks: the `except` branch at src/generator.py:66-78 is not modelled. `_generate_single_article` catches every exception itself, so that branch only runs when logging raises.
- Real file writes are a map from path to content, and write failures are an oracle on the path that tells a failing `open` from a failing write. Directory creation (`mkdir`, `ensure_directory_exists`, `is_valid_output_directory`) is not modelled.
- `datetime.now()` is replaced by a date given to each task.
- Utils.ValidDate: years are 1000 to 9999, where `%Y` prints four digits. `datetime` also allows years 1 to 999, which `strftime` prints with fewer digits on some platforms; those are not modelled.
- `print`, `input`, `sys.exit`, `KeyboardInterrupt`, `run` and `_display_config` are not modelled. Exit is an outcome value (`Cli.Report`, the `proceed` flag of `Cli.ConfirmGeneration`).
- Generator.RunTasks: one `order` is both the order the files are written and the order the results are stored. In the source, a task writes its file before its future completes, so the two orders can differ. With duplicate titles or colliding slugs, the file's content and the results entry may then come from different tasks, which the model does not capture. The write oracle `Env.write` is a function of the path, so two tasks writing one path always see the same outcome, where in the source they can fail or succeed independently.
- Generator.WriteArticle: a failed write is modelled at character granularity, with the file holding a prefix of the text. Byte-level buffering, and a character only partly encoded, are not modelled.
- Generator.JoinPath: `output_dir / filename` is `dir + "/" + name`, which is what pathlib gives for a normalised directory other than `.` and `/`. Pathlib's handling of those two is not modelled.
- Config.Value: `Num` holds an exact real, so `temperature` and `retry_delay` are exact. Float rounding is not modelled, nor the float overflow of `retry_delay * 2 ** (attempt - 1)` for very large attempt counts. Non-finite numbers (`NaN` and `Infinity` from `json.load`, `.nan` and `.inf` from `yaml.safe_load`) cannot be represented. Neither can the `ValueError` that `time.sleep(nan)` raises, nor the `OverflowError` of `time.sleep` on an infinite or very large delay.
- Strings are sequences of Unicode scalar values. Python strings holding lone surrogates are not modelled.
