# tscli_python in Dafny: page extractors, verdict polling, configuration

`tscli_python` is a command-line client for the TestSys programming-contest
judge. It logs in with saved credentials and scrapes the judge's HTML pages
into records: contests, problems, compilers, submissions, per-test feedback
and the user's profile lines. It uploads solutions and then polls the
submissions page until the verdict is final. It also keeps a contest-local
configuration file, `.tsweb_py.local`, which it finds by walking up from the
working directory.

The repository ships two generations of the client:

- the packaged client under `tsweb_py/`: `tsweb_py/cli.py`,
  `tsweb_py/client/client.py`, `tsweb_py/config/local_config.py` and
  `tsweb_py/utils/terminal.py`;
- the older top-level client: `cli.py`, `config/local_config.py`,
  `config/global_config.py` and `client/models.py`.

This project models the parts of both that decide something:

| module | file | source |
|---|---|---|
| `Models` | `models.dfy` | the five record types of `client/models.py` |
| `Text` | `text.dfy` | the Python `str` operations the client relies on |
| `Scrape` | `scrape.dfy` | the parsed page as rows of stripped cell texts, plus the skip-or-append filter every extractor runs |
| `Client` | `client.dfy` | the extractors of `TestSysClient`, the failure test on the upload response, and the `auto_login` decision |
| `Terminal` | `terminal.dfy` | `format_result_color` and `choose_index` |
| `Global` | `global_config.dfy` | the saved credentials |
| `Paths` | `paths.dfy` | `find_config` over an abstract file system, where `save` writes, and `Path.stem` |
| `RootLocalConfig` | `root_local_config.dfy` | the older client's local configuration: default index, problem list, compiler list |
| `PackageLocalConfig` | `package_local_config.dfy` | the packaged client's local configuration: the default index only |
| `Polling` | `polling.dfy` | the reference definition of how a watch ends, shared by the three polling loops |
| `Cli` | `cli.dfy` | the packaged `submit` and `watch_submission`, with its normal and debug loops |
| `RootCli` | `root_cli.dfy` | the older `submit`, `watch_submission`, `local parse` and `local set-compiler` |

The network, the HTML parser and the terminal become inputs:

- **Pages.** Each page is given as what the parser yields: the rows of a
  table, the options of a `<select>`, or the lines of the page text.
- **File system.** It is a map from paths to what reading each file yields.
- **Polling.** The fetches of the polling loop are a finite sequence of
  submission lists, one per poll.
- **Prompts.** The answers to a prompt are a sequence of attempts.

The loops of the source stay loops:

- The extractors are methods proved equal to filter functions.
- `find_config` walks up the path in a `while` loop.
- `choose_index` is a bounded loop.
- Each polling loop carries its state: the tracked id, `last_result` and
  `no_change_count`.

`RootLocalConfig.LocalConfig` is a class whose fields the commands assign
before `save`.

The verdict loops are proved against one reference definition.
`Polling.Watch` runs a poll-by-poll exit rule over the history of verdicts.
The normal loop's counter is the length of the current run of equal
verdicts, less one. The debug loop's counter is that run length itself.

## Model

| member | source | states |
|---|---|---|
| Models.NewContest | client/models.py:46-53 | A contest built from id, name and status has exactly those three fields and no statement URL. |
| Text.StripMeaning | tsweb_py/client/client.py:199 | A stripped line has no white space at either end, and a line that already has none is left as it is. |
| Text.TrimStartMeaning | tsweb_py/client/client.py:199 | Stripping the front removes a prefix of white space and stops at the first other character. |
| Text.TrimEndMeaning | tsweb_py/client/client.py:199 | Stripping the back removes a suffix of white space and stops at the last other character. |
| Text.RemoveAllAbsent | tsweb_py/client/client.py:201-203 | Removing every occurrence of a text that does not occur leaves the line unchanged. |
| Text.BeforeFirst | tsweb_py/client/client.py:250 | The first piece of `split(":")` is a prefix with no colon in it, followed in the name by a colon unless it is the whole name. |
| Text.ParseDecimal | tsweb_py/utils/terminal.py:30 | `int()` reads back exactly the number that `str()` wrote, negative numbers included. |
| Scrape.DropFirst | tsweb_py/client/client.py:153 | Slicing off the header gives every row but the first, and gives nothing for an empty table. |
| Scrape.CollectStep | tsweb_py/client/client.py:154-165 | Each further row adds its record to the output when the row is kept, and adds nothing otherwise. |
| Scrape.CollectIndexed | tsweb_py/client/client.py:154-165 | The output has one record per kept row. The n-th record is built from the n-th kept row. |
| Scrape.CollectAppend | tsweb_py/client/client.py:154-165 | Filtering two row lists one after the other gives the two outputs concatenated, so the output keeps the input's order. |
| Scrape.CollectMember | tsweb_py/client/client.py:218-226 | A record is in the output exactly when some kept input element yields it. |
| Scrape.KeptIndicesComplete | tsweb_py/client/client.py:154-157 | No row that passes the filter is skipped. |
| Terminal.ColourOf | tsweb_py/utils/terminal.py:61-70 | A verdict gets a colour only when its upper-cased form is in that colour's list. It gets none exactly when it is in no list. |
| Terminal.FormatResultColor | tsweb_py/utils/terminal.py:59-72 | A classified verdict comes back wrapped in its colour's markup. Any other text, the empty verdict included, comes back unchanged. |
| Terminal.ColourClassesDisjoint | tsweb_py/utils/terminal.py:63-70 | No verdict is in two colour lists, so the order of the `elif` tests does not change the result. |
| Terminal.ColourIgnoresCase | tsweb_py/utils/terminal.py:61-70 | Verdicts that differ only in case get the same colour. The markup holds each verdict's own spelling, not its upper-cased form. |
| Terminal.ChooseIndex | tsweb_py/utils/terminal.py:22-43 | The prompt reads at most `max_attempts` answers. An index is returned only when it is in range, and every earlier answer was non-numeric or out of range. Ctrl-C returns `None` at once. Running out of attempts returns `None`. Running out of input before the limit escapes as an error. The answer is always `Choose`'s, the first accepted answer. |
| Terminal.FirstAcceptedChosen | tsweb_py/utils/terminal.py:27-32 | When answer k is in range, within the limit, and every answer before it was rejected, the prompt returns answer k's index. |
| Global.TextField | config/global_config.py:32 | A missing key reads as `""`. A string value reads as itself. |
| Global.SaveLoad | config/global_config.py:29-43 | Loading what `save` wrote gives back the same user and password. |
| Global.MissingKeyLoadsEmpty | config/global_config.py:32 | A file without `user` loads that field as `""` and keeps the stored password. |
| Global.Load | config/global_config.py:26-34 | `load` raises exactly for a file that is not UTF-8 or whose document is not an object. A missing file, an I/O error and invalid JSON load the empty config. |
| Global.NoFileMeansNoCredentials | config/global_config.py:26-34 | A missing file, an unreadable one or one that is not valid JSON loads the empty config, which has no credentials. |
| Paths.Parent | config/local_config.py:75-79 | The parent drops the last path component, and the root is its own parent. |
| Paths.ClosestConfig | config/local_config.py:68-79 | A file found by the upward search is one that exists. |
| Paths.ClosestConfigFound | config/local_config.py:68-79 | The file found is the config file of one directory on the way from the working directory up to the root. No directory closer to the working directory has one. |
| Paths.ClosestConfigAbsent | config/local_config.py:75-77 | The search finds nothing only when no directory from the working directory up to and including the root has a config file. |
| Paths.FindConfig | config/local_config.py:62-79 | The upward walk finds the closest config file. It checks the root before giving up. It terminates because each step moves to a shorter path. The walk in tsweb_py/config/local_config.py is the same. |
| Paths.ClosestWins | config/local_config.py:70-73 | A config file in a directory hides every config file further up. |
| Paths.SaveMissesAncestorConfig | config/local_config.py:47-50 | When the file `load` found lies in a strict ancestor, `save` writes a new file in the working directory instead of updating that one. |
| Paths.LastIndexOfMeaning | tsweb_py/cli.py:251-253 | The suffix search finds the last dot in the file name, and finds none only when the name has no dot. |
| Paths.StemMeaning | tsweb_py/cli.py:251-253 | The default problem id is the file name cut at its last dot. A dot that is the first or the last character is not cut. The stem is the whole name exactly when no dot qualifies. |
| Paths.StemSuffix | tsweb_py/cli.py:251-253 | The stem followed by the suffix is the file name again. |
| RootLocalConfig.ConvertAll | config/local_config.py:39-42 | A list that converts gives exactly one record per item. |
| RootLocalConfig.ConvertAllMeaning | config/local_config.py:39-45 | A list raises `TypeError` exactly when some item does. It converts exactly when every item does, into the converted items in order. |
| RootLocalConfig.Decode | config/local_config.py:35-45 | Only a file that is not UTF-8 escapes `load` as an exception. Whatever document a UTF-8 file holds, every failure becomes `None`. |
| RootLocalConfig.Load | config/local_config.py:24-45 | `load()` with no path reads the closest config file and decodes it. It gives `None` when no file is found. |
| RootLocalConfig.ConvertEncoded | config/local_config.py:39-57 | Converting back a list of encoded records gives the same records, in the same order. |
| RootLocalConfig.ProblemRoundTrip | config/local_config.py:39-57 | `Problem(**asdict(p))` rebuilds `p`. |
| RootLocalConfig.CompilerRoundTrip | config/local_config.py:39-57 | `Compiler(**asdict(c))` rebuilds `c`. |
| RootLocalConfig.EncodeDecode | config/local_config.py:35-57 | Decoding the dictionary `save` dumps gives back the default index and equal problem and compiler lists. |
| RootLocalConfig.MissingKeysDefault | config/local_config.py:19-43 | Keys left out of the file take their dataclass defaults: index 0 and empty lists. |
| RootLocalConfig.UnknownKeyGivesNone | config/local_config.py:43-45 | A key that is not a field of the dataclass makes `load` give `None`. |
| RootLocalConfig.BadRecordGivesNone | config/local_config.py:40-45 | A stored problem with a missing or extra field makes `load` give `None`, whatever the other items. |
| RootLocalConfig.SaveThenLoad | config/local_config.py:24-60 | `save()` then `load()` from the same directory gives back the saved fields, whatever other files exist. |
| RootLocalConfig.LocalConfig.constructor | config/local_config.py:19-21 | A fresh config has index 0 and no problems or compilers. |
| RootLocalConfig.LocalConfig.FromData | config/local_config.py:43 | The object `load` builds holds exactly the fields it read. |
| RootLocalConfig.LocalConfig.GetCompiler | config/local_config.py:81-85 | A compiler is returned exactly when the default index is in range, and it is the compiler at that index. |
| RootLocalConfig.LocalConfig.Save | config/local_config.py:47-60 | `save()` replaces the file in the working directory with the encoded fields, and `load()` from there reads back the object's fields. |
| PackageLocalConfig.Decode | tsweb_py/config/local_config.py:31-36 | A found file gives `None` exactly when it cannot be read or is not valid JSON. `load` raises exactly when the file is not UTF-8 or its document is not an object. |
| PackageLocalConfig.Load | tsweb_py/config/local_config.py:19-36 | `load()` reads the closest config file and decodes it. It gives `None` when there is none. |
| PackageLocalConfig.Save | tsweb_py/config/local_config.py:38-46 | `save()` writes the default index to the working directory's file and leaves every other file unchanged. |
| PackageLocalConfig.EncodeDecode | tsweb_py/config/local_config.py:34-43 | Decoding what `save` dumps gives the same index. |
| PackageLocalConfig.SaveThenLoad | tsweb_py/config/local_config.py:19-46 | `save()` then `load()` from the same directory gives the same index. |
| PackageLocalConfig.MissingKeyDefaultsToZero | tsweb_py/config/local_config.py:34 | A file without `default_lang` loads as index 0, whatever other keys it holds. |
| PackageLocalConfig.NoFileGivesNone | tsweb_py/config/local_config.py:28-29 | With no config file from the working directory up to the root, `load` gives `None`. |
| PackageLocalConfig.ReadsOlderFile | tsweb_py/config/local_config.py:31-34 | A file saved by the older client loads with that file's index. |
| PackageLocalConfig.SaveDropsOlderLists | tsweb_py/config/local_config.py:43 | Saving from the packaged client drops the older client's lists. The older client then reads the file with its index and no problems or compilers. |
| Client.GetAvailableContests | tsweb_py/client/client.py:142-167 | The row loop returns exactly the contests of the reference filter. |
| Client.ContestsFromLaterRows | tsweb_py/client/client.py:149-165 | Without the bordered table there are no contests. Otherwise the first row is skipped. The n-th contest comes from the n-th later row with at least three cells and is built from cells 0, 1 and 2, with no statement URL. |
| Client.GetProblems | tsweb_py/client/client.py:207-228 | The option loop returns exactly the problems of the reference filter. |
| Client.ProblemsAreSelectableOptions | tsweb_py/client/client.py:214-226 | A problem is listed exactly when some option with a value and no non-empty `disabled` attribute yields it. Every id is non-empty. The n-th problem comes from the n-th such option, with id = value and name = text. |
| Client.LanguageOfMeaning | tsweb_py/client/client.py:248-251 | The language is `"Unknown"` for a name without a colon. Otherwise it is the stripped text before the first colon. |
| Client.GetCompilers | tsweb_py/client/client.py:230-261 | The option loop returns exactly the compilers of the reference filter. |
| Client.CompilersFromOptions | tsweb_py/client/client.py:237-258 | The n-th compiler comes from the n-th selectable option, with id = value, name = the full text and the language derived from the text. |
| Client.LanguageIgnoresVersion | tsweb_py/client/client.py:249-251 | Names that agree up to their first colon get the same language. |
| Client.PrefixBeforeColon | tsweb_py/client/client.py:250 | For a prefix without a colon, `split(":")[0]` gives back that prefix. |
| Client.HeaderIndex | tsweb_py/client/client.py:304-311 | The header position found lies inside the table. |
| Client.HeaderIndexIsFirst | tsweb_py/client/client.py:304-311 | The header found is the first row whose first cell is `"ID"`. None is found only when no row is a header. |
| Client.HeaderIndexAt | tsweb_py/client/client.py:304-311 | The first header row of a table is the one the scan stops at. |
| Client.GetAllSubmissions | tsweb_py/client/client.py:291-326 | The row loop with its `header_found` flag returns exactly the submissions of the reference filter. |
| Client.SubmissionsAfterHeader | tsweb_py/client/client.py:302-324 | The n-th submission comes from the n-th row with at least six cells after the first header row. Its fields are id = cell 0, problem = cell 1, time = cell 3, compiler = cell 4 and result = cell 5. |
| Client.NoHeaderNoSubmissions | tsweb_py/client/client.py:304-311 | A table without a header row yields no submissions, however wide its rows. |
| Client.SubmissionsOfRows | tsweb_py/client/client.py:313-324 | From a given row on, the rows with at least six cells are read, position by position, into submissions. |
| Client.RowsBeforeHeaderIgnored | tsweb_py/client/client.py:304-311 | Rows before the header never contribute, even when they are wide enough. |
| Client.GetFeedback | tsweb_py/client/client.py:328-355 | The row loop returns exactly the tests of the reference filter. |
| Client.FeedbackUsesFiveCells | tsweb_py/client/client.py:339-353 | A table of at most a header yields no tests. Otherwise the n-th test comes from the n-th later row with at least five cells, built from cells 0 to 4. |
| Client.GetUserInfo | tsweb_py/client/client.py:190-205 | The line loop builds exactly the dictionary of the reference fold. |
| Client.ApplyLineEffect | tsweb_py/client/client.py:198-203 | A line sets a key exactly when it matches that key's prefix test, and sets it to the line with the prefix text removed. Keys it does not match keep their value. |
| Client.OnlyTwoKeys | tsweb_py/client/client.py:197-205 | The dictionary has no keys other than `name` and `contest`. |
| Client.KeyPresentIffSet | tsweb_py/client/client.py:197-205 | A key is present exactly when some line matches its prefix test. |
| Client.LastLineWins | tsweb_py/client/client.py:198-203 | A key's value comes from the last line that matches its test. |
| Client.GreetingIsStripped | tsweb_py/client/client.py:199 | A greeting whose team text does not end in white space survives stripping. |
| Client.GreetingIsNotNotice | tsweb_py/client/client.py:200 | `"You are "` followed by a team not starting with `currently` passes the name test. |
| Client.NoticeAfterGreeting | tsweb_py/client/client.py:200 | A line starting with `"You are "` fails the name test only when the team text starts with `currently`. |
| Client.GreetingRemoved | tsweb_py/client/client.py:201 | Removing `"You are "` from the greeting leaves the team, when the team text holds no further occurrence. |
| Client.NameOfGreeting | tsweb_py/client/client.py:200-201 | For a team that does not end in white space, does not start with `currently` and holds no `"You are "`, the greeting line is a name line and its name is the team. |
| Client.UploadSucceededMeaning | tsweb_py/client/client.py:276-289 | An upload that raised has failed. A response has failed exactly when its lower-cased text contains `error`. |
| Client.TitleErrorIsError | tsweb_py/client/client.py:278 | A response with the `<TITLE>Error</TITLE>` marker already fails the case-insensitive `error` test. |
| Client.AutoLogin | tsweb_py/client/client.py:123-140 | Without credentials no request is made. With credentials, the saved session is reused exactly when the main page was fetched and lacks the not-logged-in notice. Otherwise it logs in again and the answer is that login's outcome. |
| Client.NoticeNeverSetsName | tsweb_py/client/client.py:200 | A line that starts with the not-logged-in notice never sets `name`, whatever follows on that line. |
| Client.NoConfigFileNoLogin | tsweb_py/client/client.py:125-126 | With no readable credentials file, `auto_login` stops before any request. |
| Polling.PendingMeansYellow | tsweb_py/utils/terminal.py:69-72 | A verdict is pending for the loops exactly when it is empty or is coloured yellow. |
| Polling.FindTrackedIsFirstMatch | tsweb_py/cli.py:390 | The lookup gives the first submission with the tracked id, and gives nothing only when no submission has it. |
| Polling.RunLengthSnoc | tsweb_py/cli.py:397-401 | Appending a verdict equal to the last one lengthens the current run by one. Any other verdict starts a run of one. |
| Polling.RunLengthMeaning | tsweb_py/cli.py:397-401 | The current run is the longest block of verdicts equal to the last one. |
| Polling.RunCharacterized | tsweb_py/cli.py:385-412 | A run ends when a fetch misses the id or when the exit rule holds on the poll's verdict history. No earlier poll met it. A run that never ends consumes every fetch. |
| Polling.PollExit | tsweb_py/cli.py:403-410 | A verdict outside the pending list ends the watch as final on that poll. A `NO` with the counter at 20 ends it as stale. Any other verdict moves on to the next fetch. |
| Polling.WatchResumed | tsweb_py/cli.py:390-394 | A fetch that misses the tracked id ends the watch as not found on that poll. |
| Polling.WatchCharacterized | tsweb_py/cli.py:337-412 | Every poll before the last found the submission and met no exit. The watch ends as final exactly on a non-pending verdict, as stale only on a pending `NO` meeting the stale rule, and as not found when a fetch misses the id. |
| Polling.StaleRunLength | tsweb_py/cli.py:376-410 | The stale exit needs 21 equal `NO` verdicts in the normal loop and 20 in the debug loop. The run is exactly that long when the exit first fires. |
| Polling.NormalStopIsDebugStop | tsweb_py/cli.py:370-410 | A poll that ends the normal loop ends the debug loop too. |
| Polling.DebugRunsNoLonger | tsweb_py/cli.py:337-412 | From any poll on, the debug loop polls no longer than the normal loop, and ends the same way unless it leaves on a pending verdict. |
| Polling.DebugEndsNoLater | tsweb_py/cli.py:337-412 | On the same fetches, the debug watch ends no later than the normal one, and identically unless it ends stale. |
| Polling.DebugKeptIsNormalKept | tsweb_py/cli.py:370-410 | Polls that kept the debug loop going kept the normal loop going too. |
| Polling.DebugStaleIsNoNormalStop | tsweb_py/cli.py:355-410 | Where the debug loop first goes stale, the run of `NO` is exactly 20 long and the normal loop does not stop. |
| Polling.DebugStaleLeavesNormalPolling | tsweb_py/cli.py:355-410 | When the debug watch goes stale on poll n, the normal watch is still polling after poll n, on a run of 20 equal `NO` verdicts. |
| Polling.StaleOnRepeat | tsweb_py/cli.py:397-410 | One more equal `NO` after a run of 20 meets the normal loop's stale exit. |
| Polling.NormalStaleOnNextPoll | tsweb_py/cli.py:397-410 | After a run of 20 equal `NO` verdicts, a repeat on the next fetch ends the normal loop as stale on that poll. |
| Polling.OnePollApart | tsweb_py/cli.py:355-410 | When the debug watch goes stale on poll n and fetch n+1 shows the same verdict, the normal watch goes stale on poll n+1. |
| Polling.StuckPendingNeverStops | tsweb_py/cli.py:404-410 | A verdict stuck on a pending value never ends the packaged loops unless it is `NO`, and never ends the older loop at all. Every fetch given is polled. |
| Polling.StuckNoStaleAt | tsweb_py/cli.py:376-410 | A verdict stuck on `NO` ends the normal watch as stale on poll 21 and the debug watch on poll 20. |
| Polling.StuckNoEndsStale | cli.py:305-318 | A verdict stuck on `NO` ends both packaged loops as stale, while the older loop polls every fetch given. |
| Polling.EndsAt | tsweb_py/cli.py:370-410 | A poll that found the submission and met an exit, after polls that met none, is the last poll. |
| Polling.FeedbackAfterLastVerdict | tsweb_py/cli.py:414-422 | Feedback is requested exactly when some poll found the submission and ended the loop, and it is requested for the newest submission of the first fetch. |
| Cli.PollNormal | tsweb_py/cli.py:383-412 | The normal loop, with its `last_result` and counter, ends exactly as the reference watch in normal mode. |
| Cli.PollDebug | tsweb_py/cli.py:335-381 | The debug loop, with its reset-then-count counter, ends exactly as the reference watch in debug mode. |
| Cli.NormalCount | tsweb_py/cli.py:397-401 | The normal counter after each poll is the length of the current run of equal verdicts, less one. The first poll counts as a change. |
| Cli.DebugCount | tsweb_py/cli.py:355-365 | The debug counter after each poll is the length of the current run of equal verdicts. |
| Cli.WatchSubmission | tsweb_py/cli.py:298-422 | Watching stops without polling when the first fetch is empty. Otherwise it tracks the newest submission. Feedback is requested for that id only after a final or stale exit. |
| Cli.Submit | tsweb_py/cli.py:241-295 | A global config whose load raises in `TestSysClient()` aborts before any request. Login comes next, with `auto_login` run on that config, and then the compilers are fetched; an empty list aborts. A local config that raises or is outside the model aborts before any upload, exactly when no index was given. The index defaults to the config's index, or 0 without a config. An out-of-range index aborts before any upload. The upload carries the stem-derived problem and the chosen compiler. Watching starts only after an upload that succeeded. |
| Cli.NoConfigMeansFirstCompiler | tsweb_py/cli.py:272-275 | Without a config file, the default compiler index is 0. |
| Cli.DefaultFromOlderConfig | tsweb_py/cli.py:272-275 | A file saved by the older client supplies its index as the default. |
| RootCli.PollLegacy | cli.py:303-318 | The older loop ends exactly as the reference watch with no stale exit. |
| RootCli.LegacyExit | cli.py:314-316 | The older loop's only exit on a found submission is a verdict outside the pending list. |
| RootCli.WatchSubmission | cli.py:290-325 | Watching stops when the first fetch is empty. Otherwise it tracks the newest submission, and feedback is requested for it only after a final verdict. |
| RootCli.LegacyEndsOnlyOnVerdict | cli.py:305-325 | The older watch never ends stale, and feedback is requested exactly when it ends on a final verdict. |
| RootCli.Submit | cli.py:243-287 | No config, or a config that raises, aborts before any request. A problem missing from the config only warns. An out-of-range index aborts before login. The upload carries the chosen problem and the config's compiler. Watching starts only after an upload that succeeded. |
| RootCli.LocalParse | cli.py:148-187 | No config, a config that raises or a failed login aborts. The fetched problems and compilers replace the loaded lists. The file is saved only when neither list is empty, and then reads back as the new lists with the old index. |
| RootCli.LocalSetCompiler | cli.py:190-229 | No config, a config that raises, or no compilers aborts. Otherwise the index saved as `default_lang` is exactly `Choose`'s answer over three attempts, the first in-range answer. Input that ends first is reported as such, Ctrl-C or three rejected answers choose nothing, and nothing is written when no index is chosen. |
| RootCli.SetCompilerThenGet | cli.py:220-225 | After `set-compiler` saves index i, the reloaded config's `get_compiler` gives compiler i. |

## Left out

- HTTP transport is not modelled: the `requests` session, `_get`/`_post`, KOI8-R decoding, `login` and `change_contest`. Their results are inputs: the parsed page, whether logging in succeeded, and the upload response, absent when the upload raised.
- BeautifulSoup parsing is not modelled. A page is given as the rows of the table an extractor looks up, as the options of a `<select>`, or as the page's lines, with cell and option texts already stripped.
- Console output, the rich tables and status spinner, click's argument parsing, `getpass`, `input` and `time.sleep` are not modelled. They are presentation and timing.
- Cookie pickling in config/global_config.py is not modelled. It is opaque binary I/O.
- JSON floats are not modelled. A boolean, `null` or any other value of a type the dataclass field does not declare (a string or an int) loads as `Unmodelled`/`IllTyped`, an outcome the model does not follow further; Python would keep such a value in the object. Everywhere else booleans and `null` are modelled as Python treats them.
- `Global.TextField`: a non-string value under `user` or `password` gives `None`. The model does not follow what Python then does with that value.
- A config file that is not UTF-8 is a body of its own, `BadEncoding`. Its `UnicodeDecodeError` escapes every `load`, as in Python. The packaged `submit` then ends as `ClientRaised` for the global file and `ConfigRaised` for the local one, and the older commands as their `ConfigRaised` outcomes; the traceback itself is not modelled. The older client reads its global file in its own client/client.py, which is not part of this model.
- `Text.ParseInt` accepts ASCII digits only. Python's `int()` also accepts other Unicode decimal digits.
- `Text.Upper` maps ASCII letters and the two non-ASCII characters whose upper case is an ASCII letter. It is only compared with ASCII verdict words, so the other characters are left as they are.
- The older client's package `client/client.py` is not part of this model. The pages it fetches, whether its login succeeded, and the problem and compiler lists it returns are inputs of `RootCli`.
- `get_all_submissions(debug=...)` in tsweb_py/cli.py has no counterpart with that signature. The fetches are given as a sequence of submission lists.
- `download_statements` in tsweb_py/cli.py has no counterpart with that signature, so the command that calls it is not modelled.
- Deadline and profile-date parsing exist in no code shown, so they are not modelled.
- The polling loops have no bound of their own. The model gives them finitely many fetches and reports `Unfinished` when all are used, instead of running forever.
- `Paths.Stem` follows `pathlib` before Python 3.14, where a trailing dot is not a suffix. Python 3.14 treats a trailing dot as a suffix, so the stem of `a.` there is `a`.
- `load(path)` with an explicit path is not modelled. The commands only call `load()` with no path.
- `--watch` is a flag whose default is true. The model takes `watch` as a parameter.
- The packaged client's `set-compiler` is not modelled. Only the older client's command is.
- `Cli.ChosenIndex`: a config whose `load` raises, or is outside the model, gives no index. The command is then left as `ConfigRaised`/`ConfigOutsideModel`, without modelling Python's traceback.
- `Client.Selectable`: an option with a bare `disabled` attribute has the value `""`, which Python treats as false, so the option is kept. This is modelled as written.
- Concurrency and the wall-clock time between polls are not modelled. Polls are a sequence.
