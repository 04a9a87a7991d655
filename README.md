# log_jobs in Dafny

log_jobs fetches the daily job logs of two mainframe systems, SYSA and SYSB. It reduces each log to "time job" lines and writes one sorted report per environment under `Data\`. This project models what it does and proves properties of that model.

The model covers:

- the Julian date token `<suffix><YY><DDD>` (`pad`, `ordinal_date`);
- the names derived from a dataset name (`PR1.T.LOG.DIARIO.SYS<X>.<token>`) and the transfer script (`get_file_from_ftp`);
- the log cleaner with its regular expression (`clean_log_file`);
- the environment filter and stable sort (`filter_sort_and_save`);
- the date picker of the front end: month buttons, the disable rule for day buttons, and the selected date;
- the front end's `get_datasets` and `process_files`.

The front end exists twice, in main.py and in gui.py. The two files hold the same logic, shifted by a few lines, so it is modelled once. The table below cites main.py. The same code sits in gui.py at these lines:

- the month buttons: gui.py:69-81;
- the disable rule: gui.py:55-62;
- `get_datasets`: gui.py:134-147;
- `process_files`: gui.py:149-197. Within it, the cleaned name is at line 168, the environment loops at 171-181, the unknown-system branch at 183-185, and the removals at 187-188.

The project has these modules:

- `Strings`: the Python string operations used (`split`, `join`, `replace`, `strip`, `split()`, `lower`, `in`, `startswith`, `zfill`, `str`).
- `DateCodec`: proleptic Gregorian dates, `(now - date).days`, and the token.
- `Files`: the disk, as a map from path to lines beside a fixed set of existing directories, and the Python exceptions involved. Paths are Windows-style (`\` separates directories) but are compared exactly, character by character, not case-insensitively as Windows does. The class `Workspace` is the disk the methods update.
- `Retrieval`: `get_file_from_ftp`.
- `LogCleaner`: a hand-written matcher for the pattern, proved equal to a declarative description of a leftmost match, and `clean_log_file`.
- `EnvFilter`: `filter_sort_and_save`. There is an insertion sort in place on an array, proved equal to a stable sort function.
- `Calendar`: `CalendarWidget`.
- `Jobs`: `get_datasets` and `process_files`, each as a function of the disk and as the imperative methods that follow the source's loops.
- `JobsProperties`: what a run does with the two dataset names the front end can build.

Two consequences of the code as written are worth stating:

- **Transient files after an error.** `process_files` has no `finally`. So when a dataset stops the run after its file was fetched and cleaned, both files stay on disk. This happens in the unknown-system branch and when the `Data` directory is missing (`JobsProperties.UnknownSystemKeepsFiles`, `JobsProperties.DeliveredWithoutData`). The other stops leave no fetched file. A failed transfer removes the script, the only file it wrote (`JobsProperties.TransferFailedStep`). A name with fewer than six segments raises before anything is written (`Retrieval.FetchRemovesScript`).
- **A failed transfer.**
  - `get_file_from_ftp` returns the bare `False` when the transfer fails.
  - Unpacking that `False` raises.
  - So the message "check if user and password are correct" is never shown. The generic exception message appears instead (`JobsProperties.CheckCredentialsUnreachable`, `JobsProperties.TransferFailedStep`).

## Model

| member | source | states |
|---|---|---|
| Strings.SplitJoin | utils.py:58 | splitting the join of separator-free parts on the separator gives the parts back |
| Strings.ReplaceSeparator | utils.py:60 | replacing one separator by another in a join is the join with the other separator |
| Strings.ContainsIff | main.py:175 | `sub in s` holds exactly when `sub` occurs at some index of `s` |
| Strings.Lower | main.py:175 | the lower-cased string has the same length and is lower-cased character by character |
| Strings.FieldsStrip | utils.py:118 | `s.strip().split()` has the same fields as `s.split()` |
| Strings.TwoFields | utils.py:101 | two non-empty space-free words joined by one space split into exactly those two fields |
| Strings.StripWithNewline | utils.py:121 | stripping a stripped line with a newline added gives the stripped line again |
| DateCodec.Pad | utils.py:6-8 | the result has length max(width, len(str(n))), so it never truncates; for n >= 0 it is all digits and denotes n; for n < 0 it is '-' followed by digits denoting -n |
| DateCodec.ZFillKeepsValue | utils.py:8 | `zfill` on `str(n)` keeps the value and has the length of the wider of the two |
| DateCodec.ZFillSigned | utils.py:8 | `zfill` keeps a leading '-' in front and puts the zeros after it |
| DateCodec.AgeDaysIsDayDifference | utils.py:13 | `(now - date).days` for a date at midnight is the difference of the day numbers, whatever the time of day of `now` |
| DateCodec.DayOfYearRange | utils.py:25 | the day of the year is the days of the earlier months plus the day; it lies in 1..365, or 1..366 in a leap year; 1 January gives 1 and 31 December gives 365 or 366 |
| DateCodec.WholeYear | utils.py:25 | the twelve month lengths add up to the length of the year |
| DateCodec.DaysBeforeNextYear | utils.py:13 | the day count of 1 January of the next year is that of this year plus its length |
| DateCodec.OrdinalMonotone | utils.py:13 | a calendar-earlier date has a smaller day number |
| DateCodec.TokenRoundTrip | utils.py:10-28 | the token has 7 characters, each a digit or one of G, Z, Y. It parses back to (the suffix of the age band, year % 100, day of the year). Its suffix is G0 exactly for an age <= 5, GZ exactly for 6..10 and GY exactly for > 10 |
| DateCodec.TokenLayout | utils.py:27 | a suffix with a 2-digit and a 3-digit field forms a 7-character token that parses back to the three fields |
| DateCodec.TokenTailIgnoresClock | utils.py:23-27 | only the suffix depends on the clock: the year and day fields are the same for every `now` |
| Files.Workspace.OpenForWrite | utils.py:125 | opening for writing fails exactly when the parent directory is missing, and otherwise empties the file |
| Files.Workspace.Remove | main.py:191-192 | `os.remove` deletes an existing file and raises, changing nothing, on a missing one |
| Retrieval.NameDecomposition | utils.py:58-60 | for `PR1.T.LOG.DIARIO.SYS<X>.<tok>` the dot segments are the six parts, the date is `<tok>` and the local file is `SYS<X>_<tok>.txt` |
| Retrieval.SegmentsJoin | utils.py:58 | the six segments joined with '.' give the dataset name |
| Retrieval.WriteScript | utils.py:63-67 | the script file holds exactly the lines `prompt`, `get '<name>' <local>` and `quit`; nothing else on disk changes |
| Retrieval.GetFileFromFtp | utils.py:54-87 | the result and the new disk are those of `Fetch` on the old disk |
| Retrieval.FetchRemovesScript | utils.py:58-87 | a name with fewer than six segments raises IndexError before anything is written. Otherwise the script is gone afterwards. A failed transfer returns False with only the script removed. A delivered transfer always returns (local, date). The local file then holds the delivered lines, unless the local file name is exactly `moveit_commands.txt`; in that case removing the script deletes the download too, and the disk is the old one without that file |
| LogCleaner.SpaceRunUnique | utils.py:91 | the greedy `\s+` ends exactly where the whitespace run ends |
| LogCleaner.TailAtSound | utils.py:91 | after `.HASP373` the matcher takes a non-empty whitespace run and then a maximal non-empty word |
| LogCleaner.TailAtComplete | utils.py:91 | whenever a match with that marker exists, the matcher finds a tail at the same word start |
| LogCleaner.LazyTailSound | utils.py:91 | the lazy `.*?` scan finds a match that satisfies the pattern, with greedy groups |
| LogCleaner.LazyTailLeast | utils.py:91 | the lazy scan stops at a marker no later than that of any match from the same timestamp |
| LogCleaner.SearchFromSound | utils.py:98 | a match found from position i is a real match starting at i or later |
| LogCleaner.SearchFromLeast | utils.py:98 | the search finds a match whenever one starts at i or later, and it is leftmost, with the shortest gap among those starting there |
| LogCleaner.SearchSpec | utils.py:91-98 | `search` succeeds exactly when the line has a match; the match found satisfies the pattern, is the leftmost, and has the shortest gap |
| LogCleaner.CleanLineSpec | utils.py:98-101 | a line produces output exactly when it matches, and the output is group 1, a space, group 2 and a newline |
| LogCleaner.CleanLineShape | utils.py:101 | each written line is an `hh:mm:ss` timestamp of digits and colons (8 characters), a space, a non-empty run of word characters and a newline; stripped, it has exactly those two fields |
| LogCleaner.CleanedLinesAppend | utils.py:96-103 | the output of a concatenation is the concatenation of the outputs, so input order is kept |
| LogCleaner.CleanedLinesLength | utils.py:96-103 | there are never more output lines than input lines |
| LogCleaner.CleanedLinesOrigin | utils.py:96-103 | every output line is the cleaned form of some input line |
| LogCleaner.CleanedLinesTwoFields | utils.py:101-103 | every output line has exactly two whitespace-separated fields |
| LogCleaner.CleanLogFile | utils.py:89-103 | the result and the new disk are those of `CleanStep` on the old disk |
| LogCleaner.WriteCleaned | utils.py:96-103 | after the loop the output file holds the cleaned lines of the input and nothing else changed |
| LogCleaner.CleanStepErrors | utils.py:94 | the call raises exactly when the input is missing (FileNotFoundError for the input) or the output's directory is missing, and then leaves the disk alone |
| LogCleaner.CleanStepFrame | utils.py:94-103 | no file other than the output changes |
| EnvFilter.KeepLineCases | utils.py:118-120 | IndexError exactly when the stripped line has fewer than two fields. KeyError exactly when field 1 does not start with env and env is not one of PR1, QA2, PA1, DE1. Kept exactly when field 1 starts with env or equals env's IDMS alias |
| EnvFilter.SelectSucceeds | utils.py:117-121 | the loop finishes exactly when no line makes the test raise |
| EnvFilter.SelectFirstError | utils.py:117-121 | a raised error is the one from the first line whose test raises |
| EnvFilter.SelectMembers | utils.py:117-121 | the kept lines are exactly the stripped forms of the lines the test keeps, and there are no more of them than input lines |
| EnvFilter.SelectAllKept | utils.py:117-121 | when the test keeps every line, the loop returns all of them in order |
| EnvFilter.SelectLinesErrors | utils.py:118-120 | the only errors are IndexError and a KeyError for an env outside the map |
| EnvFilter.SelectFromTwoFieldLines | utils.py:118-120 | on lines with two fields each, a mapped env never raises and any other env can raise only KeyError |
| EnvFilter.SortPermutes | utils.py:123 | the sort is a permutation |
| EnvFilter.SortSorts | utils.py:123 | the result is ordered by the first 8 characters |
| EnvFilter.SortStable | utils.py:123 | lines with equal keys keep their relative order |
| EnvFilter.SortIdentityOnSorted | utils.py:123 | an already ordered list is left as it is |
| EnvFilter.SortIdempotent | utils.py:123 | sorting twice is sorting once |
| EnvFilter.InsertPosition | utils.py:123 | the insertion step places the new line after every line whose key is not greater |
| EnvFilter.TerminatedRoundTrip | utils.py:121-127 | stripped lines written with `line + '\n'` strip back to exactly the lines written, one for one |
| EnvFilter.ReportSpec | utils.py:116-127 | the report is the kept lines, sorted by key, permuted, order-stable per key, each newline-terminated |
| EnvFilter.KeepLineStrip | utils.py:118 | the test only sees the stripped line |
| EnvFilter.KeptLineRereads | utils.py:121-127 | a kept line, written with its newline, is kept again when read back |
| EnvFilter.ReportIdempotent | utils.py:113-127 | running the filter on its own report gives the same report |
| EnvFilter.SortInPlace | utils.py:123 | `list.sort` in place on an array leaves the stable key sort of the old contents |
| EnvFilter.InsertLast | utils.py:123 | one insertion pass turns the prefix up to i into the sorted insertion of element i and leaves the rest alone |
| EnvFilter.ShiftGreater | utils.py:123 | the shift moves the greater-keyed elements one place up and returns the gap where the line belongs |
| EnvFilter.SelectEnvLines | utils.py:116-121 | the `env_lines` loop returns the kept stripped lines or the first error |
| EnvFilter.SelectAndSort | utils.py:116-123 | a fresh array with the sorted kept lines, or the loop's error |
| EnvFilter.SaveReport | utils.py:125-127 | writing fails exactly when the directory is missing; otherwise the file holds the newline-terminated lines |
| EnvFilter.FilterSortAndSave | utils.py:105-127 | the result and the new disk are those of `FilterStep` on the old disk |
| EnvFilter.FilterStepErrors | utils.py:113-127 | a missing input raises FileNotFoundError. Any error leaves the disk unchanged. Success happens exactly when the input exists, the report can be built and the directory exists, and then only the output changes |
| Calendar.MonthBeforeSpec | main.py:68-72 | `<` keeps the month in 1..12, moves one month back in time, and turns January into December of the year before |
| Calendar.MonthAfterSpec | main.py:75-79 | `>` keeps the month in 1..12, moves one month on, and turns December into January of the year after |
| Calendar.MonthIndexInjective | main.py:68-80 | a (year, month) pair with month in 1..12 is determined by its position in time |
| Calendar.MonthStepsInverse | main.py:68-80 | `>` after `<` and `<` after `>` restore the year and month |
| Calendar.CalendarWidget.constructor | main.py:11-21 | the widget opens on the current year and month with no date selected |
| Calendar.CalendarWidget.PreviousMonth | main.py:68-73 | the fields become the month before, the selection is kept, and the month stays in 1..12 |
| Calendar.CalendarWidget.NextMonth | main.py:75-80 | the fields become the month after, the selection is kept, and the month stays in 1..12 |
| Calendar.CalendarWidget.SelectDate | main.py:82-83 | the clicked date, one `datetime` could build, becomes the selection; the month shown stays and the widget stays valid |
| Calendar.DayDisabledSpec | main.py:59-60 | a day is disabled exactly when its column is Saturday or Sunday (>= 5) or it is a later calendar day than today; today stays enabled at every time of day |
| Calendar.EnabledDayIsPast | main.py:59-63 | a clickable day is a weekday whose age in days is not negative |
| Jobs.LogJobsGui.constructor | main.py:96-101 | the window starts with empty credentials, "both" systems and no date |
| Jobs.LogJobsGui.GetDatasets | main.py:138-151 | the list built is `DatasetsFor` of the stored date and choice |
| Jobs.WriteReports | main.py:176-179 | the environment loop leaves the disk and result of `ReportsStep`, stopping at the first report that raises |
| Jobs.ProcessDataset | main.py:169-192 | one pass goes on or stops with a message as `DatasetStep` says, with the new disk it gives |
| Jobs.ProcessDatasets | main.py:166-198 | the dataset loop ends with the outcome and disk of `DatasetsStep` |
| Jobs.LogJobsGui.ProcessFiles | main.py:153-201 | the outcome and the new disk are those of `Run` on the old disk; the credentials and choice are left alone, and the stored date becomes the picker's |
| JobsProperties.DatasetsForSpec | main.py:138-151 | no date gives []. "sysa" gives the SYSA name only, "sysb" the SYSB name only, "both" [SYSA, SYSB] with one shared token, and any other choice gives [] |
| JobsProperties.LocalNames | utils.py:58-60 | a built name fetches into `SYS<X>_<token>.txt` with date `<token>` |
| JobsProperties.CleanedName | main.py:172 | the cleaned file of `SYS<X>_<token>.txt` is `SYS<X>_<token>_cleaned.txt` |
| JobsProperties.SysaNameMentionsSysa | main.py:175 | a SYSA name contains "sysa" once lower-cased |
| JobsProperties.SysbNameMentionsOnlySysb | main.py:175-181 | a SYSB name contains "sysb" and not "sysa" once lower-cased |
| JobsProperties.EnvsOfDataset | main.py:175-185 | a SYSA name is reported for [PR1, QA2] and a SYSB name for [PA1, DE1] |
| JobsProperties.ReportPathShape | main.py:177-178 | a report path is 18 characters in the `Data` directory: `Data\`, the 5 token characters after the suffix, '_', env and `.txt` |
| JobsProperties.ReportPathsDistinct | main.py:175-185 | the two reports of a dataset go to two different files in `Data`, neither of them a file of the working directory |
| JobsProperties.ReportTextSpec | utils.py:113-127 | on a cleaned log every mapped env succeeds, and its report is the sorted, terminated kept lines |
| JobsProperties.FetchStage | utils.py:58-87 | for a built name the fetch removes the script and leaves the delivered lines in `SYS<X>_<token>.txt`, or returns False |
| JobsProperties.CleanStage | main.py:172-173 | cleaning the fetched file writes its cleaned lines to the cleaned file |
| JobsProperties.ReportsStage | main.py:176-179 | with `Data` present both reports are written in order; without it the first raises FileNotFoundError and nothing is written |
| JobsProperties.DeliveredStages | main.py:169-175 | a delivered built name passes the fetch and the cleaning, and picks its system's environments |
| JobsProperties.RemoveStage | main.py:191-192 | the two removals leave the disk after the dataset |
| JobsProperties.AfterDatasetReports | main.py:175-185 | after a dataset both of its reports hold the report text of their env |
| JobsProperties.AfterDatasetRemoves | main.py:191-192 | after a dataset the script, the fetched file and the cleaned file are gone |
| JobsProperties.AfterDatasetKeeps | main.py:168-192 | a dataset changes no file other than those five |
| JobsProperties.DeliveredWithData | main.py:168-192 | a delivered built name with `Data` present goes on, with the disk after the dataset |
| JobsProperties.DeliveredWithoutData | main.py:173-179 | without `Data` the first report raises, and the fetched and cleaned files stay |
| JobsProperties.TransferFailedStep | main.py:169 | a failed transfer stops with the unpacking error, with only the script removed |
| JobsProperties.CheckCredentialsUnreachable | main.py:194-196 | no dataset, whatever its name, ends with the "check if user and password are correct" message |
| JobsProperties.UnknownSystemKeepsFiles | main.py:187-189 | the lemma assumes a delivered name that mentions neither system, whose local file is not the script file and whose cleaned file's directory exists. Such a name ends with "report to GMN", and the fetched and cleaned files stay. When either assumption fails, the run instead ends in the generic handler with FileNotFoundError |
| JobsProperties.StepOutcome | main.py:168-196 | a built dataset goes on exactly when it is delivered and `Data` exists. A failed transfer stops with the unpacking error. A missing `Data` stops with FileNotFoundError for a path in `Data` |
| JobsProperties.DatasetsCompleted | main.py:168-198 | the loop completes exactly when every dataset is delivered and (when there is any dataset) `Data` exists |
| JobsProperties.DatasetsFailure | main.py:166-201 | the loop ends Completed or with an exception. The exception is the unpacking error, which needs a failed transfer, or FileNotFoundError for a path in `Data`, which needs `Data` missing and the first dataset delivered |
| JobsProperties.RunOutcome | main.py:153-201 | no date and empty credentials return early with the disk unchanged. The credentials and GMN messages never appear. Errors are the unpacking error or a missing `Data`. Success happens exactly when a date and both credentials are given, every dataset is delivered, and `Data` exists if there is any dataset |
| JobsProperties.RunSysaDisk | main.py:153-198 | a successful "sysa" run leaves the disk after the SYSA dataset |
| JobsProperties.RunSysbDisk | main.py:153-198 | a successful "sysb" run leaves the disk after the SYSB dataset |
| JobsProperties.RunBothDisk | main.py:153-198 | a successful "both" run leaves the disk after the SYSA and then the SYSB dataset |
| JobsProperties.RunUnknownChoice | main.py:145-151 | a choice other than the three builds no dataset and completes with the disk unchanged |

## Left out

- The tkinter widgets, layout, styles and `event_generate`. The `messagebox` calls are modelled only as the `Outcome` value naming the message shown.
- The `subprocess.run` call of the transfer client and its command line, including the user, password, IP address and port. The client's behaviour is an input: it delivers the requested lines or fails. `JobsProperties.RunOutcome` and `JobsProperties.DatasetsFailure` rely on this when they name the only possible errors. A client that exits successfully without leaving the local file would make `clean_log_file` raise FileNotFoundError, and the model cannot produce that run.
- Retrieval.FetchRemovesScript: paths are compared case-sensitively, so the collision case covers only a local file named exactly `moveit_commands.txt`. On Windows a name such as `a.b.c.d.MOVEIT.COMMANDS` gives `MOVEIT_COMMANDS.txt`, which is the script file too: the source then deletes the download, while the model keeps it. The names `get_datasets` builds never differ from the script name by case alone, so the results about `process_files` are not affected.
- The console output of `get_file_from_ftp`.
- `datetime.now()`: the clock reading is a parameter `now`.
- Calendar.CalendarWidget.PreviousMonth: stepping the year out of 1..9999 is allowed. The source's `_update_calendar` (main.py:73, 80) would then raise ValueError from `datetime(...)`. The model does not capture that exception, which no real use reaches.
- Calendar.CalendarWidget.NextMonth: the same holds for stepping forward past the year 9999.
- `calendar.monthcalendar` and the grid it draws. The weekday column of a day button is an input of the disable rule.
- The console prompt loops `get_dataset` and `choose_environment` (utils.py:30-52 and 156-179). They are driven by console input.
- The older `filter_sort_and_save` inside the triple-quoted string at utils.py:129-155. It is a string literal and is never run.
- Reading a file yields its lines as stored. Newline translation and encodings are not modelled.
- A file that cannot be opened fails only because it, or its directory, is missing. Permissions and other operating-system errors are not modelled.
- Jobs.ProcessDatasets: the transfer client's behaviour is a function of the dataset name, so the same name always gets the same behaviour within one run.
- DateCodec.TokenRoundTrip: dates are limited to years 1..9999, the range of Python's `datetime`. The parsed year is `year % 100`, so the round trip is exact only up to the century.
- Strings.IsDigit: `\d`, `\w` and `str.lower` are taken over ASCII only. Python also accepts other Unicode digits and letters. Whitespace follows Python's full `str.isspace` set.
- The value `filter_sort_and_save` returns (`None`) is ignored by `process_files`, so it is not modelled.
- The exception message text shown by the generic handler is not modelled. The exception is carried as the `PyError` value instead.
