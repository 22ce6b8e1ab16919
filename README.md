# Offline wheel downloader, modelled in Dafny

`download_wheels.py` reads a requirements file. For every valid requirement,
it runs `pip download` once per download strategy. A strategy is a
combination of platform, Python version, ABI tag, implementation and
binary-only flag, and the list ends with an empty strategy that means "the
running interpreter". The script records the duration of every pip call. On
the first successful attempt of a requirement, it writes an install line to
`installation-instructions.bat` and can copy the wheels into the base
directory. At the end it sorts the requirements into a successful list and a
failed list.

This project models that driver. The modules follow the script's parts:

- `Seqs`: generic facts about sequences that the other modules use.
- `PyStr`: the Python string operations the script relies on: `strip`,
  `split()` with no argument, `startswith`, `replace` of one character and
  `lower`.
- `Names`: the bare name of a requirement, the sanitised subdirectory name,
  the `pyautogui` override and the pip command line.
- `Strategies`: ABI derivation, pruning and the five nested loops that build
  the strategy list. The list is built by an imperative method, which is
  proved equal to a recursive specification.
- `Requirements`: the line filter of `main`. An imperative loop is proved
  equal to a filter-map over the lines.
- `Attempts`: the continuation policy over the outcomes that the strategies
  produce one after another.
- `Driver`: `run_pip_download_deps`, `download_package_with_deps` and the
  requirement loop of `main`, as methods of a class `Downloader`. Its fields
  are the global `pip_call_times`, the instructions written to the batch
  file, the copies made, and a ghost log of every call. The outside world is
  an oracle value, `World`. It says whether `os.makedirs` succeeds for a path
  on a given attempt, and what pip returns for a command line on a given
  attempt: an exit code, or one of the two exceptions the script catches,
  together with the call's duration.

The settings that the script fixes inside `download_package_with_deps` are
a `Config` parameter: the four lists, `DOWNLOAD_ALL_VERSIONS` and
`COPY_FIRST_SET_TO_PARENT_DIRECTORY`. `SCRIPT_CONFIG` holds the values the
script uses. With those values the script makes 43 attempts per requirement.

The script builds the strategy list inside `download_package_with_deps`,
once per requirement, and `TryStrategies` does the same. The list is a pure
function of the configuration, so the attempts would be the same if it were
built once.

## Model

| member | source | states |
|---|---|---|
| PyStr.IsSpace | download_wheels.py:315 | `str.isspace`, the set `strip()` and `split()` cut at: the ASCII controls 9-13 and 28-31, the space, and the Unicode separators U+0085, U+00A0, U+1680, U+2000-U+200A, U+2028, U+2029, U+202F, U+205F and U+3000 |
| PyStr.StartsWith | download_wheels.py:317-320 | `str.startswith`: the string is at least as long as the prefix and begins with it (its partner `StartsWithHead` gives the first character) |
| PyStr.LStrip | download_wheels.py:315 | the result is a suffix of the input, only whitespace is removed, and it does not start with whitespace |
| PyStr.RStrip | download_wheels.py:315 | the result is a prefix of the input, only whitespace is removed, and it does not end with whitespace |
| PyStr.LeadingSpaces | download_wheels.py:315 | the count of leading whitespace characters: all of them are whitespace and the next character, if any, is not |
| PyStr.TrailingStart | download_wheels.py:315 | where the trailing whitespace begins: every character from there on is whitespace and the one before, if any, is not |
| PyStr.StripInfix | download_wheels.py:315 | the stripped text is a contiguous slice of the input, starting right after the leading whitespace |
| PyStr.StripTail | download_wheels.py:315 | everything after the stripped text in the input is whitespace |
| PyStr.Strip | download_wheels.py:315 | the result is the input minus its leading and trailing whitespace, and it has whitespace at neither end |
| PyStr.StripAround | download_wheels.py:315 | stripping whitespace padding off a trimmed core gives back exactly the core |
| PyStr.StripBlank | download_wheels.py:315 | stripping a string made only of whitespace gives the empty string |
| PyStr.Split | download_wheels.py:70 | `spec.split()`: every word is non-empty and holds no whitespace |
| PyStr.SplitJoinSpaced | download_wheels.py:70 | splitting space-joined non-empty words without whitespace gives back the words (round trip) |
| PyStr.SplitWordThen | download_wheels.py:70 | a word followed by whitespace (or by nothing) splits off as the first element |
| PyStr.SplitAfterSpace | download_wheels.py:70 | leading whitespace does not change `split()`; with `SplitWordThen` this fixes the words of any string |
| PyStr.Remove | download_wheels.py:149 | the result has no occurrence of the character, is no longer than the input, and equals the input when the character is absent |
| PyStr.RemoveOne | download_wheels.py:149 | a lone `c` is removed and any other lone character is kept |
| PyStr.RemoveAppend | download_wheels.py:149 | removal distributes over concatenation, so the other characters are kept in order |
| PyStr.Lower | download_wheels.py:202 | same length, every ASCII capital replaced by its lower-case letter, and every other character unchanged |
| Names.IsOperatorChar | download_wheels.py:123 | the character class `[<>=!~]`: exactly the five operator characters |
| Names.BeforeOperator | download_wheels.py:123 | the result is the longest prefix that holds none of `<>=!~` |
| Names.BareName | download_wheels.py:123 | the bare name holds no version operator character and has no surrounding whitespace |
| Names.BareNameOf | download_wheels.py:123 | the bare name is the stripped text before the first operator character, whatever follows the operator |
| Names.BareNameBlank | download_wheels.py:123 | with only whitespace before the first operator (as in `==1.0`) the bare name is empty |
| Names.BeforeOperatorOf | download_wheels.py:123 | `re.split` keeps exactly the operator-free text before the first operator character |
| Names.BareNameWithoutOperator | download_wheels.py:123 | a requirement without an operator character has the stripped requirement as its bare name |
| Names.IsDirChar | download_wheels.py:50 | the characters `[^a-zA-Z0-9_-]` does not match: ASCII letters, digits, `_` and `-` |
| Names.Sanitize | download_wheels.py:50 | every output character is in `[a-zA-Z0-9_-]`, and an input made only of such characters is returned unchanged |
| Names.SanitizeIsSubsequence | download_wheels.py:50 | the sanitised name is a subsequence of the original name |
| Names.SanitizeIdempotent | download_wheels.py:50 | sanitising twice gives the same result as sanitising once |
| Names.SanitizeAppend | download_wheels.py:50 | sanitising distributes over concatenation |
| Names.SanitizeMergesDotted | download_wheels.py:50 | a dot is dropped, so `a.b` and `ab` get the same directory |
| Names.JoinPath | download_wheels.py:52 | `os.path.join` with POSIX semantics: a `/` goes between the parts unless the directory is empty or already ends with one, and an absolute second part replaces the first |
| Names.PackageSubdir | download_wheels.py:50-52 | the path starts with the download directory and ends with the sanitised name |
| Names.PackageSubdirInjective | download_wheels.py:50-52 | two names share a subdirectory exactly when they sanitise to the same string |
| Names.KNOWN_DEPENDENCIES | download_wheels.py:201 | the one override: `pyautogui` maps to `pyautogui setuptools wheel` |
| Names.SpecForPip | download_wheels.py:201-202 | the spec is the fixed three-package spec when the lower-cased name is `pyautogui`, and the requirement itself otherwise |
| Names.PyAutoGuiOverride | download_wheels.py:201-202 | `pyautogui` in any mixture of ASCII upper and lower case reaches pip as the three requirements pyautogui, setuptools and wheel |
| Names.BaseCommand | download_wheels.py:64-68 | the five fixed leading arguments, with `--dest` followed by the package subdirectory (`CommandParts` places them at the head of every command) |
| Names.Command | download_wheels.py:64-71 | the command has 5 base tokens, then the strategy, then the words of the spec |
| Names.CommandParts | download_wheels.py:64-71 | the command is exactly the base command with `--dest` set to the subdirectory, then the strategy, then `spec.split()` |
| Names.CommandInjective | download_wheels.py:64-71 | for strategies of one length, two commands are equal iff destination, strategy and spec words are equal |
| Names.SpacedSpecIsSplit | download_wheels.py:70 | a spec with spaces around its operator reaches pip as three separate arguments |
| Strategies.PLATFORMS | download_wheels.py:131-132 | the platforms `any` and `win_amd64`, in that order |
| Strategies.PYTHON_VERSIONS | download_wheels.py:134 | the versions 3.13, 3.12, 3.11, 3, 3.14, 3.15, 3.16, in that order |
| Strategies.IMPLEMENTATIONS | download_wheels.py:136 | the implementations `cp` and `py`, in that order |
| Strategies.BINARY_TYPES | download_wheels.py:137 | the single flag `--only-binary=:all:` |
| Strategies.IsCompiledAbi | download_wheels.py:163 | `abi.startswith(('cp', 'abi'))` |
| Strategies.AbiSpecific | download_wheels.py:147-155 | the derived tag always starts with `cp` or `abi`, so it is always pruned for `py` |
| Strategies.AbiSpecificForm | download_wheels.py:147-155 | the three cases: a dotted version gives `cp` plus the version without dots, a one-character version gives `abi` plus the version, anything else `cp` plus the version; the tag holds no dot |
| Strategies.AbiSpecificExamples | download_wheels.py:147-155 | `3.13` gives `cp313`, `3` gives `abi3` and `313` gives `cp313` |
| Strategies.AbiCandidates | download_wheels.py:157 | the two ABI candidates of a version: `none`, then the derived tag |
| Strategies.Pruned | download_wheels.py:163 | the skipped pairing: implementation `py` with an ABI starting `cp` or `abi` |
| Strategies.MakeStrategy | download_wheels.py:170 | the nine pip arguments of one combination, in the script's order |
| Strategies.ForBinaryTypes | download_wheels.py:169-171 | the innermost loop: exactly one strategy per binary flag, in the flags' order |
| Strategies.ForImplementations | download_wheels.py:160-171 | the implementation loop: the strategies of each implementation not pruned by line 163, in order (counted by `ForImplementationsCount`) |
| Strategies.ForAbis | download_wheels.py:160-171 | the ABI loop: the strategies of each ABI candidate, in order |
| Strategies.ForVersions | download_wheels.py:145-171 | the version loop: each version's strategies over its ABI candidates, in order (`ForVersionsAppend`) |
| Strategies.ForPlatforms | download_wheels.py:144-171 | the platform loop: membership exactly the admissible combinations (`InForPlatforms`), platforms in order (`ForPlatformsAppend`) |
| Strategies.Generate | download_wheels.py:142-174 | the list is non-empty and its last entry is the empty strategy |
| Strategies.BuildStrategies | download_wheels.py:142-174 | the nested loops build exactly the specified list |
| Strategies.ImplementationStrategies | download_wheels.py:160-171 | the two innermost loops, with their pruning, build exactly the specified list |
| Strategies.GenerateShape | download_wheels.py:142-174 | an entry is in the list iff it is the empty strategy or an admissible 9-token combination of the configured values; the empty strategy is last and every other entry has 9 tokens |
| Strategies.InForPlatforms | download_wheels.py:144-171 | a strategy is emitted by the platform loop iff it is an admissible combination |
| Strategies.NoPurePythonWithCompiledAbi | download_wheels.py:160-164 | no emitted strategy pairs `py` with a compiled ABI; `py` only appears with ABI `none` |
| Strategies.ForPlatformsAppend | download_wheels.py:144-171 | order: the strategies of earlier platforms all come before those of later platforms |
| Strategies.ForVersionsAppend | download_wheels.py:145-171 | order: within a platform, the strategies of earlier versions come before those of later versions |
| Strategies.ForImplementationsCount | download_wheels.py:160-171 | per ABI, every implementation is emitted for `none`, and only the non-`py` ones for a compiled ABI |
| Strategies.GenerateCount | download_wheels.py:142-175 | the list has platforms × versions × (implementations + non-`py` implementations) × binary types entries, plus one |
| Strategies.ScriptStrategyCount | download_wheels.py:131-175 | with the script's own lists there are 43 strategies |
| Requirements.CommentAt | download_wheels.py:318 | `s[i:i+2] == ' #'` |
| Requirements.NoInlineComment | download_wheels.py:318 | `' #' not in s`: no position holds ` #` |
| Requirements.CommentStart | download_wheels.py:318 | the position of the first ` #`, or the length when there is none |
| Requirements.CutComment | download_wheels.py:318 | cutting at the first ` #` and stripping keeps a non-empty prefix with the same first character and no inline comment; without ` #` the line is unchanged |
| Requirements.FilterLine | download_wheels.py:314-321 | every value kept is a requirement: non-empty, trimmed, not starting with `#` or `-`, with no inline comment |
| Requirements.FilterLineKept | download_wheels.py:315-320 | a line is kept iff, once stripped, it is non-blank and starts with neither `#` nor `-` |
| Requirements.FilterLineValue | download_wheels.py:315-318 | the kept value is the stripped line cut at its first ` #`; it is a prefix of the stripped line, and the whole of it when there is no ` #` |
| Requirements.KeepsRequirement | download_wheels.py:315-321 | a requirement padded with whitespace is kept as the bare requirement |
| Requirements.DropsInlineComment | download_wheels.py:318 | a requirement followed by ` #` and a comment is kept without the comment |
| Requirements.ValidLines | download_wheels.py:310-321 | at most one value per line |
| Requirements.FilterOne | download_wheels.py:315-321 | one pass of the reading loop yields exactly what FilterLine gives for the line |
| Requirements.ReadValidLines | download_wheels.py:310-321 | the reading loop produces exactly the filter-map of the lines |
| Requirements.ValidLinesAreRequirements | download_wheels.py:314-321 | every valid line is a requirement |
| Requirements.ValidLinesAppend | download_wheels.py:314-321 | file order is kept: the valid lines of two parts of the file are those of the first part followed by those of the second |
| Requirements.InValidLines | download_wheels.py:314-321 | a value is valid iff some line of the file filters to it |
| Attempts.PipResult | download_wheels.py:77-103 | what one pip call gives back: its return code or one of the two caught exceptions, with the duration measured in `finally` |
| Attempts.Outcome | download_wheels.py:55-61 | one attempt: the subdirectory could not be made and pip was not called, or pip's result |
| Attempts.PipError | download_wheels.py:91-99 | the two exceptions the script catches around `subprocess.run`: `FileNotFoundError` and any other exception |
| Attempts.Succeeded | download_wheels.py:79-81 | an attempt succeeds exactly when pip was invoked and exited with code 0 |
| Attempts.AnySucceeded | download_wheels.py:264-269 | the returned `download_success`: some attempt succeeded (`AttemptsMadeKeepVerdict` shows stopping early keeps it) |
| Attempts.SuccessCount | download_wheels.py:216-217 | `attempt_success_count`: the number of successful attempts, at most the number made |
| Attempts.FirstSuccess | download_wheels.py:216-220 | the index of the first successful attempt: every earlier attempt failed |
| Attempts.AttemptsMade | download_wheels.py:191-257 | all strategies are tried when all versions are wanted or nothing succeeds; otherwise exactly those up to and including the first success |
| Attempts.AttemptsMadeKeepVerdict | download_wheels.py:191-269 | stopping early never changes the verdict |
| Attempts.AllFailAllTried | download_wheels.py:191-193 | when every attempt fails, every strategy is tried |
| Attempts.SuccessCountZero | download_wheels.py:216-217 | the success count is zero iff no attempt succeeded |
| Attempts.FirstSuccessCountsOne | download_wheels.py:216-223 | the success count is 0 before the first success and 1 right after it, so the first-success actions run once |
| Attempts.Times | download_wheels.py:100-103 | one duration per pip call: all attempts when pip is always invoked, none when every directory fails |
| Attempts.TimesCountsInvocations | download_wheels.py:55-103 | there are as many durations as attempts iff pip was invoked on every attempt |
| Attempts.TimesAppend | download_wheels.py:100-103 | durations are appended in attempt order |
| Attempts.AttemptStep | download_wheels.py:216-220 | one more attempt updates the verdict, the success count and the durations as the loop body does |
| Driver.World | download_wheels.py:56-77 | the outside world as an oracle: whether `os.makedirs` succeeds for a path, and what `subprocess.run` returns for a command, on a given attempt |
| Driver.Config | download_wheels.py:131-140 | the four strategy lists and the two switches `DOWNLOAD_ALL_VERSIONS` and `COPY_FIRST_SET_TO_PARENT_DIRECTORY` |
| Driver.SCRIPT_CONFIG | download_wheels.py:131-140 | the script's values: its four lists, downloading all versions, no copy to the parent directory |
| Driver.Instruction | download_wheels.py:229-386 | an entry of the batch file: its header, the install line of one requirement with its subdirectory, or its footer |
| Driver.Promotion | download_wheels.py:237-252 | a copy of the first successful attempt's files from the subdirectory to the download directory |
| Driver.Call | download_wheels.py:208-214 | the arguments of one `run_pip_download_deps` call: spec for pip, bare name, attempt number and strategy |
| Driver.InstallOf | download_wheels.py:222-231 | one install instruction for the requirement and its package subdirectory (`InstallIsDest`: the `--dest` of its attempts) |
| Driver.PromotionOf | download_wheels.py:235-252 | a copy from the package subdirectory to the download directory exactly when copying is enabled |
| Driver.AttemptClassification | download_wheels.py:49-103 | an attempt succeeds iff the directory is created and pip exits with 0; a duration is recorded iff pip was called; the `--dest` argument is the package subdirectory |
| Driver.AttemptOutcome | download_wheels.py:49-103 | one attempt: no pip call when the subdirectory cannot be created, otherwise pip's result on the command (stated by `AttemptClassification`) |
| Driver.AttemptOutcomes | download_wheels.py:191-214 | one outcome per strategy |
| Driver.AttemptCalls | download_wheels.py:191-214 | attempt `j + 1` hands strategy `j`, the spec for pip and the bare name to `run_pip_download_deps` |
| Driver.NamedRun | download_wheels.py:142-269 | the attempt loop for a bare name: verdict, durations, calls, and the first-success install and copy (stated by `RunStops`, `RunVerdict`, `RunCalls`) |
| Driver.PackageRunOf | download_wheels.py:110-269 | `download_package_with_deps`: the bare name of line 123, then the attempt loop |
| Driver.Successful | download_wheels.py:361-368 | `successful_packages`: the requirements whose run succeeds, in order (stated by `InSuccessful`, `PartitionAppend`) |
| Driver.Failed | download_wheels.py:361-370 | `failed_packages`: the requirements whose run fails, in order (stated by `InFailed`, `PartitionAppend`) |
| Driver.AllCalls | download_wheels.py:361-370 | the `run_pip_download_deps` calls of several requirements, in order |
| Driver.AllTimes | download_wheels.py:103 | `pip_call_times` across requirements: the durations of every run, in order (`RunsStep`, `ProcessRequirements`) |
| Driver.AllInstalls | download_wheels.py:229-231 | the install lines of several requirements, in order (`RunsStep`, `ProcessRequirements`) |
| Driver.AllPromotions | download_wheels.py:237-252 | the copies of several requirements, in order (`RunsStep`, `ProcessRequirements`) |
| Driver.RunsOf | download_wheels.py:361-370 | one package run per valid requirement |
| Driver.RunsStep | download_wheels.py:361-370 | processing one more requirement appends it to exactly one of the two lists and appends its durations, calls, install lines and copies |
| Driver.Downloader.constructor | download_wheels.py:19 | all logs start empty |
| Driver.Downloader.RunPipDownloadDeps | download_wheels.py:28-106 | returns whether the attempt succeeded; appends one duration iff pip was called; the call is logged |
| Driver.Downloader.FirstSuccessActions | download_wheels.py:222-252 | appends one install instruction for the requirement and its subdirectory, and the copy into the base directory iff copying is enabled |
| Driver.Downloader.AttemptStrategy | download_wheels.py:194-252 | one attempt with the overridden spec; the count grows by one on success; the first-success actions run iff the count goes from 0 to 1 |
| Driver.Downloader.DownloadPackageWithDeps | download_wheels.py:110-269 | the verdict and every log entry are those of the package run of the requirement's bare name |
| Driver.Downloader.TryStrategies | download_wheels.py:142-269 | builds the strategies and runs the loop; the verdict and the new logs are those of the named run |
| Driver.Downloader.AttemptLoop | download_wheels.py:191-269 | the attempts made are the strategies in order, all of them or up to the first success; install lines and copies are added once, on the first success |
| Driver.Downloader.ProcessRequirements | download_wheels.py:275-386 | timings start empty; each valid line is processed in order; the lists are the partition by verdict; the calls are those of the runs in order; the batch file is header, one install per successful requirement, footer |
| Driver.StopsWhereRunSays | download_wheels.py:191-257 | the loop stops after exactly `AttemptsMade` attempts, and its verdict is the verdict over all strategies |
| Driver.PartitionComplete | download_wheels.py:361-370 | the two lists together are a permutation of the valid requirements |
| Driver.InSuccessful | download_wheels.py:367-368 | a requirement is in the successful list iff some run of it succeeded |
| Driver.InFailed | download_wheels.py:369-370 | a requirement is in the failed list iff some run of it failed |
| Driver.PartitionAppend | download_wheels.py:361-370 | both lists keep file order |
| Driver.ReportedByVerdict | download_wheels.py:361-370 | a line is reported successful iff it is valid and its attempt loop succeeds, and failed iff it is valid and the loop fails |
| Driver.RunCalls | download_wheels.py:191-214 | the calls are the strategies in order, each tried at most once, as attempts 1, 2, … |
| Driver.RunVerdict | download_wheels.py:191-269 | the loop succeeds iff some strategy, tried as its attempt, succeeds |
| Driver.RunStops | download_wheels.py:191-257 | every strategy is tried when all versions are wanted or nothing succeeds; otherwise the last attempt is the first success |
| Driver.DirsAlwaysMadeRun | download_wheels.py:55-103 | when every directory can be created and all versions are wanted, there is one call and one duration per strategy |
| Driver.ScriptRunCalls | download_wheels.py:139-214 | with the script's settings, a requirement whose directory can be created makes 43 pip calls and records 43 durations, whatever pip answers |
| Driver.InstallIsDest | download_wheels.py:224-231 | the install line of a successful requirement points at the directory that every attempt hands pip as `--dest` |

## Left out

- Running pip (`subprocess.run`) and creating directories (`os.makedirs`) are not modelled. The oracle `World` gives their results. Any exception pip raises is one of two `PipError` values, and counts as a failure.
- Filesystem effects are not modelled: files written, wheels copied, directories created. A copy is recorded as a `Promotion` from the subdirectory to the base directory. The per-file `listdir`/`copy2` loop, its `isdir` check and its error branch are not modelled.
- The batch file's text is not modelled. Its header, install lines and footer are the `Instruction` values `Preamble`, `Install` and `Closing`. IOError while writing it is not modelled either: every write succeeds.
- Timing values and the final statistics (min, max, mean, sum) are not modelled. Durations are opaque `real`s from the oracle; the model only proves which calls record one.
- Argument parsing, logging, progress strings and the final summary text are not modelled.
- The exits for a missing requirements file, an uncreatable base directory and an unreadable file (download_wheels.py:298-307, 322-324) are not modelled. The model starts from the lines of a readable file.
- The commented-out static strategy table (download_wheels.py:178-188) and the commented-out timeout branch (download_wheels.py:94-96) are not modelled.
- The `main` guard and the script's wall-clock total are not modelled.
- PyStr.Lower: only ASCII letters are lowered. The script's `str.lower` folds all of Unicode, which only matters for names that are not ASCII.
- Driver.ReportedByVerdict: the oracle `World` answers by command line and attempt number only, so a requirement line that appears twice in the file gets the same outcomes both times. The script can put such a duplicate in both `successful_packages` and `failed_packages` when pip answers differently the second time; the model does not capture that. `InSuccessful` and `InFailed` are stated per occurrence and do not depend on it.
- `os.path.join` is modelled with POSIX semantics (`posixpath.join`). On Windows, where the generated batch file is meant to run, `ntpath.join` uses `\` and drive rules; the model does not capture those. A sanitised name is never absolute.
- The loop body of `download_package_with_deps` is split into `AttemptStrategy` and `FirstSuccessActions`. `AttemptLoop` leaves with `return` where the script uses `break`; nothing follows the loop except the verdict.
