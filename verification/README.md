# GITPIP package-source resolver in Dafny

GITPIP installs Python packages with pip. A package can come from PyPI, from a
GitHub repository of one of the users in the userbase, or from a local
repository under one of the configured roots. This project models how GITPIP
decides which source to hand to pip, and proves properties of that decision.

The model covers the following parts:

- **Locators** (`locators.dfy`). These are the PyPI and GitHub URLs of a
  package. The string handed to pip is the bare name for a PyPI hit and
  `git+` plus the URL for a GitHub hit.
- **The userbase** (`userbase.dfy`). `get` collects the candidates whose
  existence probe succeeds: the PyPI page first, then one repository per user
  in userbase order. `find` decides on those candidates, and so does
  `__getitem__`, which raises instead of prompting.
- **Local repositories** (`local_repositories.dfy`). These make the same
  decision on the paths that match the package under the configured roots.
- **The selection prompt** (`prompt.dfy`). Given two or more candidates, it
  reads lines until one of them, once stripped, is a number from 1 to the
  number of candidates.
- **The exception messages** (`errors.dfy`). These are the messages of
  `UnknownPackages` and `PackageSourceConfliction`.
- **The batch driver of `mainCLI`** (`cli.dfy`, with `ordered_dicts.dfy` for
  `OrderedDict`). In the install and update modes it resolves every requested
  name. It then either reports the unresolved names or hands the answers to
  pip in request order.
- **The configuration files** (`config.dfy`). These hold the users and the
  local roots. The model covers how their lines become entries, and how the
  `users` and `locals` modes add and remove entries and rewrite the file.
- **The earlier resolver at the repository root** (`legacy.dfy`). This covers
  its `UnknownPackages`, its `isOnPYPI`, and its first-match `findOnGit` over
  `http://` links.
- **Python's string primitives** (`text.dfy`). These are `str.join`,
  `str.split`, `str.strip`, `str.isdigit`, `int` and `repr` over the
  characters the resolver meets.

The parts of the outside world enter the model as parameters:

- The network probe `urlExists` is a parameter `probe: string -> bool`.
- `PathGroup.findall` is a parameter `findall: string -> seq<string>`.
- The console input is a scripted sequence of lines. Running out of lines,
  which is the `EOFError` of `input()`, is the outcome `InputClosed` for one
  name and `EndOfInput` for the batch.
- The text of a configuration file is a string parameter.

Some consequences of the code are easy to miss:

- `GitUserbase` keeps `tuple(users)` as given and does not deduplicate; only
  the `users` mode stores the entries as a set. A user listed twice in the
  file, or given again on the command line, therefore yields the same
  candidate twice, and the prompt opens even for a package found nowhere else
  (`Userbase.RepeatedUserForcesPrompt`).
- The configuration is read as `map(str.strip, filter(None, lines))`. The
  filter runs before the strip, so a blank line with its line break is kept
  and becomes the empty entry `""` (`Config.BlankLineIsEmptyEntry`).
- A name requested twice in one batch becomes one `OrderedDict` key. The key
  stays at its first position and holds the second answer
  (`Cli.RepeatedNameKeepsLastAnswer`).

## Model

| member | source | states |
|---|---|---|
| Locators.Url | GITPIP/__init__.py:6-22 | A PyPI locator is `https://pypi.org/project/<package>/`. A GitHub locator is `https://github.com/<user>/<package>`. |
| Locators.UrlRoundTrip | GITPIP/__init__.py:9-22 | The URL keeps the locator's fields: parsing it gives the locator back, for a user name without `/`. |
| Locators.UrlInjective | GITPIP/__init__.py:9-22 | Different locators (users without `/`) have different URLs. |
| Locators.PipArgument | GITPIP/__init__.py:119 | A PyPI hit becomes the bare package name; a GitHub hit becomes `git+` followed by its URL. |
| Locators.PipArgumentKeepsLocator | GITPIP/__init__.py:119 | The pip argument still names the chosen candidate: the package for PyPI, and for GitHub `git+` followed by a URL that parses back to the candidate. |
| Userbase.FindOnPyPi | GITPIP/__init__.py:95-97 | There is a PyPI candidate exactly when the probe of `https://pypi.org/project/<package>/` succeeds, and it names the package. |
| Userbase.FindOnGit | GITPIP/__init__.py:91-93 | At most one candidate per user. A locator is a candidate exactly when it is the package's GitHub repository of a configured user and its probe succeeds. |
| Userbase.FindOnGitInUserOrder | GITPIP/__init__.py:91-93 | The GitHub candidates follow userbase order: the candidates of a list of users are those of its front part, then those of its back part. |
| Userbase.Get | GITPIP/__init__.py:109-111 | At most 1 + number of users candidates. The first is the PyPI one exactly when the PyPI probe succeeds, and all the others are GitHub ones. The candidates are exactly the existing locators of the package. The userbase order is stated by `Userbase.GetInUserOrder`. |
| Userbase.GetInUserOrder | GITPIP/__init__.py:109-111 | The candidates keep userbase order: those of a userbase are those of its front part followed by the GitHub candidates of its back part. |
| Userbase.FindOnGitOfOneUser | GITPIP/__init__.py:91-93 | Each listed user contributes exactly its repository when the probe succeeds, and nothing otherwise. |
| Userbase.BothSourcesOfOneUser | GITPIP/__init__.py:109-111 | With one user, a package on both PyPI and GitHub has exactly these two candidates, PyPI first. |
| Userbase.Urls | GITPIP/__init__.py:107 | The conflict lists the URL of each candidate, in order. |
| Userbase.Lookup | GITPIP/__init__.py:99-107 | `__getitem__` returns the candidate exactly when there is one. It raises `UnknownPackages` (message naming the package and the users, PyPI included) exactly when there is none, and otherwise raises `PackageSourceConfliction` over every candidate URL. |
| Userbase.ConflictListsEveryCandidate | GITPIP/__init__.py:45-47 | For two or more candidates, the conflict message splits into its header line followed by one URL per candidate, in `get` order. |
| Userbase.PipArguments | GITPIP/__init__.py:119-127 | Each candidate is rendered as its pip argument, in order. |
| Userbase.Find | GITPIP/__init__.py:113-127 | Nothing exactly when there is no candidate. A single candidate is returned as its pip argument without reading input. Otherwise the answer is the decision of the prompt over the pip arguments. |
| Userbase.PromptPicksSecondSource | GITPIP/__init__.py:113-127 | A package found on PyPI and under the one user is ambiguous; typing `2` answers `git+https://github.com/<user>/<package>` after reading one line. |
| Userbase.RepeatedUserForcesPrompt | GITPIP/__init__.py:87-93 | Users are not deduplicated: a user listed twice gives two equal candidates, and the prompt runs out of input exactly when no line names 1 or 2. |
| LocalRepositories.Find | GITPIP/__init__.py:68-82 | Nothing exactly when no path matches; a single match without reading input; otherwise a match picked by the prompt, one of `findall`'s results. |
| Prompt.Accepts | GITPIP/__init__.py:125 | An accepted line names an index below the number of candidates. |
| Prompt.AcceptsOnlyInRange | GITPIP/__init__.py:80-82 | The line `k` is accepted exactly when 1 <= k <= size, and it picks index k - 1. `0` and the empty line are rejected. |
| Prompt.AcceptsIgnoresPadding | GITPIP/__init__.py:125 | Whitespace around the number does not change whether or what a line picks. |
| Prompt.FirstAccepted | GITPIP/__init__.py:125-126 | The pick is made by the first accepted line, and every earlier line was rejected. There is no pick exactly when every line is rejected. |
| Prompt.FirstAcceptedAt | GITPIP/__init__.py:80-81 | If line k is accepted and all lines before it are rejected, the pick is line k's choice after reading k + 1 lines. |
| Prompt.Select | GITPIP/__init__.py:125-126 | The re-reading loop returns the first accepted line's choice, which is in range. It returns nothing when the input runs out with every line rejected. |
| Prompt.Decision | GITPIP/__init__.py:115-127 | No candidate gives nothing. One candidate is returned without reading input. With two or more, the input closes exactly when every line is rejected; otherwise the candidate of the first accepted line is returned. |
| Prompt.TypingNumberPicksCandidate | GITPIP/__init__.py:125-127 | With two or more candidates, typing k (1 <= k <= size) picks candidate k - 1 after one line. |
| Prompt.RejectedLineIsSkipped | GITPIP/__init__.py:125-126 | A rejected line is consumed and the prompt asks again. |
| Errors.UnknownPackages | GITPIP/__init__.py:24-43 | The message built by appending sources is the head, ` Looked up on: `, and the sources joined by `, `. |
| Errors.HeadPlural | GITPIP/__init__.py:27-34 | The head says "Packages" exactly for a tuple of two or more names, and always ends in " not found.". |
| Errors.PlainNamesQuotedInOrder | GITPIP/__init__.py:33-34 | Names without quotes or escapes appear repr-quoted, in argument order: `'a', 'b'`. |
| Errors.ConflictMessageLines | GITPIP/__init__.py:45-47 | The conflict message is a header line followed by one line per source. |
| Cli.FindOne | GITPIP/__init__.py:210 | Resolving one requested name is the decision on its candidates: the userbase's pip arguments, or the local matches. |
| Cli.ResolveEachAnswers | GITPIP/__init__.py:215 | One answer per requested name, in request order. A name's answer is None exactly when it has no candidate, and otherwise is one of its candidates. |
| Cli.UnambiguousNamesReadNoInput | GITPIP/__init__.py:210 | When no name has two candidates, the batch reads no input and never runs out of it. |
| Cli.Unresolved | GITPIP/__init__.py:212 | The unresolved names are the keys whose answer is None; there are none exactly when every answer is present. |
| Cli.UnresolvedInOrder | GITPIP/__init__.py:217 | Filtering the dictionary keeps its key order. |
| Cli.UnresolvedNames | GITPIP/__init__.py:211-212 | A name is unresolved exactly when it was requested and has no candidate. The unresolved names come in the order of their first request. |
| Cli.Values | GITPIP/__init__.py:218 | The pip arguments are the dictionary's answers, in its order. |
| Cli.TallyReportsMissingNames | GITPIP/__init__.py:210-212 | The batch reports missing names exactly when some requested name has no candidate. The report lists exactly those names, in request order, in the `UnknownPackages` message of the source in use. |
| Cli.BatchReportsMissingNames | GITPIP/__init__.py:215-217 | The same, for the forge and local candidates of `mainCLI`. |
| Cli.TallyInstallsInRequestOrder | GITPIP/__init__.py:218 | For distinct names, an install hands pip one argument per name, in request order, each one of that name's candidates. |
| Cli.BatchInstallsInRequestOrder | GITPIP/__init__.py:239-242 | The same, for the forge and local candidates of `mainCLI`. |
| Cli.RepeatedNameKeepsLastAnswer | GITPIP/__init__.py:215 | A name requested twice is installed once, with the answer given for its second request. |
| Cli.BatchWithoutAmbiguityReadsNoInput | GITPIP/__init__.py:213-217 | When no requested name is ambiguous, the batch's outcome does not depend on the input and is never end of input. |
| Cli.ResolveStep | GITPIP/__init__.py:215 | One step of the driver: a closed input stops the batch; otherwise the name's answer is appended and the remaining input is what the prompt left. |
| Cli.ResolveNext | GITPIP/__init__.py:210 | One loop turn: it stops when resolving the rest ends the input, and otherwise the new entries and remaining input resolve to the same result under `ResolveEach`. |
| Cli.ResolveAll | GITPIP/__init__.py:210 | The loop over the requested names yields the specified answers, or stops when input runs out. |
| Cli.ResolveBatch | GITPIP/__init__.py:207-218 | The install/update driver yields the specified batch outcome: end of input, missing names with their message, or the pip arguments. |
| OrderedDicts.FromPairs | GITPIP/__init__.py:215 | `OrderedDict(pairs)` has distinct keys, exactly the keys of the pairs, and each key holds the value of its last pair. |
| OrderedDicts.FromPairsInFirstOccurrenceOrder | GITPIP/__init__.py:210 | The dictionary's keys come in the order of their first occurrence among the pairs. |
| OrderedDicts.FromPairsOfDistinctKeys | GITPIP/__init__.py:215 | Pairs with distinct keys become the dictionary unchanged. |
| OrderedDicts.FromPairsOfRepeatedKey | GITPIP/__init__.py:215 | Two pairs with one key make one entry holding the second value. |
| Config.ReadLines | GITPIP/__init__.py:209 | `readlines` loses nothing: the lines concatenate back to the file's text. |
| Config.ReadLinesShape | GITPIP/__init__.py:209 | Every line is non-empty and has no inner line break; every line but the last ends in one. |
| Config.Entries | GITPIP/__init__.py:214 | At most one entry per line. An entry is the stripped form of a non-empty line. |
| Config.EntriesAppend | GITPIP/__init__.py:214 | The file's entries come first, then the command line's, in order. |
| Config.Configured | GITPIP/__init__.py:209 | The users or roots handed to the resolver are the file's entries followed by the extras from the command line. |
| Config.BlankLineIsEmptyEntry | GITPIP/__init__.py:214 | A line of whitespace is not filtered out; it becomes the empty entry. |
| Config.Load | GITPIP/__init__.py:249 | The stored set is exactly the file's entries. |
| Config.Enumerate | GITPIP/__init__.py:254 | `list(set)` lists every member once. |
| Config.Update | GITPIP/__init__.py:249-254 | The new set is `(stored - rm) + add`, so a name both added and removed stays. Nothing changes when nothing is requested. The file is rewritten exactly when add or rm is non-empty, with the entries joined by line breaks. |
| Config.JoinReadsBack | GITPIP/__init__.py:253 | Entries written with `"\n".join` are read back unchanged and in order, when none is padded or empty. |
| Config.UpdateReadsBack | GITPIP/__init__.py:259-263 | The next run loads exactly the updated set, when no entry is padded or empty. |
| Legacy.UnknownPackages | __init__.py:4-12 | The message built by appending sources is the head, ` Looked up on: `, and the sources joined by `, `. |
| Legacy.MessageNamesPyPiFirst | __init__.py:7-11 | The sources are "PyPi", followed by "Github users (...)" exactly when there are users. |
| Legacy.HeadPlural | __init__.py:5-6 | The head says "Packages" exactly when extra names are given; a single name is still repr-quoted. |
| Legacy.HeadsOfBothVersions | __init__.py:6 | For two or more names the older and the newer head agree. For one name the older head quotes it and the newer one does not. |
| Legacy.IsOnPyPi | __init__.py:23-24 | `isOnPYPI` probes exactly the package's PyPI page, the one the newer `findOnPyPi` probes. |
| Legacy.HttpGitUrlIsPlainHttp | __init__.py:35 | The older link is the newer GitHub URL over `http://`. |
| Legacy.FirstHit | __init__.py:34-37 | The hit is the first user whose link exists; there is none exactly when no user's link exists. |
| Legacy.FindOnGit | __init__.py:32-37 | The loop returns the link of the first user whose repository exists, and probes no user after it. It returns nothing after probing every user when none exists, including for an empty userbase. |
| Legacy.FirstHitAt | __init__.py:34-36 | The first user whose link exists is the hit. |
| Legacy.FirstHitNone | __init__.py:37 | With no link existing there is no hit. |
| Legacy.FirstOfNewerCandidates | __init__.py:32-37 | Where `http://` and `https://` probes agree, the older search finds the first GitHub candidate of the newer one, and nothing exactly when the newer one has none. |
| Text.SplitJoin | GITPIP/__init__.py:47 | Splitting at a separator undoes joining with it, for parts without the separator. |
| Text.DecimalRoundTrip | GITPIP/__init__.py:125 | A number written in decimal reads back as itself. |
| Text.StripIgnoresPadding | GITPIP/__init__.py:125 | Stripping removes added whitespace and keeps the text inside. |

## Left out

- The network probe `urlExists` is the parameter `probe`. In the source, only `HTTPError` counts as "does not exist"; other URL errors propagate as exceptions, and the model does not capture this.
- The unused `isOnPyPi` of `GITPIP/__init__.py` is not modelled separately. It probes the same URL as `Userbase.FindOnPyPi`.
- `PseudoPathy.PathGroup` and its `findall` are not part of this model. `findall` is a parameter.
- Cli.MissingMessage: the `roots` of `Sources.Local` stand for `locals._roots`, an attribute of `PathGroup`. The model assumes they are the configured root strings, not normalised, and writes them with the `repr` of `str`; they are not tied to `Config.Configured`.
- Console output is not modelled: the prompt's listing of candidates, the `{:<70}` and `{:<19}` padding, and the listing of users and roots.
- `input()` is a scripted sequence of lines. Only its end (`EOFError`) is modelled as an event; interrupts are not.
- argparse, the appdirs directories, and the creation of the configuration files are not modelled.
- Opening, reading and writing the configuration files is not modelled. The file's text is a parameter, and the text to write is a result.
- Discovering the pip executable is not modelled, nor the command line assembled for `os.system`: `exe`, `--force-reinstall`, `--cache-dir`, `-e`. The model stops at the sequence of package arguments.
- The `rmtree` clean-up after a local install is not modelled, nor the `remove` mode, which passes the names straight to pip.
- `GITPIP/__main__.py` is not part of this model. It is an earlier script whose forge-only driver matches that of `mainCLI` (GITPIP/__main__.py:58-62, 71-75), but its configuration handling differs. It reads `users.txt` with `read().strip().split()`, so a line holding two names gives two users and a blank line gives no entry, unlike `Config.Configured` and `Config.BlankLineIsEmptyEntry`. Its `users` mode rewrites the file on every call (GITPIP/__main__.py:78-81), unlike `Config.Update`.
- Exceptions and `exit(1)` in the top-level handler are not modelled. Failures are result values: `Err`, `Missing`, `EndOfInput`.
- Config.Enumerate: Python's set iteration order is unspecified here. Any order that lists each entry once is allowed.
- Text.Strip: uses Python's whitespace set for Latin-1 and the Unicode space characters.
- Text.IsDigit: accepts ASCII digits only. Other Unicode digits accepted by `str.isdigit` are left out.
- Prompt.Accepts: does not model the error path of `int(index)` (GITPIP/__init__.py:80, 125). A line of digits that are not decimal, such as `²` or `①`, passes `isdigit()`, and `int()` then raises `ValueError`. On Python 3.11 and later, so does a line of more than 4300 digits. In the source that exception ends the whole command through the handler of `mainCLI`; the model instead rejects the line and reads on.
- Config.ReadLines: `content` is the file's text after the newline translation of text mode, where `\r\n` and `\r` have already become `\n`. The translation itself is not modelled. A file holding `alice\rbob` therefore has to be given as `alice\nbob`.
- Text.PyRepr: escapes backslashes, quotes, `\t`, `\n`, `\r`, and the control and non-printable characters up to U+00FF. Non-printable characters above U+00FF are kept as they are.
- Locators.ParseUrl: added so that the URL round trip can be stated. The source never parses URLs.
