# Package validator of the CMake Central Registry, in Dafny

The registry stores one JSON file per package under `registry/packages/`.
`scripts/validate.py` checks such a file against a fixed set of rules and
returns the list of error messages (`validate_package`). It also validates
every file of the registry and keeps the files that have errors
(`validate_all`). This project models those two functions and the
constants they use, and proves what their error lists contain.

The model has five modules:

- `JsonValues` (json.dfy) holds a decoded JSON value. Objects keep their
  members in document order, as a Python dict does. The module also gives
  the few pieces of Python semantics the validator applies to such
  values: `in` (a dict key, a list element or a substring), truthiness,
  `len` and what a `for` loop visits.
- `Rules` (rules.dfy) holds the constants `REQUIRED_FIELDS`,
  `REQUIRED_VERSION_FIELDS`, `VALID_REPO_TYPES`, `NAME_PATTERN` and
  `VALID_LICENSES`. It defines one predicate per rule and the reference
  report `Report(stem, input)`. That report is the list of issues the
  validator produces for the file `stem`.json, rule after rule, in the
  order the source checks them. Each constructor of `Issue` stands for one
  of the source's messages. `Admissible` states when validate_package
  returns a list instead of raising a Python exception.
- `Messages` (messages.dfy) renders each issue as the text of its f-string.
  It proves that the text tells which check produced it. The model computes
  the list of issues first and renders it afterwards; the source builds the
  strings directly, and `Validator.ValidatePackageTexts` returns exactly
  those strings.
- `Validator` (validator.dfy) holds the two functions as imperative
  methods. They append to the error list check after check and loop over
  the required fields, the version entries and the dependencies. Each
  method is proved to return the reference report.
- `Properties` (properties.dfy) proves the lemmas about the report. They
  cover which issues appear, how many of each rule, in what order, and
  exactly when the list is empty.

## Model

| member | source | states |
|---|---|---|
| Validator.ValidatePackage | scripts/validate.py:34-107 | returns the reference report: `[InvalidJson]` for an undecodable file; only the missing-field issues when a required field is absent; otherwise the issues of the later checks in source order. The list is empty exactly when the file decoded and every rule holds. |
| Validator.ValidatePackageTexts | scripts/validate.py:42-105 | returns the list of strings: the i-th is the f-string text of the i-th issue of the report, and it names the check that produced it; the list is empty exactly when every rule holds |
| Validator.CheckRequiredFields | scripts/validate.py:44-47 | one MissingField issue per field of the list that the document lacks, in list order (equals MissingFieldIssues) |
| Validator.CheckContent | scripts/validate.py:52-105 | the issues of name, stem, description, license, repository, versions, default version, targets, maintainers and dependencies, in that order (equals ContentIssues) |
| Validator.CheckRepository | scripts/validate.py:68-73 | a missing `type` or `url` yields RepositoryFieldsMissing; only otherwise is the type checked against VALID_REPO_TYPES |
| Validator.CheckVersions | scripts/validate.py:75-87 | NoVersions when `versions` is falsy, then the issues of every entry in the order of the dict |
| Validator.CheckVersionEntry | scripts/validate.py:81-87 | one issue per missing `git_tag`/`tested`, in that order, then one if `cmake_options` is present and not an object |
| Validator.CheckDependencies | scripts/validate.py:101-105 | one issue per dependency without `name`, in order |
| Validator.ValidateAll | scripts/validate.py:110-119 | the result is Collect(registry); a stem is a key exactly when some file with that stem has a non-empty list; a registry where every package passes gives the empty map |
| Rules.MatchName | scripts/validate.py:20 | `NAME_PATTERN.match` run left to right accepts exactly the strings of NamePattern: a lower-case letter, then letters, digits and `_`, optionally followed by one final `"\n"` (Python's `$`) |
| Rules.MatchTail | scripts/validate.py:20 | after the first letter the pattern accepts name characters up to the end, or up to one final newline |
| Rules.MissingFieldIssues | scripts/validate.py:45-47 | each issue names a listed field the document lacks, and each such field has an issue |
| Rules.Extract | scripts/validate.py:53-103 | the values the checks read from a complete document (`data[k]`, the items of `dependencies`) have the types those checks accept |
| Rules.CompleteIff | scripts/validate.py:44-50 | a document passes the required-field loop exactly when it is a dict holding each of the nine fields, so every `data[k]` read later succeeds |
| JsonValues.IterateIn | scripts/validate.py:102-104 | a `for` loop over a list or dict visits a string `k` exactly when `k in` that list or dict holds |
| Messages.TextShowsRule | scripts/validate.py:42-105 | RuleOfText reads back from every message text the check that produced it, so no two checks share a text |
| Properties.ReportTexts | scripts/validate.py:42-105 | reading back the text of each issue of any report gives the rule of that issue |
| Properties.ReportKnownVersionFields | scripts/validate.py:81-83 | every missing-field issue of a version entry names `git_tag` or `tested` |
| Properties.MissingFieldsOnly | scripts/validate.py:44-50 | with a required field absent, the report is non-empty, holds only MissingField issues, exactly one per absent field, in REQUIRED_FIELDS order; no later rule is checked |
| Properties.MissingFieldIssuesOrdered | scripts/validate.py:45-47 | the missing-field issues follow the order of the field list, each field at most once |
| Properties.MissingFieldIssuesEmpty | scripts/validate.py:49-50 | no missing-field issue exactly when every listed field is present |
| Properties.ReportOfComplete | scripts/validate.py:49-53 | with every required field present, the report is that of the later checks |
| Properties.NameAndStem | scripts/validate.py:53-58 | at most one name issue, present exactly when NamePattern fails; at most one stem issue, present exactly when the stem differs from the name; the two are independent |
| Properties.DescriptionAndLicense | scripts/validate.py:60-66 | a description longer than 200 yields exactly one issue; a license outside the 14 identifiers yields exactly one; otherwise none |
| Properties.RepositoryAtMostOnce | scripts/validate.py:68-73 | at most one repository issue; no fields issue exactly when both `type` and `url` are present; a type issue exactly when both are present and the type is unknown |
| Properties.EmptyVersions | scripts/validate.py:75-91 | an empty `versions` yields both NoVersions and DefaultVersionNotFound |
| Properties.DefaultVersionListed | scripts/validate.py:89-91 | a default version that is a key of `versions` yields neither NoVersions nor DefaultVersionNotFound |
| Properties.VersionEntryCounts | scripts/validate.py:80-87 | the number of version-field issues is the number of entries lacking `git_tag` plus those lacking `tested`; the number of cmake issues is the number of entries whose `cmake_options` is not an object |
| Properties.EntriesCounts | scripts/validate.py:80-87 | the same counts for the entry issues alone, per rule |
| Properties.EntryCounts | scripts/validate.py:81-87 | one entry yields one issue per missing required field and one for a non-object `cmake_options` |
| Properties.EntryIssuesSpelledOut | scripts/validate.py:81-87 | the issues of one entry are: missing `git_tag`, missing `tested`, bad `cmake_options`, each when it applies, in that order |
| Properties.EntryOrdered | scripts/validate.py:81-87 | the issues of one entry are about that entry and come in the order git_tag, tested, cmake_options |
| Properties.EntriesOrdered | scripts/validate.py:80-87 | the issues of the entries come entry after entry in the order of the `versions` dict, and each is about one of its entries |
| Properties.VersionsOrdered | scripts/validate.py:80-87 | for a decoded document the issues of the version entries come entry after entry in the order of `versions` |
| Properties.VersionCount | scripts/validate.py:75-87 | the versions check contributes one NoVersions issue when `versions` is falsy plus the entry counts |
| Properties.RepositoryCount | scripts/validate.py:68-73 | the repository check contributes a fields issue or a type issue, never both |
| Properties.TargetsAndMaintainers | scripts/validate.py:93-99 | falsy `targets` and falsy `maintainers` each yield exactly one issue, otherwise none |
| Properties.Dependencies | scripts/validate.py:101-105 | one issue per dependency without `name`; none when `dependencies` is absent |
| Properties.DependencyCount | scripts/validate.py:101-105 | the dependency check contributes exactly as many issues as there are nameless dependencies |
| Properties.NamelessCount | scripts/validate.py:101-105 | the dependency issues are all DependencyWithoutName, one per dependency lacking `name` |
| Properties.RuleCounts | scripts/validate.py:52-105 | for a document with every required field, the number of issues of each rule is ExpectedCount: one per failing single check, one per lacking entry field, per bad `cmake_options`, per nameless dependency |
| Properties.ContentCounts | scripts/validate.py:52-105 | the same count for the later checks of a package |
| Properties.CheckShares | scripts/validate.py:52-105 | the per-check counts add up to ExpectedCount |
| Properties.ReportEmptyIff | scripts/validate.py:36-107 | the report is empty exactly when the file decoded, has every required field and passes every rule |
| Properties.ContentEmptyIff | scripts/validate.py:52-105 | the later checks report nothing exactly when all of them pass |
| Properties.VersionIssuesEmpty | scripts/validate.py:75-87 | the versions check reports nothing exactly when there is a version and every entry is complete |
| Properties.EntriesIssuesEmpty | scripts/validate.py:80-87 | the entries report nothing exactly when every entry has its required fields and an object `cmake_options` if any |
| Properties.VersionFieldIssuesEmpty | scripts/validate.py:81-83 | an entry reports no missing field exactly when it has every listed field |
| Properties.NamelessIssuesEmpty | scripts/validate.py:101-105 | the dependencies report nothing exactly when every dependency has `name` |
| Properties.GatherKeys | scripts/validate.py:112-117 | a stem is a key of the accumulated dict exactly when some list stored under it was non-empty |
| Properties.GatherValue | scripts/validate.py:116-117 | the list stored for a stem is the last non-empty one with that stem |
| Properties.CollectKeys | scripts/validate.py:110-119 | a stem is a key of validate_all's result exactly when a file with that stem has errors |
| Properties.CollectValue | scripts/validate.py:110-119 | the list stored for a stem is the error list of its file |
| Properties.CollectAllValid | scripts/validate.py:110-119 | when every package passes, validate_all returns the empty dict |

## Left out

- Reading the file and `json.load` are not modelled. The input is either a decoded document or an undecodable file that carries the decoder's explanation, which becomes the text of `Invalid JSON: {e}`. Errors other than `JSONDecodeError` (a missing file, bad encoding) propagate out of the source; the model has no case for them.
- `main`, the command line, printing and exit codes (scripts/validate.py:122-155, called at 158-159) are not modelled.
- `REGISTRY_DIR.glob("*.json")` is replaced by a sequence of (stem, input) pairs in visiting order. The order of the glob is not fixed by the source.
- JSON numbers are integers; floating point values are not modelled.
- Inputs on which the source raises an exception instead of returning a list are excluded by the precondition `Admissible`. Examples are a top-level number, a name that is not a string, an unhashable license, a `versions` that is not a dict, or a repository with `type` and `url` that is not a dict. Each such exception is the Python `TypeError` or `AttributeError` of the expression that meets the wrong type.
- Duplicate keys in a JSON object are not modelled: `Admissible` requires every object of a decoded document to have distinct keys (`Decoded`), as a Python dict has them. Python's decoder would keep the last of several equal keys.
- Messages.Repr quotes every string with `'` and escapes nothing. Python's `repr` switches to `"` for strings that contain `'` and escapes backslashes and control characters. An f-string puts a string value in as it is, so the difference shows only for a list or dict that holds such a string. Of the values a message interpolates, only a repository type can be a list or dict: a license and a default version must be hashable.
- Messages.TextShowsRule requires the field of a version-field issue to be one of REQUIRED_VERSION_FIELDS, which holds for every issue the validator produces. For other field names a version could be chosen so that two texts coincide.
- The C++ example projects are not part of this model; they do not use the validator.
- The CMake side of the registry, which finds and activates packages in a build, is not part of this model.
