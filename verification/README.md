# Python project standards checker: the evaluation and scoring core

`check_python_project_standards.py` audits a Python repository, either a local
directory or a GitHub repository. It reads the parsed `pyproject.toml` and runs
five configuration checks over it, in a fixed order:

- Python version;
- Poetry configuration and plugins;
- linter/formatter and type checker;
- test framework and coverage;
- repository keywords.

Each check appends pass/fail records to a compliance report. The report scores
the repository as the percentage of passing records and sorts it into a tier.
The process exit status is derived from that score. Before any of this, the
command-line argument is classified as a local path or a GitHub repository,
and a GitHub argument is reduced to `owner/repo`.

This project models that core as pure Dafny functions and proves what the code
promises about it. The modules follow the program's structure:

| file | module | what it holds |
|---|---|---|
| `py_strings.dfy` | `PyStrings` | the Python string operations the code relies on: `in`, `replace(pat, '')`, `strip`, `split`, `lower`; also a suffix test, used only by the corrected parser under "## Findings" |
| `py_values.dfy` | `PyValues` | the parsed TOML tree (`Value`), and Python's `in`, `[]` and `.get` on it, with the exceptions they raise as a `Result` |
| `report.dfy` | `Compliance` | `ComplianceCheck`, `ComplianceReport`, the counts, the score, the tiers and `main`'s exit status |
| `config_checks.dfy` | `ConfigChecks` | the five check functions and `run_standard_checks` |
| `config_facts.dfy` | `ConfigFacts` | which record each configuration produces, the precedence rules, and totality on conventional files |
| `repo_spec.dfy` | `RepoSpec` | `determine_repository_type` and `_parse_repo_spec` |
| `repo_spec_facts.dfy` | `RepoSpecFacts` | classification and parsing of every URL form, and the `.git` finding below |
| `test_cases.dfy` | `TestCases` | the repository's own unit-test scenarios, stated as lemmas |

Modelling choices:

- The score is an exact ratio, not a float. `Ratio(p, t)` stands for `100 * p / t`.
- A threshold test `score >= 75` is written as `100 * p >= 75 * t`.
- Any Python operation that raises on an ill-typed TOML node gives `Raised(...)`. This covers `'x' in 5`, `[1]['k']`, `'s'.get(...)` and `.lower()` on a number.
- As a result, a configuration that would crash the checker is visible in the model. It reaches `main`'s `except` branch as `Crashed`.
- `get_summary` has three tiers: EXCELLENT at 90 and above, GOOD at 75 and above, NEEDS WORK otherwise.
- An exception raised while checking exits with status 2. Status 1 results when the score is below 75, and 0 otherwise.
- An argument is classified by four regular expressions alone; no file system is consulted. An argument without a `/` is always local.

## Model

| member | source | states |
|---|---|---|
| PyStrings.InStr | src/compliance_checker/check_python_project_standards.py:230 | Python's `needle in hay` on strings holds exactly when the needle occurs contiguously somewhere in the haystack |
| PyStrings.RemoveAll | src/compliance_checker/check_python_project_standards.py:775-778 | `s.replace(pat, '')` never lengthens the string, shortens it by at least the pattern's length when the pattern occurs, and introduces no character that was not already in it |
| PyStrings.RemoveAllUnchanged | src/compliance_checker/check_python_project_standards.py:775-778 | replacing a pattern that does not occur leaves the string as it was |
| PyStrings.RemoveAllLeading | src/compliance_checker/check_python_project_standards.py:775-778 | an occurrence at the start is deleted and the scan resumes right after it |
| PyStrings.RemoveAllAcross | src/compliance_checker/check_python_project_standards.py:775-778 | a character foreign to the pattern splits the replacement into two independent halves |
| PyStrings.RemoveAllSkip | src/compliance_checker/check_python_project_standards.py:775-778 | a leading stretch without the pattern's first character survives the replacement unchanged |
| PyStrings.Lower | src/compliance_checker/check_python_project_standards.py:299 | `lower()` keeps the length, turns each ASCII capital into its small letter, keeps every other character, and leaves no capital |
| PyStrings.LowerIdempotent | src/compliance_checker/check_python_project_standards.py:299 | lower-casing twice gives the same string as lower-casing once |
| PyStrings.LowerKeepsOccurrence | src/compliance_checker/check_python_project_standards.py:299 | a pattern without capitals that occurs in a string still occurs after lower-casing it |
| PyStrings.Strip | src/compliance_checker/check_python_project_standards.py:781 | `strip('/')` returns a slice of the string with only `/` before and after it, and with no `/` at either end; a string without edge slashes is unchanged |
| PyStrings.TrimStart | src/compliance_checker/check_python_project_standards.py:781 | the left strip removes exactly a leading run of the character |
| PyStrings.TrimEnd | src/compliance_checker/check_python_project_standards.py:781 | the right strip removes exactly a trailing run of the character |
| PyStrings.Split | src/compliance_checker/check_python_project_standards.py:784-787 | `split('/')` yields at least one piece, no piece holds `/`, and joining the pieces with `/` gives back the string |
| PyStrings.SplitCount | src/compliance_checker/check_python_project_standards.py:784 | a string splits into more than one piece exactly when it holds the separator |
| PyStrings.SplitAtFirst | src/compliance_checker/check_python_project_standards.py:787 | splitting cuts at the first separator and then splits the rest |
| PyStrings.SplitNoSeparator | src/compliance_checker/check_python_project_standards.py:784 | a string without the separator splits into itself alone |
| PyStrings.SplitFirstTwo | src/compliance_checker/check_python_project_standards.py:787-788 | when the separator occurs, the first two pieces rejoined by it are a prefix of the string that ends at a separator or at the end |
| PyValues.In | src/compliance_checker/check_python_project_standards.py:218 | `key in v` is substring search on a string, membership on a list and key lookup on a dict; it raises `TypeError` exactly on a number or a boolean |
| PyValues.Index | src/compliance_checker/check_python_project_standards.py:219 | `v[key]` succeeds exactly on a dict holding the key, with that key's value |
| PyValues.Get | src/compliance_checker/check_python_project_standards.py:223 | `v.get(key, default)` succeeds exactly on a dict, giving the key's value or the default |
| ConfigFacts.AddoptsListMentions | src/compliance_checker/check_python_project_standards.py:400-402 | `'--cov' in str(addopts)` on a list of strings holds exactly when some option contains the pattern |
| Compliance.NewReport | src/compliance_checker/check_python_project_standards.py:99-107 | a new report holds no records and no stored score, and keeps its identifier, name and kind |
| Compliance.PassedCount | src/compliance_checker/check_python_project_standards.py:113-115 | the passed count is at most the total; it is 0 exactly when no record passes and the total exactly when every record passes |
| Compliance.FailedCount | src/compliance_checker/check_python_project_standards.py:117-119 | the failed count is at most the total; it is 0 exactly when every record passes and the total exactly when none does |
| Compliance.CountsPartition | src/compliance_checker/check_python_project_standards.py:109-119 | every record is either passed or failed: passed plus failed equals the total |
| Compliance.CountsAppend | src/compliance_checker/check_python_project_standards.py:113-119 | the passed and failed counts of a concatenation are the sums of the parts' counts |
| Compliance.AllPassedCount | src/compliance_checker/check_python_project_standards.py:113-115 | when every record passes, the passed count is the total |
| Compliance.AddCheck | src/compliance_checker/check_python_project_standards.py:127-129 | the new record goes last and earlier records, identity and stored score are untouched; exactly one of the passed or failed counts grows by one |
| Compliance.AddChecks | src/compliance_checker/check_python_project_standards.py:465-466 | adding a list of records appends exactly that list, in order, and changes nothing else |
| Compliance.CalculateScore | src/compliance_checker/check_python_project_standards.py:121-125 | the score is 0 for an empty report and otherwise the passed share times 100; it never exceeds 100 |
| Compliance.ScoreInRange | tests/test_compliance_checker.py:61-63 | the score always lies between 0 and 100 |
| Compliance.HalfPassedScoresFifty | src/compliance_checker/check_python_project_standards.py:970-976 | one passing and one failing record score exactly 50, which falls in NEEDS WORK |
| Compliance.AllPassedScoresHundred | src/compliance_checker/check_python_project_standards.py:121-136 | a non-empty report whose records all pass scores 100 and is EXCELLENT |
| Compliance.Summary | src/compliance_checker/check_python_project_standards.py:131-140 | without a stored score: EXCELLENT exactly when at least 90% of a non-empty report passes; NEEDS WORK exactly when the report is empty or under 75% passes |
| Compliance.TierThresholds | src/compliance_checker/check_python_project_standards.py:135-140 | the three tiers split the effective score at 90 and 75: each tier holds exactly for its range |
| Compliance.StoredScoreWins | src/compliance_checker/check_python_project_standards.py:133 | a stored `score` entry decides the tier, whatever records the report holds |
| Compliance.StoreScore | src/compliance_checker/check_python_project_standards.py:1050-1051 | storing the computed score keeps the records and yields the tier recomputation would give |
| Compliance.ExitCode | src/compliance_checker/check_python_project_standards.py:1073-1081 | an exception exits 2; otherwise 0 exactly when a non-empty report has at least 75% passing, which is exactly when the tier is not NEEDS WORK, and 1 otherwise |
| ConfigChecks.CheckPythonVersion | src/compliance_checker/check_python_project_standards.py:212-249 | the record is "Python Version" in Configuration; it passes exactly when its severity is info; a missing file gives a failing error record |
| ConfigChecks.GradePythonVersion | src/compliance_checker/check_python_project_standards.py:229-249 | a requirement passes exactly when it contains 3.13, warns exactly when it fails but contains 3.12, and errs otherwise; a number raises |
| ConfigChecks.HasPoetryDependencies | src/compliance_checker/check_python_project_standards.py:221 | false without `[tool]`; true only when `[tool.poetry]` exists and has `dependencies`, and for a table exactly then |
| ConfigChecks.IsPoetryTwo | src/compliance_checker/check_python_project_standards.py:286 | a string qualifies exactly when it contains `>=2.1`, `>=2.0` or `^2`; a list exactly when one of those is an element; a number raises |
| ConfigChecks.MentionsPoetryIgnoresCase | src/compliance_checker/check_python_project_standards.py:299 | the Poetry test ignores case, and a requirement containing `poetry` always names Poetry |
| ConfigChecks.FirstPoetryRequirement | src/compliance_checker/check_python_project_standards.py:296-308 | the scan stays undecided exactly when every entry is a string that does not name Poetry |
| ConfigChecks.FirstPoetryRequirementDecides | src/compliance_checker/check_python_project_standards.py:298-308 | a decided scan was decided by the first entry naming Poetry, with that entry's Poetry 2 test as the verdict |
| ConfigChecks.PoetryRequirement | src/compliance_checker/check_python_project_standards.py:296-308 | a list is scanned entry by entry; a string's one-character entries never name Poetry; a table is decided exactly when a key names Poetry; a number raises |
| ConfigChecks.PluginChecks | src/compliance_checker/check_python_project_standards.py:267-278 | one record per required plugin, in order, named after it, passing exactly when `plugin in plugins` holds; info when passing, warning otherwise |
| ConfigChecks.PoetrySectionChecks | src/compliance_checker/check_python_project_standards.py:264-311 | a `[tool.poetry]` section yields the version record alone, or three plugin records before it exactly when `requires-plugins` is present; the version record is last and the only one of its name; all are Configuration, and passing ones are info |
| ConfigChecks.PoetryVersionCheck | src/compliance_checker/check_python_project_standards.py:280-311 | the version record is "Poetry Version" in Configuration, info when passing and warning when failing |
| ConfigChecks.CheckPoetryConfiguration | src/compliance_checker/check_python_project_standards.py:252-313 | one or four records, all Configuration; four exactly when `[tool.poetry]` has `requires-plugins`; the last is the only "Poetry Version" record; passing records are info; a missing file gives one failing error record |
| ConfigChecks.PluginNamesDiffer | src/compliance_checker/check_python_project_standards.py:269-278 | plugin record names never clash with "Poetry Version", so the appended version record is the only one of its name |
| ConfigChecks.LinterChecks | src/compliance_checker/check_python_project_standards.py:327-354 | "Linter/Formatter" comes first; at most two more records follow, each a passing "Line Length" or "Quote Style", and only when Ruff is configured |
| ConfigChecks.RuffChecks | src/compliance_checker/check_python_project_standards.py:328-342 | a Ruff section gives the linter record first, then at most a passing "Line Length" and a passing "Quote Style", all Code Quality |
| ConfigChecks.TypeCheckerCheck | src/compliance_checker/check_python_project_standards.py:356-377 | the record is "Type Checker" in Code Quality, info when passing and warning when failing |
| ConfigChecks.CheckCodeQualityTools | src/compliance_checker/check_python_project_standards.py:316-379 | two to four Code Quality records, the linter record first and the type checker last, each exactly once; extras only with Ruff; a missing file gives both failing at error |
| ConfigChecks.CheckTestingConfiguration | src/compliance_checker/check_python_project_standards.py:382-409 | "Test Framework" comes first; a "Test Coverage" record follows exactly when the framework passed; all Testing; a missing file gives one failing error record |
| ConfigChecks.HasRequiredKeyword | src/compliance_checker/check_python_project_standards.py:427 | the verdict is true exactly when some required keyword is an element of the list, or a key of the table; a string yields one-character pieces, so it never qualifies; a number cannot be iterated and raises |
| ConfigChecks.DeclaredKeywords | src/compliance_checker/check_python_project_standards.py:417-424 | `[project]` keywords first, defaulting to none; without `[project]`, `[tool.poetry]` keywords; otherwise none |
| ConfigChecks.CheckRepositoryKeywords | src/compliance_checker/check_python_project_standards.py:412-438 | the record is "Repository Keywords" in Configuration, info when passing and error when failing; a missing file gives a failing error record |
| ConfigChecks.StandardChecks | src/compliance_checker/check_python_project_standards.py:458-478 | six to twelve records, Python version first and keywords last; the run succeeds exactly when none of the five checks raises |
| ConfigChecks.RunStandardChecks | src/compliance_checker/check_python_project_standards.py:458-478 | the report gains exactly the standard records, in order, and every other field of the report is unchanged; it fails exactly when a check raises |
| ConfigFacts.PythonVersionFromProject | src/compliance_checker/check_python_project_standards.py:217-249 | a `[project] requires-python` string passes exactly when it mentions 3.13; otherwise it warns when it mentions 3.12 and errs when it does not |
| ConfigFacts.PythonVersionFromPoetry | src/compliance_checker/check_python_project_standards.py:218-249 | when `[project]` declares no `requires-python`, `tool.poetry.dependencies.python` is graded the same way, and a missing entry counts as the empty requirement |
| ConfigFacts.PythonVersionMissing | src/compliance_checker/check_python_project_standards.py:218-227 | a file in which neither `[project]` nor `[tool.poetry.dependencies]` declares a Python requirement fails at error |
| ConfigFacts.ProjectVersionWins | src/compliance_checker/check_python_project_standards.py:217-223 | `[project] requires-python` takes precedence: `[tool]` cannot change the verdict |
| ConfigFacts.NumericPythonVersionRaises | src/compliance_checker/check_python_project_standards.py:230 | a numeric requirement raises `TypeError` |
| ConfigFacts.NotUsingPoetry | src/compliance_checker/check_python_project_standards.py:260-263 | a project without `[tool.poetry]` gets one failing warning and nothing else |
| ConfigFacts.FirstPoetryEntryWins | src/compliance_checker/check_python_project_standards.py:298-308 | the first requirement naming Poetry decides; the entries after it are never looked at |
| ConfigFacts.Strs | src/compliance_checker/check_python_project_standards.py:297 | a list of strings becomes a TOML array of those strings, element by element |
| ConfigFacts.RequiresPoetryWins | src/compliance_checker/check_python_project_standards.py:283-296 | `requires-poetry` takes precedence over `build-system`; the record passes exactly when it names Poetry 2 |
| ConfigFacts.BuildSystemDecides | src/compliance_checker/check_python_project_standards.py:295-308 | without `requires-poetry`, the first Poetry entry of `build-system.requires` decides the record |
| ConfigFacts.NoPoetryEntry | src/compliance_checker/check_python_project_standards.py:295-311 | without `requires-poetry`, a `build-system.requires` list (or a missing one) with no entry naming Poetry gives a failing warning |
| ConfigFacts.NoBuildSystem | src/compliance_checker/check_python_project_standards.py:295-311 | without `requires-poetry` and without `[build-system]`, the version record fails at warning |
| ConfigFacts.PluginRecords | src/compliance_checker/check_python_project_standards.py:267-278 | a numeric `requires-plugins` value makes the check raise; any other value yields three plugin records and the version record, each plugin passing exactly when `plugin in plugins` holds: a key of a table, an element of a list |
| ConfigFacts.NoPluginRecords | src/compliance_checker/check_python_project_standards.py:267 | without `requires-plugins` the only record is the version record |
| ConfigFacts.RuffWinsOverBlack | src/compliance_checker/check_python_project_standards.py:328-347 | with Ruff configured, a `[tool.black]` section changes nothing |
| ConfigFacts.RuffRecords | src/compliance_checker/check_python_project_standards.py:328-342 | Ruff passes exactly when its target names py313 or py312; the line-length record appears exactly when `line-length` is 120; the quote-style record appears exactly when `[tool.ruff.format]` exists and has `quote-style` |
| ConfigFacts.NoRuff | src/compliance_checker/check_python_project_standards.py:347-354 | without Ruff the linter record fails: a warning under Black, an error otherwise |
| ConfigFacts.PyrightRecord | src/compliance_checker/check_python_project_standards.py:357-373 | `[tool.pyright]` wins over `[tool.basedpyright]`, and passes exactly when its Python version mentions 3.13 |
| ConfigFacts.BasedPyrightRecord | src/compliance_checker/check_python_project_standards.py:357-373 | without pyright, `[tool.basedpyright]` is graded the same way |
| ConfigFacts.NoPyright | src/compliance_checker/check_python_project_standards.py:374-377 | with neither pyright flavour the type-checker record fails at warning, whether or not mypy is present |
| ConfigFacts.TestingRecords | src/compliance_checker/check_python_project_standards.py:390-405 | with pytest, the framework passes, and coverage passes exactly when `[tool.coverage]` exists or `addopts` mentions `--cov` |
| ConfigFacts.NoPytest | src/compliance_checker/check_python_project_standards.py:406-407 | without pytest the only record is a failing framework record at error |
| ConfigFacts.ProjectKeywordsWin | src/compliance_checker/check_python_project_standards.py:419-424 | `[project]` keywords take precedence: `[tool]` cannot change the verdict |
| ConfigFacts.KeywordsRecord | src/compliance_checker/check_python_project_standards.py:420-438 | a keyword list passes exactly when one entry is a required keyword, at info, and fails at error otherwise |
| ConfigFacts.PoetryKeywordsRecord | src/compliance_checker/check_python_project_standards.py:422-438 | without `[project]`, a `[tool.poetry]` keyword list passes exactly when one entry is a required keyword |
| ConfigFacts.NoKeywordsDeclared | src/compliance_checker/check_python_project_standards.py:417-438 | with neither `[project]` nor `[tool.poetry]` the keyword record fails at error |
| ConfigFacts.PluginChecksTotal | src/compliance_checker/check_python_project_standards.py:270-271 | a searchable plugin collection never makes the plugin records raise |
| ConfigFacts.RequirementsTotal | src/compliance_checker/check_python_project_standards.py:298-299 | a requirement list of strings never makes the scan raise |
| ConfigFacts.PythonVersionTotal | src/compliance_checker/check_python_project_standards.py:212-249 | the Python-version check never raises on a conventionally shaped file |
| ConfigFacts.PoetryTotal | src/compliance_checker/check_python_project_standards.py:252-313 | the Poetry check never raises on a conventionally shaped file |
| ConfigFacts.CodeQualityTotal | src/compliance_checker/check_python_project_standards.py:316-379 | the code-quality check never raises on a conventionally shaped file |
| ConfigFacts.TestingTotal | src/compliance_checker/check_python_project_standards.py:382-409 | the testing check never raises on a conventionally shaped file |
| ConfigFacts.KeywordsTotal | src/compliance_checker/check_python_project_standards.py:412-438 | the keyword check never raises on a conventionally shaped file |
| ConfigFacts.WellShapedNeverRaises | src/compliance_checker/check_python_project_standards.py:458-478 | on a conventionally shaped file the standard checks always produce their records |
| ConfigFacts.EmptyConfigRecords | src/compliance_checker/check_python_project_standards.py:458-478 | with no `pyproject.toml` the run yields six failing error records, in the fixed order |
| ConfigFacts.EmptyConfigFails | src/compliance_checker/check_python_project_standards.py:1050-1073 | a repository with no `pyproject.toml` and no other records scores 0 and exits 1 |
| ConfigFacts.NoneSucceed | src/compliance_checker/check_python_project_standards.py:113-115 | a list of failing records has no passed records |
| RepoSpec.OwnerRepoAfterIff | src/compliance_checker/check_python_project_standards.py:940-942 | each prefixed pattern matches exactly when the argument is the prefix, a `[\w-]+` owner, `/` and a word character |
| RepoSpec.BareOwnerRepoIff | src/compliance_checker/check_python_project_standards.py:943 | the bare pattern matches exactly when the argument is `[\w-]+/[\w-]+`, with at most one trailing newline |
| RepoSpec.WordEndAt | src/compliance_checker/check_python_project_standards.py:940-943 | a greedy `[\w-]+` run ends at the first character outside the class |
| RepoSpec.DetermineRepositoryType | src/compliance_checker/check_python_project_standards.py:936-950 | the result is GitHub exactly for the four recognised shapes, and local for everything else |
| RepoSpec.RemoveUrlPrefixes | src/compliance_checker/check_python_project_standards.py:775-777 | removing the URL prefixes never lengthens the argument and introduces no character |
| RepoSpec.CleanRepoSpec | src/compliance_checker/check_python_project_standards.py:775-781 | the cleaned argument is no longer than the input, holds only its characters, and has no `/` at either end |
| RepoSpec.FirstTwoSegments | src/compliance_checker/check_python_project_standards.py:783-788 | a string without `/` raises `ValueError`; otherwise the result has exactly one `/` and is a prefix of the input that ends at a `/` or at the end |
| RepoSpec.JoinedOneSlash | src/compliance_checker/check_python_project_standards.py:788 | rejoining two slash-free pieces gives a string with exactly one `/` |
| RepoSpec.ParseRepoSpecAsWritten | src/compliance_checker/check_python_project_standards.py:772-788 | as written, the parser raises `ValueError` exactly when the argument, with prefixes and every `.git` removed and `/` stripped from both ends, holds no `/`; otherwise it returns a string with exactly one `/` |
| RepoSpec.TrimGitSuffix | src/compliance_checker/check_python_project_standards.py:778 | a string that does not end in `.git` is kept; otherwise at least the suffix goes; no character is added |
| RepoSpec.ParseRepoSpec | src/compliance_checker/check_python_project_standards.py:772-788 | corrected: it raises exactly when the cleaned argument has no `/`, and returns `owner/repo` with one `/` |
| RepoSpecFacts.UrlFormsAreGitHub | src/compliance_checker/check_python_project_standards.py:940-942 | every URL form followed by an owner and a repository name is classified GitHub |
| RepoSpecFacts.BareFormIsGitHub | src/compliance_checker/check_python_project_standards.py:943 | a bare `owner/repo` is classified GitHub |
| RepoSpecFacts.PathsAreLocal | src/compliance_checker/check_python_project_standards.py:946-950 | an argument that does not start with a word character is local |
| RepoSpecFacts.NoSlashIsLocal | src/compliance_checker/check_python_project_standards.py:936-950 | an argument without `/` is local |
| RepoSpecFacts.PrefixesRemoved | src/compliance_checker/check_python_project_standards.py:775-777 | each URL form loses exactly its prefix and leaves `owner/name` |
| RepoSpecFacts.HttpsPrefixRemoved | src/compliance_checker/check_python_project_standards.py:775-777 | `https://github.com/owner/name` becomes `owner/name` |
| RepoSpecFacts.HttpPrefixRemoved | src/compliance_checker/check_python_project_standards.py:775-777 | `http://github.com/owner/name` becomes `owner/name` |
| RepoSpecFacts.SshPrefixRemoved | src/compliance_checker/check_python_project_standards.py:775-777 | `git@github.com:owner/name` becomes `owner/name` |
| RepoSpecFacts.HostPrefixRemoved | src/compliance_checker/check_python_project_standards.py:775-777 | `github.com/owner/name` becomes `owner/name` |
| RepoSpecFacts.BarePrefixRemoved | src/compliance_checker/check_python_project_standards.py:775-777 | a bare `owner/name` passes the prefix removal unchanged |
| RepoSpecFacts.FirstTwoOfOwnerRepo | src/compliance_checker/check_python_project_standards.py:783-788 | `owner/repo` is validated and returned unchanged |
| RepoSpecFacts.StripOwnerRepo | src/compliance_checker/check_python_project_standards.py:781 | stripping `/` leaves `owner/repo` alone |
| RepoSpecFacts.GitRemovedAsWritten | src/compliance_checker/check_python_project_standards.py:778 | for a `[\w-]` name, the `.git` removal turns `owner/repo.git` and `owner/repo` into `owner/repo` |
| RepoSpecFacts.ParseAsWrittenRoundTrip | src/compliance_checker/check_python_project_standards.py:772-788 | as written, every URL form of `owner/repo`, with or without `.git`, reads back as `owner/repo` when the name is `[\w-]+` |
| RepoSpecFacts.DropGitSuffix | src/compliance_checker/check_python_project_standards.py:778 | the corrected trimming turns `owner/name.git` into `owner/name` |
| RepoSpecFacts.TrimOwnerRepo | src/compliance_checker/check_python_project_standards.py:778 | the corrected trimming of `owner/name` plus an optional `.git` gives `owner/name` |
| RepoSpecFacts.CleanedFromBody | src/compliance_checker/check_python_project_standards.py:775-781 | once the URL prefix is gone, corrected cleaning leaves `owner/name` |
| RepoSpecFacts.ParseRoundTrip | src/compliance_checker/check_python_project_standards.py:772-788 | corrected: every URL form of `owner/name`, with or without `.git`, reads back as `owner/name` for any `[\w.-]` name not ending in `.git` |
| RepoSpecFacts.InnerGitRemovedAsWritten | src/compliance_checker/check_python_project_standards.py:778 | as written, a `.git` inside the repository name is deleted too |
| RepoSpecFacts.InnerGitParsedAsWritten | src/compliance_checker/check_python_project_standards.py:772-788 | as written, every URL form of `owner/a.gitb` reads back as `owner/ab` |
| RepoSpecFacts.InnerGitParsed | src/compliance_checker/check_python_project_standards.py:772-788 | corrected: every URL form of `owner/a.gitb` reads back with the name intact |
| RepoSpecFacts.DottedRepoMangled | src/compliance_checker/check_python_project_standards.py:778 | `https://github.com/owner/site.github.io` reads back as `owner/sitehub.io` as written, and as `owner/site.github.io` when corrected |
| TestCases.CurrentPythonCase | tests/test_compliance_checker.py:69-73 | `>=3.13` passes at info |
| TestCases.AcceptablePythonCase | tests/test_compliance_checker.py:75-79 | `>=3.12` fails at warning |
| TestCases.OldPythonCase | tests/test_compliance_checker.py:81-85 | `>=3.9` fails at error |
| TestCases.PoetryTwoCase | tests/test_compliance_checker.py:92-96 | `requires-poetry = ">=2.1"` gives a passing Poetry record |
| TestCases.NoPoetryCase | tests/test_compliance_checker.py:98-102 | an empty `[tool]` gives a failing Poetry record |
| TestCases.CodeQualityCase | tests/test_compliance_checker.py:109-126 | Ruff py313 with line length 120 and pyright 3.13 pass the linter, line-length and type-checker records |
| TestCases.TestingCases | tests/test_compliance_checker.py:133-152 | pytest with `--cov` and coverage passes both records; pytest alone passes the framework and fails coverage |
| TestCases.ScoreFiftyCase | src/compliance_checker/check_python_project_standards.py:970-976 | one passing and one failing record count 1 and 1, score 50 and exit 1 |
| TestCases.HttpsCase | tests/test_compliance_checker.py:159 | the https URL is classified GitHub |
| TestCases.HttpCase | tests/test_compliance_checker.py:160 | the http URL is classified GitHub |
| TestCases.SshCase | tests/test_compliance_checker.py:161 | the SSH clone URL is classified GitHub |
| TestCases.BareCase | tests/test_compliance_checker.py:162 | bare `owner/repo` is classified GitHub |
| TestCases.PathCases | tests/test_compliance_checker.py:163-164 | absolute and relative paths are local |
| TestCases.WindowsPathCase | tests/test_compliance_checker.py:165 | a Windows path is local |

## Left out

- Record messages: `ComplianceCheck.message` is display text only, and no check or score reads it.
- TOML parsing: the model starts from the parsed dictionary. Floats, dates and times are not `Value` constructors. Where the code applies `in` to them, they raise like a number.
- ConfigChecks.LinterChecks: `line-length == 120` also holds for the float `120.0` in Python, so `line-length = 120.0` passes there. The model has no floats, so it cannot express that case.
- The local and GitHub checkers: `LocalChecker`, `GitHubChecker`, `check_additional_files`, `check_repository_topics` and authentication read files, run `gh` and use the network. They are left out. Their records would be appended by `Compliance.AddChecks` like the standard ones.
- The `GitHubChecker` constructor runs before `main`'s `try`, so an authentication failure there ends the run with Python's default status 1. `Compliance.ExitCode` covers only what happens inside the `try`.
- Report rendering: `print_report`, `to_dict`, the JSON and text output files, and the emoji fallback for terminals that cannot encode them.
- The built-in test runner: `run_embedded_tests` and the `--test` flag. Its report-score scenario is stated as `Compliance.HalfPassedScoresFifty`.
- Argument parsing, and `main`'s `parser.error` for a missing argument.
- RepoSpec.WordChar: reads `\w` as ASCII letters, digits and `_`. Python's `\w` also matches non-ASCII letters and digits.
- PyStrings.Lower: lower-cases ASCII letters only. Python's `lower()` also maps non-ASCII capitals. Those that lower to ASCII (the Kelvin sign to `k`, the dotted capital I to `i` plus a combining dot) give no letter of `poetry`, so `'poetry' in req.lower()` is decided exactly.
- ConfigChecks.PoetryRequirement: when `build-system.requires` is a TOML table, Python iterates its keys in document order and the first key naming Poetry decides. A Dafny map keeps no order, so the model passes when any key naming Poetry asks for Poetry 2. The two agree when at most one key names Poetry.
- PyValues.TextMentions: decides `pat in str(addopts)` element by element for a list or table, in the raw text of each element. Python searches the rendered text, where strings are quoted and escaped, so `str(['\n'])` contains `n` while the raw element does not. The two agree only for a pattern of printable characters with no quote, comma, colon, bracket, brace, space or backslash whose first character is neither a letter nor a digit, such as `--cov`: a match can then neither start inside an escape sequence nor run past one element's text.
- ConfigChecks.TypeCheckerCheck: mypy and "no type checker" give the same failing warning. They differ only in the message, which is not modelled.

## Findings

| source | as written | input that shows it | evidently intended | confidence | as-written member | corrected member |
|---|---|---|---|---|---|---|
| src/compliance_checker/check_python_project_standards.py:778 | `repo_spec.replace('.git', '')` deletes every `.git` in the argument, including one inside the repository name | `https://github.com/owner/site.github.io` is parsed to `owner/sitehub.io`, and the checker then queries a repository that does not exist | drop `.git` only as the clone-URL suffix, giving `owner/site.github.io` | not executed | RepoSpecFacts.DottedRepoMangled, RepoSpecFacts.InnerGitParsedAsWritten | RepoSpec.ParseRepoSpec, RepoSpecFacts.InnerGitParsed, RepoSpecFacts.ParseRoundTrip |
