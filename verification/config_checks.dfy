/**
 The per-concern checks over the parsed `pyproject.toml` (check_python_version,
 check_poetry_configuration, check_code_quality_tools, check_testing_configuration,
 check_repository_keywords) and `run_standard_checks`, which runs them in a fixed
 order. Every Python operation that can raise on an ill-typed node goes through
 `PyValues`, so a crash of the source is a `Raised` result here.
 */
module ConfigChecks {
  import opened PyStrings
  import opened PyValues
  import opened Compliance

  const CurrentPythonVersion := "3.13"
  const AcceptablePythonVersion := "3.12"

  const Configuration := "Configuration"
  const CodeQuality := "Code Quality"
  const Testing := "Testing"

  const PythonVersionName := "Python Version"
  const PoetryVersionName := "Poetry Version"
  const PoetryPluginPrefix := "Poetry Plugin: "
  const LinterName := "Linter/Formatter"
  const LineLengthName := "Line Length"
  const QuoteStyleName := "Quote Style"
  const TypeCheckerName := "Type Checker"
  const TestFrameworkName := "Test Framework"
  const TestCoverageName := "Test Coverage"
  const KeywordsName := "Repository Keywords"

  const RequiredPlugins := ["poetry-plugin-export", "poetry-plugin-shell", "ld-poetry-export-group-plugin"]
  const RequiredKeywords := ["python-lib", "python-stack", "python-app", "python-shared", "composite-app"]

  /** A passing record is reported at severity info, a failing one at `failure`. */
  function Verdict(name: string, category: string, passed: bool, failure: Severity): Check
  {
    Check(name, category, passed, if passed then Info else failure)
  }

  /** Number of records carrying `name`. */
  function NameCount(checks: seq<Check>, name: string): nat
  {
    if |checks| == 0 then 0
    else (if checks[0].name == name then 1 else 0) + NameCount(checks[1..], name)
  }

  // ---------------------------------------------------------------- Python version

  /** Grades a declared Python requirement: mentions 3.13 passes, 3.12 warns, else error. */
  function GradePythonVersion(version: Value): (r: Result<Check>)
    ensures r.Raised? <==> version.Int? || version.Bool?
    ensures r.Ok? ==> r.value.name == PythonVersionName && r.value.category == Configuration
    ensures r.Ok? ==> (r.value.passed <==> In(CurrentPythonVersion, version) == Ok(true))
    ensures r.Ok? ==> (r.value.severity == Warning <==>
      !r.value.passed && In(AcceptablePythonVersion, version) == Ok(true))
    ensures r.Ok? ==> (r.value.passed <==> r.value.severity == Info)
  {
    var current :- In(CurrentPythonVersion, version);
    if current then Ok(Verdict(PythonVersionName, Configuration, true, Error))
    else
      var acceptable :- In(AcceptablePythonVersion, version);
      Ok(Verdict(PythonVersionName, Configuration, false, if acceptable then Warning else Error))
  }

  /** `'tool' in config and 'poetry' in config['tool'] and 'dependencies' in config['tool']['poetry']` */
  function HasPoetryDependencies(config: Config): (r: Result<bool>)
    ensures "tool" !in config ==> r == Ok(false)
    ensures r == Ok(true) ==>
      "tool" in config && config["tool"].Table? && "poetry" in config["tool"].fields
      && In("dependencies", config["tool"].fields["poetry"]) == Ok(true)
    ensures ("tool" in config && config["tool"].Table? && "poetry" in config["tool"].fields
             && config["tool"].fields["poetry"].Table?) ==>
      r == Ok("dependencies" in config["tool"].fields["poetry"].fields)
  {
    if "tool" !in config then Ok(false)
    else
      var hasPoetry :- In("poetry", config["tool"]);
      if !hasPoetry then Ok(false)
      else
        var poetry :- Index(config["tool"], "poetry");
        In("dependencies", poetry)
  }

  /** check_python_version */
  function CheckPythonVersion(config: Config): (r: Result<Check>)
    ensures r.Ok? ==> r.value.name == PythonVersionName && r.value.category == Configuration
    ensures r.Ok? ==> (r.value.passed <==> r.value.severity == Info)
    ensures |config| == 0 ==> r == Ok(Check(PythonVersionName, Configuration, false, Error))
  {
    if |config| == 0 then Ok(Verdict(PythonVersionName, Configuration, false, Error))
    else
      var inProject :- if "project" in config then In("requires-python", config["project"]) else Ok(false);
      if inProject then
        var version :- Index(config["project"], "requires-python");
        GradePythonVersion(version)
      else
        var inPoetry :- HasPoetryDependencies(config);
        if inPoetry then
          var poetry :- Index(config["tool"], "poetry");
          var deps :- Index(poetry, "dependencies");
          var version :- Get(deps, "python", Str(""));
          GradePythonVersion(version)
        else Ok(Verdict(PythonVersionName, Configuration, false, Error))
  }

  // ---------------------------------------------------------------- Poetry

  /** `'>=2.1' in v or '>=2.0' in v or '^2' in v`, evaluated left to right. */
  function IsPoetryTwo(version: Value): (r: Result<bool>)
    ensures r.Raised? <==> version.Int? || version.Bool?
    ensures version.Str? ==> r == Ok(IsPoetryTwoText(version.s))
    ensures version.Array? ==>
      r == Ok(Str(">=2.1") in version.items || Str(">=2.0") in version.items || Str("^2") in version.items)
  {
    var a :- In(">=2.1", version);
    if a then Ok(true)
    else
      var b :- In(">=2.0", version);
      if b then Ok(true) else In("^2", version)
  }

  /** The same test on a requirement string, which cannot raise. */
  predicate IsPoetryTwoText(req: string)
  {
    InStr(">=2.1", req) || InStr(">=2.0", req) || InStr("^2", req)
  }

  /** A requirement string names Poetry (`'poetry' in req.lower()`). */
  predicate MentionsPoetry(req: string)
  {
    InStr("poetry", Lower(req))
  }

  /** The Poetry test ignores case: lower-casing a requirement first does not
      change whether it names Poetry, and a literal `poetry` always does. */
  lemma MentionsPoetryIgnoresCase(req: string)
    ensures MentionsPoetry(Lower(req)) <==> MentionsPoetry(req)
    ensures Occurs("poetry", req) ==> MentionsPoetry(req)
  {
    LowerIdempotent(req);
    assert forall j | 0 <= j < |"poetry"| :: !('A' <= "poetry"[j] <= 'Z');
    LowerKeepsOccurrence("poetry", req);
  }

  /** Whether a requirement entry named Poetry, and if so whether it asks for Poetry 2. */
  datatype Decision = Undecided | Decided(passes: bool)

  /** Scans the `build-system.requires` entries in order: the first entry naming
      Poetry decides; `Undecided` when no entry names it. An entry
      that is not a string raises on `.lower()`. */
  function FirstPoetryRequirement(items: seq<Value>): (r: Result<Decision>)
    ensures r == Ok(Undecided) <==> forall j | 0 <= j < |items| :: items[j].Str? && !MentionsPoetry(items[j].s)
    decreases |items|
  {
    if |items| == 0 then Ok(Undecided)
    else match items[0]
      case Str(s) =>
        if MentionsPoetry(s) then Ok(Decided(IsPoetryTwoText(s)))
        else
          assert forall j | 1 <= j < |items| :: items[j] == items[1..][j - 1];
          FirstPoetryRequirement(items[1..])
      case _ => Raised(AttributeError)
  }

  /** Entry `i` is the first that names Poetry, and every entry before it is a string. */
  predicate FirstNamingPoetry(items: seq<Value>, i: int)
  {
    && 0 <= i < |items| && items[i].Str? && MentionsPoetry(items[i].s)
    && forall j | 0 <= j < i :: items[j].Str? && !MentionsPoetry(items[j].s)
  }

  /** When the scan decides, it is the first entry naming Poetry that decides. */
  lemma {:induction false} FirstPoetryRequirementDecides(items: seq<Value>)
    requires FirstPoetryRequirement(items).Ok? && FirstPoetryRequirement(items).value.Decided?
    ensures exists i ::
      FirstNamingPoetry(items, i) && FirstPoetryRequirement(items).value.passes == IsPoetryTwoText(items[i].s)
    decreases |items|
  {
    var r := FirstPoetryRequirement(items);
    if MentionsPoetry(items[0].s) {
      assert FirstNamingPoetry(items, 0);
    } else {
      var rest := items[1..];
      assert r == FirstPoetryRequirement(rest);
      FirstPoetryRequirementDecides(rest);
      var i :| FirstNamingPoetry(rest, i) && r.value.passes == IsPoetryTwoText(rest[i].s);
      FirstNamingShifts(items, i);
    }
  }

  /** A string not naming Poetry in front moves the first naming entry one place on. */
  lemma FirstNamingShifts(items: seq<Value>, i: int)
    requires |items| > 0 && items[0].Str? && !MentionsPoetry(items[0].s)
    requires FirstNamingPoetry(items[1..], i)
    ensures FirstNamingPoetry(items, i + 1) && items[i + 1] == items[1..][i]
  {
    assert forall j | 1 <= j < i + 1 :: items[j] == items[1..][j - 1];
  }

  /** `for req in requires` over whatever `build-system.requires` holds: a list's
      elements, a string's characters, a table's keys; a number raises. */
  function PoetryRequirement(reqs: Value): (r: Result<Decision>)
    ensures reqs.Int? || reqs.Bool? ==> r == Raised(TypeError)
    ensures reqs.Array? ==> r == FirstPoetryRequirement(reqs.items)
    ensures reqs.Str? ==> r == Ok(Undecided)
    ensures reqs.Table? ==> r.Ok? && (r.value.Decided? <==> exists k | k in reqs.fields :: MentionsPoetry(k))
  {
    match reqs
    case Array(items) => FirstPoetryRequirement(items)
    case Str(s) =>
      // a one-character entry is too short to name Poetry
      var chars := seq(|s|, i requires 0 <= i < |s| => Str([s[i]]));
      assert forall j | 0 <= j < |chars| :: chars[j].Str? && |Lower(chars[j].s)| == 1;
      FirstPoetryRequirement(chars)
    case Table(m) =>
      // the source takes the first key in document order; a map keeps no order
      var named := set k | k in m && MentionsPoetry(k);
      assert forall k | k in m && MentionsPoetry(k) :: k in named;
      if named == {} then Ok(Undecided)
      else Ok(Decided(exists k | k in named :: IsPoetryTwoText(k)))
    case _ => Raised(TypeError)
  }

  /** One record per required plugin, passing iff `plugin in plugins`. */
  function PluginChecks(plugins: Value, names: seq<string>): (r: Result<seq<Check>>)
    ensures r.Ok? ==> |r.value| == |names|
    ensures r.Ok? ==> forall i | 0 <= i < |names| ::
      && r.value[i].name == PoetryPluginPrefix + names[i]
      && r.value[i].category == Configuration
      && (r.value[i].passed <==> In(names[i], plugins) == Ok(true))
      && r.value[i].severity == (if r.value[i].passed then Info else Warning)
    decreases |names|
  {
    if |names| == 0 then Ok([])
    else
      var listed :- In(names[0], plugins);
      var rest :- PluginChecks(plugins, names[1..]);
      Ok([Verdict(PoetryPluginPrefix + names[0], Configuration, listed, Warning)] + rest)
  }

  /** The "Poetry Version" record: `requires-poetry` first, else the first Poetry
      entry of `build-system.requires`, else a failing warning. */
  function PoetryVersionCheck(config: Config, poetry: Value): (r: Result<Check>)
    ensures r.Ok? ==> r.value.name == PoetryVersionName && r.value.category == Configuration
    ensures r.Ok? ==> r.value.severity == (if r.value.passed then Info else Warning)
  {
    var hasRequirement :- In("requires-poetry", poetry);
    if hasRequirement then
      var version :- Index(poetry, "requires-poetry");
      var ok :- IsPoetryTwo(version);
      Ok(Verdict(PoetryVersionName, Configuration, ok, Warning))
    else if "build-system" in config then
      var reqs :- Get(config["build-system"], "requires", Array([]));
      var found :- PoetryRequirement(reqs);
      Ok(Verdict(PoetryVersionName, Configuration, found.Decided? && found.passes, Warning))
    else Ok(Verdict(PoetryVersionName, Configuration, false, Warning))
  }

  /** check_poetry_configuration */
  function CheckPoetryConfiguration(config: Config): (r: Result<seq<Check>>)
    ensures r.Ok? ==> |r.value| == 1 || |r.value| == 1 + |RequiredPlugins|
    ensures r.Ok? ==> r.value[|r.value| - 1].name == PoetryVersionName
    ensures r.Ok? ==> NameCount(r.value, PoetryVersionName) == 1
    ensures r.Ok? ==> forall i | 0 <= i < |r.value| :: r.value[i].category == Configuration
    ensures r.Ok? ==> forall i | 0 <= i < |r.value| :: r.value[i].passed ==> r.value[i].severity == Info
    ensures |config| == 0 ==> r == Ok([Check(PoetryVersionName, Configuration, false, Error)])
    ensures r.Ok? ==> (|r.value| == 1 + |RequiredPlugins| <==>
      && "tool" in config && config["tool"].Table? && "poetry" in config["tool"].fields
      && In("requires-plugins", config["tool"].fields["poetry"]) == Ok(true))
  {
    if |config| == 0 then Ok([Verdict(PoetryVersionName, Configuration, false, Error)])
    else
      var usesPoetry :- if "tool" in config then In("poetry", config["tool"]) else Ok(false);
      if !usesPoetry then Ok([Verdict(PoetryVersionName, Configuration, false, Warning)])
      else
        var poetry :- Index(config["tool"], "poetry");
        PoetrySectionChecks(config, poetry)
  }

  /** The records for a `[tool.poetry]` section: one per required plugin when it
      lists `requires-plugins`, then the "Poetry Version" record. */
  function PoetrySectionChecks(config: Config, poetry: Value): (r: Result<seq<Check>>)
    ensures r.Ok? ==> |r.value| == 1 || |r.value| == 1 + |RequiredPlugins|
    ensures r.Ok? ==> (|r.value| == 1 + |RequiredPlugins| <==> In("requires-plugins", poetry) == Ok(true))
    ensures r.Ok? ==> r.value[|r.value| - 1].name == PoetryVersionName
    ensures r.Ok? ==> NameCount(r.value, PoetryVersionName) == 1
    ensures r.Ok? ==> forall i | 0 <= i < |r.value| :: r.value[i].category == Configuration
    ensures r.Ok? ==> forall i | 0 <= i < |r.value| :: r.value[i].passed ==> r.value[i].severity == Info
  {
    var hasPlugins :- In("requires-plugins", poetry);
    var plugins :- if hasPlugins then
                     var listed :- Index(poetry, "requires-plugins");
                     PluginChecks(listed, RequiredPlugins)
                   else Ok([]);
    var version :- PoetryVersionCheck(config, poetry);
    PluginNamesDiffer(plugins);
    Ok(plugins + [version])
  }

  /** Plugin record names never clash with "Poetry Version"; the version record,
      appended last, is therefore the only one of its name. */
  lemma PluginNamesDiffer(plugins: seq<Check>)
    ensures (forall i | 0 <= i < |plugins| :: |plugins[i].name| > |PoetryVersionName|) ==>
      forall v: Check | v.name == PoetryVersionName :: NameCount(plugins + [v], PoetryVersionName) == 1
  {
    if forall i | 0 <= i < |plugins| :: |plugins[i].name| > |PoetryVersionName| {
      forall v: Check | v.name == PoetryVersionName
        ensures NameCount(plugins + [v], PoetryVersionName) == 1
      {
        NameCountAbsentThenOne(plugins, v, PoetryVersionName);
      }
    }
  }

  lemma {:induction false} NameCountAbsentThenOne(cs: seq<Check>, v: Check, name: string)
    requires forall i | 0 <= i < |cs| :: cs[i].name != name
    requires v.name == name
    ensures NameCount(cs + [v], name) == 1
    decreases |cs|
  {
    if |cs| == 0 {
      assert cs + [v] == [v];
    } else {
      assert (cs + [v])[1..] == cs[1..] + [v];
      NameCountAbsentThenOne(cs[1..], v, name);
    }
  }

  // ---------------------------------------------------------------- Code quality

  /** The "Linter/Formatter" record plus the optional ruff extras. */
  function LinterChecks(tool: Value): (r: Result<seq<Check>>)
    ensures r.Ok? ==> 1 <= |r.value| <= 3 && r.value[0].name == LinterName
    ensures r.Ok? ==> forall i | 1 <= i < |r.value| ::
      (r.value[i].name == LineLengthName || r.value[i].name == QuoteStyleName) && r.value[i].passed
    ensures r.Ok? && |r.value| > 1 ==> In("ruff", tool) == Ok(true)
    ensures r.Ok? ==> forall i | 0 <= i < |r.value| :: r.value[i].category == CodeQuality
  {
    var hasRuff :- In("ruff", tool);
    if hasRuff then
      var ruff :- Index(tool, "ruff");
      RuffChecks(ruff)
    else
      var hasBlack :- In("black", tool);
      Ok([Verdict(LinterName, CodeQuality, false, if hasBlack then Warning else Error)])
  }

  /** The records for a `[tool.ruff]` section: the linter record, passing when the
      target names py313 or py312, then "Line Length" when it is 120 and
      "Quote Style" when `format.quote-style` is set. */
  function RuffChecks(ruff: Value): (r: Result<seq<Check>>)
    ensures r.Ok? ==> 1 <= |r.value| <= 3 && r.value[0].name == LinterName
    ensures r.Ok? ==> forall i | 1 <= i < |r.value| ::
      (r.value[i].name == LineLengthName || r.value[i].name == QuoteStyleName) && r.value[i].passed
    ensures r.Ok? ==> forall i | 0 <= i < |r.value| :: r.value[i].category == CodeQuality
  {
    var target :- Get(ruff, "target-version", Str(""));
    var py313 :- In("py313", target);
    var modern :- if py313 then Ok(true) else In("py312", target);
    var hasLength :- In("line-length", ruff);
    var lengthOk :- if hasLength then
                      var length :- Index(ruff, "line-length");
                      Ok(length == Int(120))
                    else Ok(false);
    var hasFormat :- In("format", ruff);
    var quoteStyle :- if hasFormat then
                        var format :- Index(ruff, "format");
                        In("quote-style", format)
                      else Ok(false);
    Ok([Verdict(LinterName, CodeQuality, modern, Warning)]
       + (if lengthOk then [Check(LineLengthName, CodeQuality, true, Info)] else [])
       + (if quoteStyle then [Check(QuoteStyleName, CodeQuality, true, Info)] else []))
  }

  /** The "Type Checker" record: pyright or basedpyright first, then mypy. */
  function TypeCheckerCheck(tool: Value): (r: Result<Check>)
    ensures r.Ok? ==> r.value.name == TypeCheckerName && r.value.category == CodeQuality
    ensures r.Ok? ==> r.value.severity == (if r.value.passed then Info else Warning)
  {
    var hasPyright :- In("pyright", tool);
    var anyPyright :- if hasPyright then Ok(true) else In("basedpyright", tool);
    if anyPyright then
      // tool.get('pyright', tool.get('basedpyright', {})): the default is evaluated first
      var based :- Get(tool, "basedpyright", EmptyTable);
      var settings :- Get(tool, "pyright", based);
      var pyVersion :- Get(settings, "pythonVersion", Str(""));
      var current :- In(CurrentPythonVersion, pyVersion);
      Ok(Verdict(TypeCheckerName, CodeQuality, current, Warning))
    else
      // mypy and no type checker fail alike; only the message differs
      var _ :- In("mypy", tool);
      Ok(Verdict(TypeCheckerName, CodeQuality, false, Warning))
  }

  /** check_code_quality_tools */
  function CheckCodeQualityTools(config: Config): (r: Result<seq<Check>>)
    ensures r.Ok? ==> 2 <= |r.value| <= 4
    ensures r.Ok? ==> r.value[0].name == LinterName && r.value[|r.value| - 1].name == TypeCheckerName
    ensures r.Ok? ==> NameCount(r.value, LinterName) == 1 && NameCount(r.value, TypeCheckerName) == 1
    ensures r.Ok? ==> forall i | 0 <= i < |r.value| :: r.value[i].category == CodeQuality
    ensures r.Ok? && |r.value| > 2 ==>
      "tool" in config && In("ruff", config["tool"]) == Ok(true)
    ensures |config| == 0 ==> r == Ok([Check(LinterName, CodeQuality, false, Error),
                                       Check(TypeCheckerName, CodeQuality, false, Error)])
  {
    if |config| == 0 then
      var both := [Verdict(LinterName, CodeQuality, false, Error), Verdict(TypeCheckerName, CodeQuality, false, Error)];
      assert both == [both[0]] + [both[1]];
      QualityNames([both[0]], both[1]);
      Ok(both)
    else
      var tool := ConfigGet(config, "tool", EmptyTable);
      var linter :- LinterChecks(tool);
      var typeChecker :- TypeCheckerCheck(tool);
      QualityNames(linter, typeChecker);
      Ok(linter + [typeChecker])
  }

  /** The linter record, its extras and the type-checker record carry each of
      the two main names exactly once. */
  lemma QualityNames(linter: seq<Check>, last: Check)
    requires |linter| >= 1 && linter[0].name == LinterName
    requires forall i | 1 <= i < |linter| :: linter[i].name == LineLengthName || linter[i].name == QuoteStyleName
    requires last.name == TypeCheckerName
    ensures NameCount(linter + [last], LinterName) == 1
    ensures NameCount(linter + [last], TypeCheckerName) == 1
  {
    var all := linter + [last];
    assert all[1..] == linter[1..] + [last];
    ExtrasCount(linter[1..], last);
  }

  /** Counting names over the extras and the final type-checker record. */
  lemma {:induction false} ExtrasCount(extras: seq<Check>, last: Check)
    requires forall i | 0 <= i < |extras| :: extras[i].name == LineLengthName || extras[i].name == QuoteStyleName
    requires last.name == TypeCheckerName
    ensures NameCount(extras + [last], LinterName) == 0
    ensures NameCount(extras + [last], TypeCheckerName) == 1
    decreases |extras|
  {
    if |extras| == 0 {
      assert extras + [last] == [last];
    } else {
      assert (extras + [last])[1..] == extras[1..] + [last];
      ExtrasCount(extras[1..], last);
    }
  }

  // ---------------------------------------------------------------- Testing

  /** check_testing_configuration */
  function CheckTestingConfiguration(config: Config): (r: Result<seq<Check>>)
    ensures r.Ok? ==> 1 <= |r.value| <= 2 && r.value[0].name == TestFrameworkName
    ensures r.Ok? ==> (|r.value| == 2 <==> r.value[0].passed)
    ensures r.Ok? && |r.value| == 2 ==> r.value[1].name == TestCoverageName
    ensures r.Ok? ==> forall i | 0 <= i < |r.value| :: r.value[i].category == Testing
    ensures |config| == 0 ==> r == Ok([Check(TestFrameworkName, Testing, false, Error)])
  {
    if |config| == 0 then Ok([Verdict(TestFrameworkName, Testing, false, Error)])
    else
      var tool := ConfigGet(config, "tool", EmptyTable);
      var hasPytest :- In("pytest", tool);
      if hasPytest then
        var pytest :- Get(tool, "pytest", EmptyTable);
        var hasIni :- In("ini_options", pytest);
        var addopts :- if hasIni then
                         var ini :- Get(pytest, "ini_options", EmptyTable);
                         Get(ini, "addopts", Str(""))
                       else Ok(Str(""));
        var hasCoverage :- In("coverage", tool);
        var covered := hasCoverage || TextMentions(addopts, "--cov");
        Ok([Check(TestFrameworkName, Testing, true, Info), Verdict(TestCoverageName, Testing, covered, Warning)])
      else Ok([Verdict(TestFrameworkName, Testing, false, Error)])
  }

  // ---------------------------------------------------------------- Keywords

  /** `any(kw in REQUIRED_KEYWORDS for kw in keywords)`; iterating a number raises. */
  function HasRequiredKeyword(keywords: Value): (r: Result<bool>)
    ensures r.Raised? <==> keywords.Int? || keywords.Bool?
    ensures keywords.Array? ==> r == Ok(exists k | k in RequiredKeywords :: Str(k) in keywords.items)
    ensures keywords.Table? ==> r == Ok(exists k | k in RequiredKeywords :: k in keywords.fields)
    ensures keywords.Str? ==> r == Ok(false)
  {
    match keywords
    case Array(items) => Ok(exists i | 0 <= i < |items| :: items[i].Str? && items[i].s in RequiredKeywords)
    case Str(s) =>
      // iterating a string gives one-character strings, and every required keyword is longer
      assert forall k | k in RequiredKeywords :: |k| > 1;
      Ok(exists i | 0 <= i < |s| :: [s[i]] in RequiredKeywords)
    case Table(m) => Ok(exists k | k in m :: k in RequiredKeywords)
    case _ => Raised(TypeError)
  }

  /** The keyword list: `[project]` first, else `[tool.poetry]`, else none. */
  function DeclaredKeywords(config: Config): (r: Result<Value>)
    ensures ("project" in config && config["project"].Table?) ==>
      r == Ok(if "keywords" in config["project"].fields then config["project"].fields["keywords"] else Array([]))
    ensures ("project" !in config && "tool" in config && config["tool"].Table? && "poetry" in config["tool"].fields
             && config["tool"].fields["poetry"].Table?) ==>
      var poetry := config["tool"].fields["poetry"].fields;
      r == Ok(if "keywords" in poetry then poetry["keywords"] else Array([]))
    ensures ("project" !in config && ("tool" in config ==> config["tool"].Table? && "poetry" !in config["tool"].fields)) ==>
      r == Ok(Array([]))
  {
    if "project" in config then Get(config["project"], "keywords", Array([]))
    else
      var hasPoetry :- if "tool" in config then In("poetry", config["tool"]) else Ok(false);
      if hasPoetry then
        var poetry :- Index(config["tool"], "poetry");
        Get(poetry, "keywords", Array([]))
      else Ok(Array([]))
  }

  /** check_repository_keywords */
  function CheckRepositoryKeywords(config: Config): (r: Result<Check>)
    ensures r.Ok? ==> r.value.name == KeywordsName && r.value.category == Configuration
    ensures r.Ok? ==> r.value.severity == (if r.value.passed then Info else Error)
    ensures |config| == 0 ==> r == Ok(Check(KeywordsName, Configuration, false, Error))
  {
    if |config| == 0 then Ok(Verdict(KeywordsName, Configuration, false, Error))
    else
      var keywords :- DeclaredKeywords(config);
      var has :- HasRequiredKeyword(keywords);
      Ok(Verdict(KeywordsName, Configuration, has, Error))
  }

  // ---------------------------------------------------------------- All of them

  /** `run_standard_checks`: the five concerns in their fixed order. The first
      one that raises aborts the run. */
  function StandardChecks(config: Config): (r: Result<seq<Check>>)
    ensures r.Ok? ==> 6 <= |r.value| <= 12
    ensures r.Ok? ==> r.value[0].name == PythonVersionName && r.value[|r.value| - 1].name == KeywordsName
    ensures r.Ok? <==>
      && CheckPythonVersion(config).Ok? && CheckPoetryConfiguration(config).Ok?
      && CheckCodeQualityTools(config).Ok? && CheckTestingConfiguration(config).Ok?
      && CheckRepositoryKeywords(config).Ok?
  {
    var version :- CheckPythonVersion(config);
    var poetry :- CheckPoetryConfiguration(config);
    var quality :- CheckCodeQualityTools(config);
    var testing :- CheckTestingConfiguration(config);
    var keywords :- CheckRepositoryKeywords(config);
    Ok([version] + poetry + quality + testing + [keywords])
  }

  /** `run_standard_checks` on a report: the records are appended in order. */
  function RunStandardChecks(report: Report, config: Config): (r: Result<Report>)
    ensures r.Ok? <==> StandardChecks(config).Ok?
    ensures r.Ok? ==> r.value.checks == report.checks + StandardChecks(config).value
    ensures r.Ok? ==> r.value == report.(checks := r.value.checks)
  {
    var records :- StandardChecks(config);
    Ok(AddChecks(report, records))
  }
}
