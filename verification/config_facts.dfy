/**
 What the per-concern checks decide, stated against the configuration rather
 than against the order of their branches: which section takes precedence,
 when each record passes, which layouts make a check raise, and what the whole
 run reports on a missing `pyproject.toml`.
 */
module ConfigFacts {
  import opened PyStrings
  import opened PyValues
  import opened Compliance
  import opened ConfigChecks

  /** The severity the Python-version record carries for a declared requirement `v`. */
  function PythonSeverity(v: string): Severity
  {
    if InStr("3.13", v) then Info else if InStr("3.12", v) then Warning else Error
  }

  // ---------------------------------------------------------------- Python version

  /** A `[project]` requirement is graded: it passes exactly when it mentions 3.13,
      and a 3.12-only requirement is a warning rather than an error. */
  lemma PythonVersionFromProject(config: Config, fields: map<string, Value>, v: string)
    requires "project" in config && config["project"] == Table(fields)
    requires "requires-python" in fields && fields["requires-python"] == Str(v)
    ensures CheckPythonVersion(config) ==
      Ok(Check(PythonVersionName, Configuration, Occurs("3.13", v), PythonSeverity(v)))
  {
  }

  /** Without `[project] requires-python`, `tool.poetry.dependencies.python` is
      graded the same way, a missing entry counting as the empty requirement. */
  lemma PythonVersionFromPoetry(config: Config, poetry: map<string, Value>, deps: map<string, Value>, v: string)
    requires "project" in config ==> config["project"].Table? && "requires-python" !in config["project"].fields
    requires "tool" in config && config["tool"].Table? && "poetry" in config["tool"].fields
    requires config["tool"].fields["poetry"] == Table(poetry)
    requires "dependencies" in poetry && poetry["dependencies"] == Table(deps)
    requires if "python" in deps then deps["python"] == Str(v) else v == ""
    ensures CheckPythonVersion(config) ==
      Ok(Check(PythonVersionName, Configuration, Occurs("3.13", v), PythonSeverity(v)))
  {
  }

  /** A file that declares its Python requirement nowhere fails at error severity. */
  lemma PythonVersionMissing(config: Config)
    requires |config| > 0
    requires "project" in config ==> config["project"].Table? && "requires-python" !in config["project"].fields
    requires "tool" in config ==> config["tool"].Table?
    requires "tool" in config && "poetry" in config["tool"].fields ==>
      config["tool"].fields["poetry"].Table? && "dependencies" !in config["tool"].fields["poetry"].fields
    ensures CheckPythonVersion(config) == Ok(Check(PythonVersionName, Configuration, false, Error))
  {
  }

  /** `[project] requires-python` takes precedence: whatever `[tool]` holds, the
      verdict is the same. */
  lemma ProjectVersionWins(config: Config, tool: Value)
    requires "project" in config && config["project"].Table?
    requires "requires-python" in config["project"].fields
    ensures CheckPythonVersion(config["tool" := tool]) == CheckPythonVersion(config)
  {
    var config' := config["tool" := tool];
    assert config'["project"] == config["project"];
  }

  /** A requirement that is a number cannot be searched: the version check raises. */
  lemma NumericPythonVersionRaises(config: Config, n: int)
    requires "project" in config && config["project"].Table?
    requires "requires-python" in config["project"].fields
    requires config["project"].fields["requires-python"] == Int(n)
    ensures CheckPythonVersion(config) == Raised(TypeError)
  {
  }

  // ---------------------------------------------------------------- Poetry

  /** A project that does not use Poetry gets one failing warning and nothing else. */
  lemma NotUsingPoetry(config: Config)
    requires |config| > 0
    requires "tool" in config ==> config["tool"].Table? && "poetry" !in config["tool"].fields
    ensures CheckPoetryConfiguration(config) == Ok([Check(PoetryVersionName, Configuration, false, Warning)])
  {
  }

  /** The first `build-system.requires` entry naming Poetry decides; later ones
      are never looked at. */
  lemma {:induction false} FirstPoetryEntryWins(before: seq<string>, req: string, after: seq<Value>)
    requires forall i | 0 <= i < |before| :: !MentionsPoetry(before[i])
    requires MentionsPoetry(req)
    ensures FirstPoetryRequirement(Strs(before) + [Str(req)] + after) == Ok(Decided(IsPoetryTwoText(req)))
    decreases |before|
  {
    var items := Strs(before) + [Str(req)] + after;
    if |before| == 0 {
      assert items[0] == Str(req);
    } else {
      assert items[0] == Str(before[0]);
      assert items[1..] == Strs(before[1..]) + [Str(req)] + after;
      FirstPoetryEntryWins(before[1..], req, after);
    }
  }

  /** A list of strings as TOML string values. */
  function Strs(xs: seq<string>): (vs: seq<Value>)
    ensures |vs| == |xs| && forall i | 0 <= i < |xs| :: vs[i] == Str(xs[i])
  {
    seq(|xs|, i requires 0 <= i < |xs| => Str(xs[i]))
  }

  /** The "Poetry Version" record when `tool.poetry.requires-poetry` is a string:
      it passes exactly when the string asks for Poetry 2, and `[build-system]`
      is never consulted. */
  lemma RequiresPoetryWins(config: Config, poetry: map<string, Value>, v: string, buildSystem: Value)
    requires "tool" in config && config["tool"].Table? && "poetry" in config["tool"].fields
    requires config["tool"].fields["poetry"] == Table(poetry)
    requires "requires-poetry" in poetry && poetry["requires-poetry"] == Str(v)
    ensures PoetryVersionCheck(config["build-system" := buildSystem], Table(poetry))
      == PoetryVersionCheck(config, Table(poetry))
      == Ok(Check(PoetryVersionName, Configuration, IsPoetryTwoText(v), if IsPoetryTwoText(v) then Info else Warning))
  {
  }

  /** Without `requires-poetry`, a `build-system.requires` list of strings decides
      through its first entry naming Poetry (`NoPoetryEntry` covers a list with none). */
  lemma BuildSystemDecides(config: Config, poetry: map<string, Value>, bs: map<string, Value>,
                           before: seq<string>, req: string, after: seq<Value>)
    requires "requires-poetry" !in poetry
    requires "build-system" in config && config["build-system"] == Table(bs)
    requires "requires" in bs && bs["requires"] == Array(Strs(before) + [Str(req)] + after)
    requires forall i | 0 <= i < |before| :: !MentionsPoetry(before[i])
    requires MentionsPoetry(req)
    ensures PoetryVersionCheck(config, Table(poetry))
      == Ok(Check(PoetryVersionName, Configuration, IsPoetryTwoText(req), if IsPoetryTwoText(req) then Info else Warning))
  {
    FirstPoetryEntryWins(before, req, after);
  }

  /** Without `requires-poetry`, a `build-system.requires` list of strings none of
      which names Poetry gives a failing warning. */
  lemma NoPoetryEntry(config: Config, poetry: map<string, Value>, bs: map<string, Value>, reqs: seq<string>)
    requires "requires-poetry" !in poetry
    requires "build-system" in config && config["build-system"] == Table(bs)
    requires if "requires" in bs then bs["requires"] == Array(Strs(reqs)) else reqs == []
    requires forall i | 0 <= i < |reqs| :: !MentionsPoetry(reqs[i])
    ensures PoetryVersionCheck(config, Table(poetry)) == Ok(Check(PoetryVersionName, Configuration, false, Warning))
  {
    var items := Strs(reqs);
    assert forall j | 0 <= j < |items| :: items[j].Str? && !MentionsPoetry(items[j].s);
  }

  /** Without `requires-poetry` and without `[build-system]`, the record fails at warning. */
  lemma NoBuildSystem(config: Config, poetry: map<string, Value>)
    requires "requires-poetry" !in poetry && "build-system" !in config
    ensures PoetryVersionCheck(config, Table(poetry)) == Ok(Check(PoetryVersionName, Configuration, false, Warning))
  {
  }

  /** With `requires-plugins` given, every required plugin gets its own record, in
      order, ahead of the version record: listed in an array, or a key of the
      `[tool.poetry.requires-plugins]` table. A number there cannot be searched,
      so the check raises. */
  lemma PluginRecords(config: Config, poetry: map<string, Value>, plugins: Value)
    requires "tool" in config && config["tool"].Table? && "poetry" in config["tool"].fields
    requires config["tool"].fields["poetry"] == Table(poetry)
    requires "requires-plugins" in poetry && poetry["requires-plugins"] == plugins
    ensures plugins.Int? || plugins.Bool? ==> CheckPoetryConfiguration(config).Raised?
    ensures CheckPoetryConfiguration(config).Ok? ==>
      var records := CheckPoetryConfiguration(config).value;
      && |records| == 4
      && forall i | 0 <= i < 3 ::
        && records[i].name == PoetryPluginPrefix + RequiredPlugins[i]
        && (records[i].passed <==> In(RequiredPlugins[i], plugins) == Ok(true))
        && (plugins.Table? ==> (records[i].passed <==> RequiredPlugins[i] in plugins.fields))
        && (plugins.Array? ==> (records[i].passed <==> Str(RequiredPlugins[i]) in plugins.items))
  {
    assert |config| > 0;
  }

  /** Without `requires-plugins`, the version record is the only Poetry record. */
  lemma NoPluginRecords(config: Config, poetry: map<string, Value>)
    requires "tool" in config && config["tool"].Table? && "poetry" in config["tool"].fields
    requires config["tool"].fields["poetry"] == Table(poetry)
    requires "requires-plugins" !in poetry
    requires CheckPoetryConfiguration(config).Ok?
    ensures var records := CheckPoetryConfiguration(config).value;
      |records| == 1 && records[0].name == PoetryVersionName
  {
    assert |config| > 0;
  }

  // ---------------------------------------------------------------- Code quality

  /** Ruff takes precedence over Black: a `[tool.black]` section next to
      `[tool.ruff]` changes nothing. */
  lemma RuffWinsOverBlack(tool: map<string, Value>, black: Value)
    requires "ruff" in tool
    ensures LinterChecks(Table(tool["black" := black])) == LinterChecks(Table(tool))
  {
    var tool' := tool["black" := black];
    assert tool'["ruff"] == tool["ruff"];
  }

  /** A Ruff section passes the linter record exactly when its target names
      py313 or py312; the line-length record appears exactly when it is 120, and
      the quote-style record exactly when `[tool.ruff.format]` sets `quote-style`. */
  lemma RuffRecords(tool: map<string, Value>, ruff: map<string, Value>, target: string)
    requires "ruff" in tool && tool["ruff"] == Table(ruff)
    requires if "target-version" in ruff then ruff["target-version"] == Str(target) else target == ""
    requires "format" in ruff ==> !ruff["format"].Int? && !ruff["format"].Bool?
    ensures var r := LinterChecks(Table(tool));
      && r.Ok?
      && r.value[0] == Check(LinterName, CodeQuality, Occurs("py313", target) || Occurs("py312", target),
                             if Occurs("py313", target) || Occurs("py312", target) then Info else Warning)
      && (Check(LineLengthName, CodeQuality, true, Info) in r.value <==>
          "line-length" in ruff && ruff["line-length"] == Int(120))
      && (Check(QuoteStyleName, CodeQuality, true, Info) in r.value <==>
          "format" in ruff && In("quote-style", ruff["format"]) == Ok(true))
  {
  }

  /** Without Ruff the linter record fails: a warning under Black, an error otherwise. */
  lemma NoRuff(tool: map<string, Value>)
    requires "ruff" !in tool
    ensures LinterChecks(Table(tool)) ==
      Ok([Check(LinterName, CodeQuality, false, if "black" in tool then Warning else Error)])
  {
  }

  /** `[tool.pyright]` takes precedence over `[tool.basedpyright]`, and its
      `pythonVersion` passes the record exactly when it mentions 3.13. */
  lemma PyrightRecord(tool: map<string, Value>, settings: map<string, Value>, v: string, based: Value)
    requires "pyright" in tool && tool["pyright"] == Table(settings)
    requires if "pythonVersion" in settings then settings["pythonVersion"] == Str(v) else v == ""
    ensures TypeCheckerCheck(Table(tool["basedpyright" := based])) == TypeCheckerCheck(Table(tool))
      == Ok(Check(TypeCheckerName, CodeQuality, Occurs("3.13", v), if Occurs("3.13", v) then Info else Warning))
  {
    var tool' := tool["basedpyright" := based];
    assert tool'["pyright"] == tool["pyright"];
  }

  /** Without pyright, `[tool.basedpyright]` is graded the same way. */
  lemma BasedPyrightRecord(tool: map<string, Value>, settings: map<string, Value>, v: string)
    requires "pyright" !in tool && "basedpyright" in tool && tool["basedpyright"] == Table(settings)
    requires if "pythonVersion" in settings then settings["pythonVersion"] == Str(v) else v == ""
    ensures TypeCheckerCheck(Table(tool))
      == Ok(Check(TypeCheckerName, CodeQuality, Occurs("3.13", v), if Occurs("3.13", v) then Info else Warning))
  {
  }

  /** Neither pyright flavour: the record fails at warning severity, mypy or not. */
  lemma NoPyright(tool: map<string, Value>)
    requires "pyright" !in tool && "basedpyright" !in tool
    ensures TypeCheckerCheck(Table(tool)) == Ok(Check(TypeCheckerName, CodeQuality, false, Warning))
  {
  }

  // ---------------------------------------------------------------- Testing

  /** Pytest configured: the framework record passes, and coverage passes exactly
      when `[tool.coverage]` exists or the `addopts` text mentions `--cov`. */
  lemma TestingRecords(config: Config, tool: map<string, Value>, pytest: map<string, Value>)
    requires "tool" in config && config["tool"] == Table(tool)
    requires "pytest" in tool && tool["pytest"] == Table(pytest)
    requires "ini_options" in pytest ==> pytest["ini_options"].Table?
    ensures var covered := "coverage" in tool ||
      ("ini_options" in pytest && "addopts" in pytest["ini_options"].fields
       && TextMentions(pytest["ini_options"].fields["addopts"], "--cov"));
      CheckTestingConfiguration(config) ==
        Ok([Check(TestFrameworkName, Testing, true, Info),
            Check(TestCoverageName, Testing, covered, if covered then Info else Warning)])
  {
    assert |config| > 0;
    assert !InStr("--cov", "");
  }

  /** An `addopts` list mentions a pattern exactly when one of its options does:
      `str(addopts)` of a list of strings holds the pattern inside some element. */
  lemma AddoptsListMentions(opts: seq<string>, pat: string)
    ensures TextMentions(Array(Strs(opts)), pat) <==> exists i | 0 <= i < |opts| :: Occurs(pat, opts[i])
  {
    var items := Strs(opts);
    assert forall i | 0 <= i < |opts| :: TextMentions(items[i], pat) == Occurs(pat, opts[i]);
  }

  /** Without pytest the only record is a failing framework record. */
  lemma NoPytest(config: Config)
    requires |config| > 0
    requires "tool" in config ==> config["tool"].Table? && "pytest" !in config["tool"].fields
    ensures CheckTestingConfiguration(config) == Ok([Check(TestFrameworkName, Testing, false, Error)])
  {
  }

  // ---------------------------------------------------------------- Keywords

  /** `[project]` keywords take precedence: whatever `[tool]` holds, the verdict is the same. */
  lemma ProjectKeywordsWin(config: Config, tool: Value)
    requires "project" in config
    ensures CheckRepositoryKeywords(config["tool" := tool]) == CheckRepositoryKeywords(config)
  {
    var config' := config["tool" := tool];
    assert config'["project"] == config["project"];
  }

  /** A keyword list passes exactly when one entry is one of the required keywords. */
  lemma KeywordsRecord(config: Config, fields: map<string, Value>, keywords: seq<Value>)
    requires "project" in config && config["project"] == Table(fields)
    requires if "keywords" in fields then fields["keywords"] == Array(keywords) else keywords == []
    ensures var has := exists i | 0 <= i < |keywords| :: keywords[i].Str? && keywords[i].s in RequiredKeywords;
      CheckRepositoryKeywords(config) == Ok(Check(KeywordsName, Configuration, has, if has then Info else Error))
  {
  }

  /** Without `[project]`, the `[tool.poetry]` keyword list is graded the same way. */
  lemma PoetryKeywordsRecord(config: Config, poetry: map<string, Value>, keywords: seq<Value>)
    requires "project" !in config
    requires "tool" in config && config["tool"].Table? && "poetry" in config["tool"].fields
    requires config["tool"].fields["poetry"] == Table(poetry)
    requires if "keywords" in poetry then poetry["keywords"] == Array(keywords) else keywords == []
    ensures var has := exists i | 0 <= i < |keywords| :: keywords[i].Str? && keywords[i].s in RequiredKeywords;
      CheckRepositoryKeywords(config) == Ok(Check(KeywordsName, Configuration, has, if has then Info else Error))
  {
    assert |config| > 0;
  }

  /** With neither `[project]` nor `[tool.poetry]` there are no keywords: the record fails at error. */
  lemma NoKeywordsDeclared(config: Config)
    requires |config| > 0 && "project" !in config
    requires "tool" in config ==> config["tool"].Table? && "poetry" !in config["tool"].fields
    ensures CheckRepositoryKeywords(config) == Ok(Check(KeywordsName, Configuration, false, Error))
  {
  }

  // ---------------------------------------------------------------- Shapes that never raise

  /** `key in v` cannot raise: `v` is a string, a list or a table. */
  predicate Searchable(v: Value)
  {
    !v.Int? && !v.Bool?
  }

  /** A table whose entry `key`, when present, is searchable. */
  predicate SettingsShaped(v: Value, key: string)
  {
    v.Table? && (key in v.fields ==> Searchable(v.fields[key]))
  }

  predicate ProjectShaped(p: Value)
  {
    SettingsShaped(p, "requires-python") && SettingsShaped(p, "keywords")
  }

  predicate PoetryShaped(p: Value)
  {
    && SettingsShaped(p, "requires-plugins") && SettingsShaped(p, "requires-poetry") && SettingsShaped(p, "keywords")
    && ("dependencies" in p.fields ==> SettingsShaped(p.fields["dependencies"], "python"))
  }

  predicate RuffShaped(r: Value)
  {
    SettingsShaped(r, "target-version") && SettingsShaped(r, "format")
  }

  predicate PytestShaped(p: Value)
  {
    p.Table? && ("ini_options" in p.fields ==> p.fields["ini_options"].Table?)
  }

  predicate ToolShaped(t: Value)
  {
    && t.Table?
    && ("poetry" in t.fields ==> PoetryShaped(t.fields["poetry"]))
    && ("ruff" in t.fields ==> RuffShaped(t.fields["ruff"]))
    && ("pyright" in t.fields ==> SettingsShaped(t.fields["pyright"], "pythonVersion"))
    && ("basedpyright" in t.fields ==> SettingsShaped(t.fields["basedpyright"], "pythonVersion"))
    && ("pytest" in t.fields ==> PytestShaped(t.fields["pytest"]))
  }

  /** `build-system.requires` as a list must hold strings only: each entry is lower-cased. */
  predicate RequirementsShaped(v: Value)
  {
    match v
    case Array(items) => forall i | 0 <= i < |items| :: items[i].Str?
    case Str(_) => true
    case Table(_) => true
    case _ => false
  }

  /** The layout of a conventional `pyproject.toml`: every section the checks
      open is a table, and every entry they search is a string, list or table. */
  predicate WellShaped(config: Config)
  {
    && ("project" in config ==> ProjectShaped(config["project"]))
    && ("tool" in config ==> ToolShaped(config["tool"]))
    && ("build-system" in config ==>
          config["build-system"].Table?
          && ("requires" in config["build-system"].fields ==>
                RequirementsShaped(config["build-system"].fields["requires"])))
  }

  lemma {:induction false} PluginChecksTotal(plugins: Value, names: seq<string>)
    requires Searchable(plugins)
    ensures PluginChecks(plugins, names).Ok?
    decreases |names|
  {
    if |names| > 0 {
      PluginChecksTotal(plugins, names[1..]);
    }
  }

  lemma {:induction false} RequirementsTotal(items: seq<Value>)
    requires forall i | 0 <= i < |items| :: items[i].Str?
    ensures FirstPoetryRequirement(items).Ok?
    decreases |items|
  {
    if |items| > 0 && !MentionsPoetry(items[0].s) {
      RequirementsTotal(items[1..]);
    }
  }

  lemma PythonVersionTotal(config: Config)
    requires WellShaped(config)
    ensures CheckPythonVersion(config).Ok?
  {
  }

  lemma PoetryTotal(config: Config)
    requires WellShaped(config)
    ensures CheckPoetryConfiguration(config).Ok?
  {
    if |config| > 0 && "tool" in config && "poetry" in config["tool"].fields {
      var poetry := config["tool"].fields["poetry"];
      if "requires-plugins" in poetry.fields {
        PluginChecksTotal(poetry.fields["requires-plugins"], RequiredPlugins);
      }
      if "build-system" in config && "requires" in config["build-system"].fields {
        var reqs := config["build-system"].fields["requires"];
        if reqs.Array? {
          RequirementsTotal(reqs.items);
        } else if reqs.Str? {
          RequirementsTotal(seq(|reqs.s|, i requires 0 <= i < |reqs.s| => Str([reqs.s[i]])));
        }
      }
    }
  }

  lemma CodeQualityTotal(config: Config)
    requires WellShaped(config)
    ensures CheckCodeQualityTools(config).Ok?
  {
  }

  lemma TestingTotal(config: Config)
    requires WellShaped(config)
    ensures CheckTestingConfiguration(config).Ok?
  {
  }

  lemma KeywordsTotal(config: Config)
    requires WellShaped(config)
    ensures CheckRepositoryKeywords(config).Ok?
  {
  }

  /** On a well-shaped configuration no check raises, so the run always reports. */
  lemma WellShapedNeverRaises(config: Config)
    requires WellShaped(config)
    ensures StandardChecks(config).Ok?
  {
    PythonVersionTotal(config);
    PoetryTotal(config);
    CodeQualityTotal(config);
    TestingTotal(config);
    KeywordsTotal(config);
  }

  // ---------------------------------------------------------------- All of them

  /** No `pyproject.toml`: six failing records, in the fixed order. */
  lemma EmptyConfigRecords()
    ensures StandardChecks(map[]) == Ok([
      Check(PythonVersionName, Configuration, false, Error),
      Check(PoetryVersionName, Configuration, false, Error),
      Check(LinterName, CodeQuality, false, Error),
      Check(TypeCheckerName, CodeQuality, false, Error),
      Check(TestFrameworkName, Testing, false, Error),
      Check(KeywordsName, Configuration, false, Error)])
  {
    var empty: Config := map[];
    var py, po := Check(PythonVersionName, Configuration, false, Error), Check(PoetryVersionName, Configuration, false, Error);
    var li, ty := Check(LinterName, CodeQuality, false, Error), Check(TypeCheckerName, CodeQuality, false, Error);
    var te, kw := Check(TestFrameworkName, Testing, false, Error), Check(KeywordsName, Configuration, false, Error);
    assert CheckPythonVersion(empty) == Ok(py);
    assert CheckPoetryConfiguration(empty) == Ok([po]);
    assert CheckCodeQualityTools(empty) == Ok([li, ty]);
    assert CheckTestingConfiguration(empty) == Ok([te]);
    assert CheckRepositoryKeywords(empty) == Ok(kw);
    assert [py] + [po] + [li, ty] + [te] + [kw] == [py, po, li, ty, te, kw];
  }

  /** ... so a repository without a `pyproject.toml` scores 0 and fails the run. */
  lemma EmptyConfigFails(report: Report)
    requires |report.checks| == 0
    ensures RunStandardChecks(report, map[]).Ok?
    ensures var r := RunStandardChecks(report, map[]).value;
      CalculateScore(r).num == 0 && ExitCode(Finished(r)) == 1
  {
    EmptyConfigRecords();
    assert RunStandardChecks(report, map[]).Ok?;
    var r := RunStandardChecks(report, map[]).value;
    NoneSucceed(r.checks);
  }

  lemma {:induction false} NoneSucceed(checks: seq<Check>)
    requires forall i | 0 <= i < |checks| :: !checks[i].passed
    ensures PassedCount(checks) == 0
  {
    if |checks| > 0 {
      NoneSucceed(checks[1..]);
    }
  }
}
