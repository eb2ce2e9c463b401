/**
 The concrete configurations and arguments the project's own tests use, with
 the records and classifications the model gives them.
 */
module TestCases {
  import opened PyStrings
  import opened PyValues
  import opened Compliance
  import opened ConfigChecks
  import opened ConfigFacts
  import opened RepoSpec
  import opened RepoSpecFacts

  function Requiring(v: string): Config
  {
    map["project" := Table(map["requires-python" := Str(v)])]
  }

  /** `>=3.13` passes at info. */
  lemma CurrentPythonCase()
    ensures CheckPythonVersion(Requiring(">=3.13")) == Ok(Check(PythonVersionName, Configuration, true, Info))
  {
    assert OccursAt("3.13", ">=3.13", 2);
    PythonVersionFromProject(Requiring(">=3.13"), map["requires-python" := Str(">=3.13")], ">=3.13");
  }

  /** `>=3.12` fails at warning. */
  lemma AcceptablePythonCase()
    ensures CheckPythonVersion(Requiring(">=3.12")) == Ok(Check(PythonVersionName, Configuration, false, Warning))
  {
    PythonVersionFromProject(Requiring(">=3.12"), map["requires-python" := Str(">=3.12")], ">=3.12");
  }

  /** `>=3.9` fails at error. */
  lemma OldPythonCase()
    ensures CheckPythonVersion(Requiring(">=3.9")) == Ok(Check(PythonVersionName, Configuration, false, Error))
  {
    PythonVersionFromProject(Requiring(">=3.9"), map["requires-python" := Str(">=3.9")], ">=3.9");
  }

  /** `requires-poetry = ">=2.1"` gives one passing version record. */
  lemma PoetryTwoCase()
    ensures var config := map["tool" := Table(map["poetry" := Table(map["requires-poetry" := Str(">=2.1")])])];
      CheckPoetryConfiguration(config) == Ok([Check(PoetryVersionName, Configuration, true, Info)])
  {
    var poetry := map["requires-poetry" := Str(">=2.1")];
    var config := map["tool" := Table(map["poetry" := Table(poetry)])];
    assert OccursAt(">=2.1", ">=2.1", 0);
    assert IsPoetryTwo(Str(">=2.1")) == Ok(true);
    assert PoetryVersionCheck(config, Table(poetry)) == Ok(Check(PoetryVersionName, Configuration, true, Info));
    assert In("poetry", config["tool"]) == Ok(true);
    assert Index(config["tool"], "poetry") == Ok(Table(poetry));
    assert In("requires-plugins", Table(poetry)) == Ok(false);
    assert [] + [Check(PoetryVersionName, Configuration, true, Info)] == [Check(PoetryVersionName, Configuration, true, Info)];
  }

  /** A `[tool]` table without Poetry gives one failing record. */
  lemma NoPoetryCase()
    ensures CheckPoetryConfiguration(map["tool" := Table(map[])])
      == Ok([Check(PoetryVersionName, Configuration, false, Warning)])
  {
    NotUsingPoetry(map["tool" := Table(map[])]);
  }

  /** Ruff targeting py313 with line length 120 and pyright for 3.13 pass the
      linter, line-length and type-checker records. */
  lemma CodeQualityCase()
    ensures var tool := Table(map[
        "ruff" := Table(map["target-version" := Str("py313"), "line-length" := Int(120)]),
        "pyright" := Table(map["pythonVersion" := Str("3.13")])]);
      CheckCodeQualityTools(map["tool" := tool]) == Ok([
        Check(LinterName, CodeQuality, true, Info),
        Check(LineLengthName, CodeQuality, true, Info),
        Check(TypeCheckerName, CodeQuality, true, Info)])
  {
    var ruff := map["target-version" := Str("py313"), "line-length" := Int(120)];
    var pyright := map["pythonVersion" := Str("3.13")];
    var tool := map["ruff" := Table(ruff), "pyright" := Table(pyright)];
    assert OccursAt("py313", "py313", 0) && OccursAt("3.13", "3.13", 0);
    assert In("ruff", Table(tool)) == Ok(true) && Index(Table(tool), "ruff") == Ok(Table(ruff));
    assert Get(Table(ruff), "target-version", Str("")) == Ok(Str("py313"));
    assert In("py313", Str("py313")) == Ok(true);
    assert In("line-length", Table(ruff)) == Ok(true) && Index(Table(ruff), "line-length") == Ok(Int(120));
    assert In("format", Table(ruff)) == Ok(false);
    var li, ll, ty := Check(LinterName, CodeQuality, true, Info), Check(LineLengthName, CodeQuality, true, Info),
                      Check(TypeCheckerName, CodeQuality, true, Info);
    assert [li] + [ll] + [] == [li, ll];
    assert LinterChecks(Table(tool)) == Ok([li, ll]);
    PyrightRecord(tool, pyright, "3.13", EmptyTable);
    assert tool["basedpyright" := EmptyTable]["pyright"] == tool["pyright"];
    assert TypeCheckerCheck(Table(tool)) == Ok(ty);
    assert [li, ll] + [ty] == [li, ll, ty];
  }

  /** Pytest with `--cov` and `[tool.coverage]` passes both records; pytest alone
      passes the framework and fails coverage. */
  lemma TestingCases()
    ensures var tool := Table(map[
        "pytest" := Table(map["ini_options" := Table(map["addopts" := Str("--cov")])]),
        "coverage" := Table(map[])]);
      CheckTestingConfiguration(map["tool" := tool]) == Ok([
        Check(TestFrameworkName, Testing, true, Info),
        Check(TestCoverageName, Testing, true, Info)])
    ensures CheckTestingConfiguration(map["tool" := Table(map["pytest" := Table(map[])])]) == Ok([
        Check(TestFrameworkName, Testing, true, Info),
        Check(TestCoverageName, Testing, false, Warning)])
  {
  }

  /** One passing and one failing record score 50, below the exit threshold. */
  lemma ScoreFiftyCase()
    ensures var r := AddCheck(AddCheck(NewReport("test-repo", "test", Local),
                                       Check("Test1", "Cat", true, Error)), Check("Test2", "Cat", false, Error));
      && PassedCount(r.checks) == 1 && FailedCount(r.checks) == 1
      && 100 * CalculateScore(r).num == 50 * CalculateScore(r).den
      && ExitCode(Finished(r)) == 1
  {
    var r0 := NewReport("test-repo", "test", Local);
    HalfPassedScoresFifty(r0, Check("Test1", "Cat", true, Error), Check("Test2", "Cat", false, Error));
  }

  /** The GitHub arguments of the classification tests, written as prefix,
      owner, `/` and name. */
  lemma HttpsCase()
    ensures DetermineRepositoryType("https://github.com/" + "owner" + "/" + "repo") == GitHub
  {
    OwnerRepoNames();
    assert UrlForms[..4][0] == "https://github.com/";
    UrlFormsAreGitHub("https://github.com/", "owner", "repo");
  }

  lemma HttpCase()
    ensures DetermineRepositoryType("http://github.com/" + "owner" + "/" + "repo") == GitHub
  {
    OwnerRepoNames();
    assert UrlForms[..4][1] == "http://github.com/";
    UrlFormsAreGitHub("http://github.com/", "owner", "repo");
  }

  lemma SshCase()
    ensures DetermineRepositoryType("git@github.com:" + "owner" + "/" + "repo.git") == GitHub
  {
    OwnerRepoNames();
    assert UrlForms[..4][2] == "git@github.com:";
    UrlFormsAreGitHub("git@github.com:", "owner", "repo.git");
  }

  lemma BareCase()
    ensures DetermineRepositoryType("owner" + "/" + "repo") == GitHub
  {
    OwnerRepoNames();
    BareFormIsGitHub("owner", "repo");
  }

  lemma OwnerRepoNames()
    ensures Segment("owner") && Segment("repo") && WordChar('r')
  {
  }

  /** The local arguments of the classification tests. */
  lemma PathCases()
    ensures DetermineRepositoryType("/path/to/repo") == Local
    ensures DetermineRepositoryType("./relative/path") == Local
  {
    PathsAreLocal("/path/to/repo");
    PathsAreLocal("./relative/path");
  }

  /** A Windows path starts with a word character but holds no `/`. */
  lemma WindowsPathCase()
    ensures DetermineRepositoryType("C:\\Windows\\Path") == Local
  {
    NoSlashIsLocal("C:\\Windows\\Path");
  }
}
