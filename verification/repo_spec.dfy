/**
 How a repository argument is read: `determine_repository_type` decides between
 a local path and a GitHub repository by four regular expressions, and
 `GitHubChecker._parse_repo_spec` reduces a GitHub URL or `owner/repo` argument to
 the `owner/repo` the API is queried with.
 */
module RepoSpec {
  import opened PyStrings
  import opened PyValues
  import opened Compliance

  // ---------------------------------------------------------------- Classification

  /** `[\w-]`, with `\w` read as its ASCII part: letters, digits and `_`. */
  predicate WordChar(c: char)
  {
    ('a' <= c <= 'z') || ('A' <= c <= 'Z') || ('0' <= c <= '9') || c == '_' || c == '-'
  }

  /** A run matched by `[\w-]+`. */
  ghost predicate Segment(w: string)
  {
    |w| > 0 && forall k | 0 <= k < |w| :: WordChar(w[k])
  }

  /** Where the run of `[\w-]` characters starting at `i` ends. */
  function WordEnd(s: string, i: nat): (j: nat)
    requires i <= |s|
    ensures i <= j <= |s|
    ensures forall k | i <= k < j :: WordChar(s[k])
    ensures j == |s| || !WordChar(s[j])
    decreases |s| - i
  {
    if i < |s| && WordChar(s[i]) then WordEnd(s, i + 1) else i
  }

  /** A run of word characters from `i` up to a non-word character (or the end)
      at `j` is exactly what `WordEnd` finds. */
  lemma {:induction false} WordEndAt(s: string, i: nat, j: nat)
    requires i <= j <= |s|
    requires forall k | i <= k < j :: WordChar(s[k])
    requires j == |s| || !WordChar(s[j])
    ensures WordEnd(s, i) == j
    decreases j - i
  {
    if i < j {
      WordEndAt(s, i + 1, j);
    }
  }

  /** `re.match(prefix + r'[\w-]+/[\w-]+', s)`. A greedy `[\w-]+` cannot give back
      characters to reach a `/`, so the owner run is the maximal one. */
  predicate OwnerRepoAfter(s: string, prefix: string)
  {
    && StartsWith(s, prefix)
    && var j := WordEnd(s, |prefix|);
       |prefix| < j && j + 1 < |s| && s[j] == '/' && WordChar(s[j + 1])
  }

  /** Where `$` can match: before a single trailing newline, or at the very end. */
  function LineEnd(s: string): nat
  {
    if |s| > 0 && s[|s| - 1] == '\n' then |s| - 1 else |s|
  }

  /** `re.match(r'^[\w-]+/[\w-]+$', s)`. */
  predicate BareOwnerRepo(s: string)
  {
    var j := WordEnd(s, 0);
    0 < j && j + 1 < LineEnd(s) && s[j] == '/' && WordEnd(s, j + 1) == LineEnd(s)
  }

  /** `s` is `prefix`, an owner, a slash and the beginning of a repository name. */
  ghost predicate ShapedAfter(s: string, prefix: string)
  {
    && |prefix| <= |s| && s[..|prefix|] == prefix
    && exists j | |prefix| < j && j + 1 < |s| :: Segment(s[|prefix|..j]) && s[j] == '/' && WordChar(s[j + 1])
  }

  /** `s` is exactly `owner/repo`, possibly followed by one newline. */
  ghost predicate ShapedBare(s: string)
  {
    exists j | 0 < j && j + 1 < LineEnd(s) :: Segment(s[..j]) && s[j] == '/' && Segment(s[j + 1..LineEnd(s)])
  }

  /** The GitHub shapes the checker recognises, stated without regular expressions. */
  ghost predicate GitHubShaped(s: string)
  {
    || ShapedAfter(s, "https://github.com/")
    || ShapedAfter(s, "http://github.com/")
    || ShapedAfter(s, "git@github.com:")
    || ShapedAfter(s, "github.com/")
    || ShapedBare(s)
  }

  lemma OwnerRepoAfterIff(s: string, prefix: string)
    ensures OwnerRepoAfter(s, prefix) <==> ShapedAfter(s, prefix)
  {
    if OwnerRepoAfter(s, prefix) {
      MatchIsShaped(s, prefix);
    }
    if ShapedAfter(s, prefix) {
      ShapedMatches(s, prefix);
    }
  }

  /** A prefixed-pattern match has the stated shape. */
  lemma MatchIsShaped(s: string, prefix: string)
    requires OwnerRepoAfter(s, prefix)
    ensures ShapedAfter(s, prefix)
  {
    StartsWithIsPrefix(s, prefix);
    var j := WordEnd(s, |prefix|);
    assert Segment(s[|prefix|..j]);
  }

  /** An argument of the stated shape matches the prefixed pattern. */
  lemma ShapedMatches(s: string, prefix: string)
    requires ShapedAfter(s, prefix)
    ensures OwnerRepoAfter(s, prefix)
  {
    StartsWithIsPrefix(s, prefix);
    var j :| |prefix| < j && j + 1 < |s| && Segment(s[|prefix|..j]) && s[j] == '/' && WordChar(s[j + 1]);
    assert forall k | |prefix| <= k < j :: s[k] == s[|prefix|..j][k - |prefix|];
    WordEndAt(s, |prefix|, j);
  }

  lemma BareOwnerRepoIff(s: string)
    ensures BareOwnerRepo(s) <==> ShapedBare(s)
  {
    var e := LineEnd(s);
    if BareOwnerRepo(s) {
      var j := WordEnd(s, 0);
      assert Segment(s[..j]);
      assert Segment(s[j + 1..e]);
    }
    if ShapedBare(s) {
      var j :| 0 < j && j + 1 < e && Segment(s[..j]) && s[j] == '/' && Segment(s[j + 1..e]);
      assert forall k | 0 <= k < j :: s[k] == s[..j][k];
      WordEndAt(s, 0, j);
      assert forall k | j + 1 <= k < e :: s[k] == s[j + 1..e][k - j - 1];
      WordEndAt(s, j + 1, e);
    }
  }

  /** `determine_repository_type`: GitHub exactly for the recognised shapes. */
  function DetermineRepositoryType(pathOrUrl: string): (kind: RepoKind)
    ensures kind == GitHub <==> GitHubShaped(pathOrUrl)
  {
    OwnerRepoAfterIff(pathOrUrl, "https://github.com/");
    OwnerRepoAfterIff(pathOrUrl, "http://github.com/");
    OwnerRepoAfterIff(pathOrUrl, "git@github.com:");
    OwnerRepoAfterIff(pathOrUrl, "github.com/");
    BareOwnerRepoIff(pathOrUrl);
    if || OwnerRepoAfter(pathOrUrl, "https://github.com/")
       || OwnerRepoAfter(pathOrUrl, "http://github.com/")
       || OwnerRepoAfter(pathOrUrl, "git@github.com:")
       || OwnerRepoAfter(pathOrUrl, "github.com/")
       || BareOwnerRepo(pathOrUrl)
    then GitHub
    else Local
  }

  // ---------------------------------------------------------------- Parsing

  /** The four `str.replace(prefix, '')` calls, in the order the source makes them. */
  function RemoveUrlPrefixes(spec: string): (r: string)
    ensures |r| <= |spec|
    ensures forall c :: c in r ==> c in spec
  {
    var s1 := RemoveAll(spec, "https://");
    var s2 := RemoveAll(s1, "http://");
    var s3 := RemoveAll(s2, "github.com/");
    RemoveAll(s3, "git@github.com:")
  }

  /** `s` holds exactly one `/`: it reads `owner/repo`. */
  ghost predicate OneSlash(s: string)
  {
    exists k | 0 <= k < |s| :: s[k] == '/' && forall i | 0 <= i < |s| && i != k :: s[i] != '/'
  }

  /** The validation and reformatting that end `_parse_repo_spec`: a string without
      `/` is a `ValueError`; otherwise the first two `/`-separated pieces. */
  function FirstTwoSegments(s: string): (r: Result<string>)
    ensures r.Raised? <==> '/' !in s
    ensures r.Raised? ==> r.error == ValueError
    ensures r.Ok? ==> OneSlash(r.value)
    ensures r.Ok? ==> |r.value| <= |s| && s[..|r.value|] == r.value && (|r.value| == |s| || s[|r.value|] == '/')
  {
    SplitCount(s, '/');
    if '/' !in s || |Split(s, '/')| < 2 then Raised(ValueError)
    else
      var parts := Split(s, '/');
      SplitFirstTwo(s, '/');
      JoinedOneSlash(parts[0], parts[1]);
      Ok(parts[0] + "/" + parts[1])
  }

  /** Two pieces without `/`, joined by one. */
  lemma JoinedOneSlash(a: string, b: string)
    requires '/' !in a && '/' !in b
    ensures OneSlash(a + "/" + b)
  {
    var head := a + "/" + b;
    forall i | 0 <= i < |head| && i != |a|
      ensures head[i] != '/'
    {
      if i < |a| {
        assert head[i] == a[i];
      } else {
        assert head[i] == b[i - |a| - 1];
      }
    }
    assert head[|a|] == '/';
  }

  /** `_parse_repo_spec` as written: `.replace('.git', '')` deletes every `.git`,
      not only the suffix of a clone URL. */
  function ParseRepoSpecAsWritten(spec: string): (r: Result<string>)
    ensures r.Raised? ==> r.error == ValueError
    ensures r.Raised? <==> '/' !in Strip(RemoveAll(RemoveUrlPrefixes(spec), ".git"), '/')
    ensures r.Ok? ==> OneSlash(r.value)
  {
    FirstTwoSegments(Strip(RemoveAll(RemoveUrlPrefixes(spec), ".git"), '/'))
  }

  /** What `.replace('.git', '')` is there for: a trailing `.git` goes (with any
      `/` that then ends the string); a `.git` elsewhere stays. */
  function TrimGitSuffix(s: string): (r: string)
    ensures !EndsWith(s, ".git") ==> r == s
    ensures EndsWith(s, ".git") ==> |r| <= |s| - 4
    ensures forall c :: c in r ==> c in s
  {
    if EndsWith(s, ".git") then
      var t := Strip(s[..|s| - 4], '/');
      assert forall c :: c in s[..|s| - 4] ==> c in s;
      t
    else s
  }

  /** The cleaned argument with only a trailing `.git` taken off. */
  function CleanRepoSpec(spec: string): (s: string)
    ensures |s| <= |spec|
    ensures forall c :: c in s ==> c in spec
    ensures |s| > 0 ==> s[0] != '/' && s[|s| - 1] != '/'
  {
    TrimGitSuffix(Strip(RemoveUrlPrefixes(spec), '/'))
  }

  /** `_parse_repo_spec` with `.git` dropped only as a suffix. */
  function ParseRepoSpec(spec: string): (r: Result<string>)
    ensures r.Raised? <==> '/' !in CleanRepoSpec(spec)
    ensures r.Ok? ==> OneSlash(r.value)
  {
    FirstTwoSegments(CleanRepoSpec(spec))
  }
}
