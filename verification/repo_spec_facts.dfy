/**
 What reading a repository argument guarantees: the GitHub forms are recognised
 and parsed back to `owner/repo`, paths are left local, and, as written, a
 repository name containing `.git` anywhere is mangled.
 */
module RepoSpecFacts {
  import opened PyStrings
  import opened PyValues
  import opened Compliance
  import opened RepoSpec

  /** A character GitHub allows in a repository name: `[\w.-]`. */
  predicate RepoChar(c: char)
  {
    WordChar(c) || c == '.'
  }

  ghost predicate RepoText(w: string)
  {
    forall k | 0 <= k < |w| :: RepoChar(w[k])
  }

  /** The ways a repository can be written on the command line, before `owner/repo`. */
  const UrlForms: seq<string> := ["https://github.com/", "http://github.com/", "git@github.com:", "github.com/", ""]

  // ---------------------------------------------------------------- Classification

  /** Every URL form followed by an owner and a repository is a GitHub repository. */
  lemma UrlFormsAreGitHub(prefix: string, owner: string, tail: string)
    requires prefix in UrlForms[..4]
    requires Segment(owner) && |tail| > 0 && WordChar(tail[0])
    ensures DetermineRepositoryType(prefix + owner + "/" + tail) == GitHub
  {
    ShapedAfterOwner(prefix, owner, tail);
  }

  lemma ShapedAfterOwner(prefix: string, owner: string, tail: string)
    requires Segment(owner) && |tail| > 0 && WordChar(tail[0])
    ensures ShapedAfter(prefix + owner + "/" + tail, prefix)
  {
    var s := prefix + owner + "/" + tail;
    var j := |prefix| + |owner|;
    assert s[..|prefix|] == prefix;
    assert s[|prefix|..j] == owner;
    assert s[j] == '/' && s[j + 1] == tail[0];
  }

  /** A bare `owner/repo` is a GitHub repository. */
  lemma BareFormIsGitHub(owner: string, repo: string)
    requires Segment(owner) && Segment(repo)
    ensures DetermineRepositoryType(owner + "/" + repo) == GitHub
  {
    var s := owner + "/" + repo;
    var j := |owner|;
    assert s[..j] == owner && s[j] == '/';
    assert s[j + 1..LineEnd(s)] == repo;
    assert ShapedBare(s);
  }

  /** Anything that does not start with a word character (an absolute path, a
      relative `./` path) is local. */
  lemma PathsAreLocal(s: string)
    requires |s| > 0 && !WordChar(s[0])
    ensures DetermineRepositoryType(s) == Local
  {
  }

  /** Every GitHub shape holds a `/`, so an argument without one is local. */
  lemma NoSlashIsLocal(s: string)
    requires '/' !in s
    ensures DetermineRepositoryType(s) == Local
  {
  }

  // ---------------------------------------------------------------- Prefix removal

  /** The only `/` of `owner/tail` sits right after the owner. */
  lemma SlashAfterOwner(owner: string, tail: string)
    requires Segment(owner) && RepoText(tail)
    ensures var s := owner + "/" + tail;
      forall i | 0 <= i < |s| :: (s[i] == '/' ==> i == |owner|) && s[i] != ':' && s[i] != '@'
  {
    var s := owner + "/" + tail;
    forall i | 0 <= i < |s|
      ensures (s[i] == '/' ==> i == |owner|) && s[i] != ':' && s[i] != '@'
    {
      if i < |owner| {
        assert s[i] == owner[i];
      } else if i > |owner| {
        assert s[i] == tail[i - |owner| - 1];
      }
    }
  }

  /** `github.com/` cannot occur in `owner/tail`: its slash would have to be the
      owner's, and then its dot would fall inside the owner. */
  lemma NoGitHubSlash(owner: string, tail: string)
    requires Segment(owner) && RepoText(tail)
    ensures !Occurs("github.com/", owner + "/" + tail)
  {
    var s := owner + "/" + tail;
    var q := |owner|;
    SlashAfterOwner(owner, tail);
    if 0 <= q - 10 {
      assert s[q - 10..q + 1][6] == s[q - 4] == owner[q - 4];
    }
    NoOccurrenceByAlignment("github.com/", s, 10, q);
  }

  lemma NoColon(s: string, pat: string)
    requires |pat| > 0 && ':' in pat && ':' !in s
    ensures RemoveAll(s, pat) == s
  {
    RemoveAllAbsent(s, pat, ':');
  }

  /** From `github.com/owner/tail` on, the remaining removals leave `owner/tail`. */
  lemma FromGitHubSlash(owner: string, tail: string)
    requires Segment(owner) && RepoText(tail)
    ensures var body := owner + "/" + tail;
      RemoveAll(RemoveAll("github.com/" + body, "github.com/"), "git@github.com:") == body
  {
    var body := owner + "/" + tail;
    SlashAfterOwner(owner, tail);
    RemoveAllLeading("github.com/", body);
    NoGitHubSlash(owner, tail);
    RemoveAllUnchanged(body, "github.com/");
    RemoveAllAbsent(body, "git@github.com:", '@');
  }

  lemma HttpsPrefixRemoved(owner: string, tail: string)
    requires Segment(owner) && RepoText(tail)
    ensures RemoveUrlPrefixes("https://github.com/" + (owner + "/" + tail)) == owner + "/" + tail
  {
    var body := owner + "/" + tail;
    var host := "github.com/" + body;
    SlashAfterOwner(owner, tail);
    HttpsSchemeRemoved(body);
    NoColon(host, "http://");
    FromGitHubSlash(owner, tail);
    PrefixesInSteps("https://github.com/" + body, host, host, RemoveAll(host, "github.com/"), body);
  }

  /** Removing `https://` from `https://github.com/body` leaves `github.com/body`. */
  lemma HttpsSchemeRemoved(body: string)
    requires ':' !in body
    ensures RemoveAll("https://github.com/" + body, "https://") == "github.com/" + body
  {
    HttpsSpelling(body);
    LeadingSchemeRemoved("https://", "github.com/" + body);
  }

  /** `https://github.com/` read as scheme then host. */
  lemma HttpsSpelling(body: string)
    ensures "https://github.com/" + body == "https://" + ("github.com/" + body)
  {
  }

  /** A scheme holding `:` is removed from the front of a text without `:`, and
      nothing else is. */
  lemma LeadingSchemeRemoved(scheme: string, host: string)
    requires |scheme| > 0 && ':' in scheme && ':' !in host
    ensures RemoveAll(scheme + host, scheme) == host
  {
    RemoveAllLeading(scheme, host);
    NoColon(host, scheme);
  }

  /** `http://github.com/` read two ways: around its one `:`, and as scheme then host. */
  lemma HttpSpelling(body: string)
    ensures "http://github.com/" + body == "http" + [':'] + ("//github.com/" + body)
    ensures "http://github.com/" + body == "http://" + ("github.com/" + body)
  {
  }

  /** `https://` does not occur in `http://github.com/owner/tail`: the one `:` is at
      index 4, where a match of `https://` would need it at index 5. */
  lemma HttpNoHttps(body: string)
    requires ':' !in body
    ensures RemoveAll("http://github.com/" + body, "https://") == "http://github.com/" + body
  {
    var s := "http://github.com/" + body;
    HttpSpelling(body);
    OnlyOccurrence("http", ':', "//github.com/" + body);
    NoOccurrenceByAlignment("https://", s, 5, 4);
    RemoveAllUnchanged(s, "https://");
  }

  lemma HttpPrefixRemoved(owner: string, tail: string)
    requires Segment(owner) && RepoText(tail)
    ensures RemoveUrlPrefixes("http://github.com/" + (owner + "/" + tail)) == owner + "/" + tail
  {
    var body := owner + "/" + tail;
    var host := "github.com/" + body;
    SlashAfterOwner(owner, tail);
    HttpNoHttps(body);
    HttpSchemeRemoved(body);
    FromGitHubSlash(owner, tail);
    PrefixesInSteps("http://github.com/" + body, "http://github.com/" + body, host,
                    RemoveAll(host, "github.com/"), body);
  }

  /** Removing `http://` from `http://github.com/body` leaves `github.com/body`. */
  lemma HttpSchemeRemoved(body: string)
    requires ':' !in body
    ensures RemoveAll("http://github.com/" + body, "http://") == "github.com/" + body
  {
    HttpSpelling(body);
    LeadingSchemeRemoved("http://", "github.com/" + body);
  }

  /** The four removals of `RemoveUrlPrefixes`, one named stage at a time. */
  lemma PrefixesInSteps(spec: string, s1: string, s2: string, s3: string, r: string)
    requires RemoveAll(spec, "https://") == s1 && RemoveAll(s1, "http://") == s2
    requires RemoveAll(s2, "github.com/") == s3 && RemoveAll(s3, "git@github.com:") == r
    ensures RemoveUrlPrefixes(spec) == r
  {
  }

  /** In `git@github.com:owner/tail` neither URL scheme occurs: the one `:` is
      followed by the owner, not by `//`. */
  lemma SshNoScheme(owner: string, tail: string)
    requires Segment(owner) && RepoText(tail)
    ensures var s := "git@github.com:" + (owner + "/" + tail);
      RemoveAll(RemoveAll(s, "https://"), "http://") == s
  {
    SshColon(owner, tail);
    SshNoHttps(owner, tail);
    SshNoHttp(owner, tail);
  }

  /** The one `:` of `git@github.com:owner/tail` is at index 14, and the owner follows it. */
  lemma SshColon(owner: string, tail: string)
    requires Segment(owner) && RepoText(tail)
    ensures var s := "git@github.com:" + (owner + "/" + tail);
      && |s| > 15 && s[15] == owner[0]
      && forall i | 0 <= i < |s| && s[i] == ':' :: i == 14
  {
    var body := owner + "/" + tail;
    var s := "git@github.com:" + body;
    SlashAfterOwner(owner, tail);
    assert s == "git@github.com" + [':'] + body;
    OnlyOccurrence("git@github.com", ':', body);
  }

  /** `https://` cannot occur in `git@github.com:owner/tail`: its `:` would have to
      sit at index 14, and the `/` after it at index 15, where the owner's first
      character is. */
  lemma SshNoHttps(owner: string, tail: string)
    requires Segment(owner) && RepoText(tail)
    ensures var s := "git@github.com:" + (owner + "/" + tail); RemoveAll(s, "https://") == s
  {
    var s := "git@github.com:" + (owner + "/" + tail);
    SshColon(owner, tail);
    if 9 + 8 <= |s| {
      assert s[9..17][6] == s[15];
    }
    NoOccurrenceByAlignment("https://", s, 5, 14);
    RemoveAllUnchanged(s, "https://");
  }

  /** `http://` cannot occur in `git@github.com:owner/tail` either: its `:` at index
      14 would need `/` at index 15, where the owner's first character is. */
  lemma SshNoHttp(owner: string, tail: string)
    requires Segment(owner) && RepoText(tail)
    ensures var s := "git@github.com:" + (owner + "/" + tail); RemoveAll(s, "http://") == s
  {
    var s := "git@github.com:" + (owner + "/" + tail);
    SshColon(owner, tail);
    if 10 + 7 <= |s| {
      assert s[10..17][5] == s[15];
    }
    NoOccurrenceByAlignment("http://", s, 4, 14);
    RemoveAllUnchanged(s, "http://");
  }

  /** `github.com/` cannot occur in `pre` followed by `owner/tail` when `pre` has
      no `/` and its last four characters no `.`: the pattern's slash would be the
      owner's, and its dot would then fall on those four characters or on the owner. */
  lemma NoHostAfter(pre: string, owner: string, tail: string)
    requires |pre| >= 4 && '/' !in pre
    requires forall i | |pre| - 4 <= i < |pre| :: pre[i] != '.'
    requires Segment(owner) && RepoText(tail)
    ensures !Occurs("github.com/", pre + (owner + "/" + tail))
  {
    var body := owner + "/" + tail;
    var s := pre + body;
    var q := |pre| + |owner|;
    SlashAfterOwner(owner, tail);
    assert forall i | 0 <= i < |pre| :: s[i] == pre[i];
    assert forall i | |pre| <= i < |s| :: s[i] == body[i - |pre|];
    assert forall i | 0 <= i < |s| && s[i] == "github.com/"[10] :: i == q;
    var d := q - 4;
    if |owner| >= 4 {
      assert s[d] == body[|owner| - 4] == owner[|owner| - 4];
    } else {
      assert s[d] == pre[d];
    }
    if 0 <= q - 10 && q + 1 <= |s| {
      assert s[q - 10..q + 1][6] == s[d];
    }
    NoOccurrenceByAlignment("github.com/", s, 10, q);
  }

  /** Nor does `github.com/` occur in `git@github.com:owner/tail`. */
  lemma SshNoHost(owner: string, tail: string)
    requires Segment(owner) && RepoText(tail)
    ensures var s := "git@github.com:" + (owner + "/" + tail);
      !Occurs("github.com/", s)
  {
    SshHostChars();
    NoHostAfter("git@github.com:", owner, tail);
  }

  lemma SshHostChars()
    ensures '/' !in "git@github.com:"
    ensures forall i | 11 <= i < 15 :: "git@github.com:"[i] != '.'
  {
  }

  lemma SshPrefixRemoved(owner: string, tail: string)
    requires Segment(owner) && RepoText(tail)
    ensures RemoveUrlPrefixes("git@github.com:" + (owner + "/" + tail)) == owner + "/" + tail
  {
    var body := owner + "/" + tail;
    var s := "git@github.com:" + body;
    SlashAfterOwner(owner, tail);
    SshNoScheme(owner, tail);
    SshNoHost(owner, tail);
    RemoveAllUnchanged(s, "github.com/");
    RemoveAllLeading("git@github.com:", body);
    RemoveAllAbsent(body, "git@github.com:", '@');
  }

  lemma HostPrefixRemoved(owner: string, tail: string)
    requires Segment(owner) && RepoText(tail)
    ensures RemoveUrlPrefixes("github.com/" + (owner + "/" + tail)) == owner + "/" + tail
  {
    var body := owner + "/" + tail;
    SlashAfterOwner(owner, tail);
    NoColon("github.com/" + body, "https://");
    NoColon("github.com/" + body, "http://");
    FromGitHubSlash(owner, tail);
  }

  lemma BarePrefixRemoved(owner: string, tail: string)
    requires Segment(owner) && RepoText(tail)
    ensures RemoveUrlPrefixes(owner + "/" + tail) == owner + "/" + tail
  {
    var body := owner + "/" + tail;
    SlashAfterOwner(owner, tail);
    NoColon(body, "https://");
    NoColon(body, "http://");
    NoGitHubSlash(owner, tail);
    RemoveAllUnchanged(body, "github.com/");
    RemoveAllAbsent(body, "git@github.com:", '@');
  }

  /** Each URL form loses exactly its prefix. */
  lemma PrefixesRemoved(prefix: string, owner: string, tail: string)
    requires prefix in UrlForms
    requires Segment(owner) && RepoText(tail)
    ensures RemoveUrlPrefixes(prefix + (owner + "/" + tail)) == owner + "/" + tail
  {
    if prefix == "https://github.com/" {
      HttpsPrefixRemoved(owner, tail);
    } else if prefix == "http://github.com/" {
      HttpPrefixRemoved(owner, tail);
    } else if prefix == "git@github.com:" {
      SshPrefixRemoved(owner, tail);
    } else if prefix == "github.com/" {
      HostPrefixRemoved(owner, tail);
    } else {
      assert prefix + (owner + "/" + tail) == owner + "/" + tail;
      BarePrefixRemoved(owner, tail);
    }
  }

  // ---------------------------------------------------------------- Round trips

  /** `owner/repo` is returned unchanged by the final split. */
  lemma FirstTwoOfOwnerRepo(owner: string, repo: string)
    requires '/' !in owner && '/' !in repo
    ensures FirstTwoSegments(owner + "/" + repo) == Ok(owner + "/" + repo)
  {
    SplitAtFirst(owner, '/', repo);
    SplitNoSeparator(repo, '/');
  }

  /** A repository name made of `[\w.-]` has no `/`, nor does an owner. */
  lemma NoSlashIn(owner: string, repo: string)
    requires Segment(owner) && RepoText(repo)
    ensures '/' !in owner && '/' !in repo
  {
  }

  /** `owner/repo` has no `/` at either end, so stripping leaves it alone. */
  lemma StripOwnerRepo(owner: string, repo: string)
    requires Segment(owner) && |repo| > 0 && RepoText(repo)
    ensures Strip(owner + "/" + repo, '/') == owner + "/" + repo
  {
    var s := owner + "/" + repo;
    assert s[0] == owner[0] && s[|s| - 1] == repo[|repo| - 1];
  }

  /** A repository name followed by at most a `.git` suffix is still `[\w.-]` text. */
  lemma SuffixedRepoText(repo: string, suffix: string)
    requires RepoText(repo) && (suffix == "" || suffix == ".git")
    ensures RepoText(repo + suffix)
  {
    var tail := repo + suffix;
    assert forall k | 0 <= k < |tail| :: tail[k] == if k < |repo| then repo[k] else suffix[k - |repo|];
  }

  /** As written, removing `.git` from `owner/repo.git` leaves `owner/repo` when
      neither part holds a dot. */
  lemma GitRemovedAsWritten(owner: string, repo: string, suffix: string)
    requires Segment(owner) && Segment(repo) && (suffix == "" || suffix == ".git")
    ensures RemoveAll(owner + "/" + (repo + suffix), ".git") == owner + "/" + repo
  {
    RemoveAllAcross(owner, '/', repo + suffix, ".git");
    RemoveAllAbsent(owner, ".git", '.');
    if suffix == "" {
      assert repo + suffix == repo;
      RemoveAllAbsent(repo, ".git", '.');
    } else {
      RemoveAllSkip(repo, ".git", ".git");
      RemoveAllLeading(".git", "");
      assert ".git" + "" == ".git";
      assert RemoveAll(repo + suffix, ".git") == repo;
    }
  }

  /** How a spelled-out argument groups: prefix, then `owner/` and the name with its suffix. */
  lemma SpecShape(prefix: string, owner: string, repo: string, suffix: string)
    ensures prefix + owner + "/" + repo + suffix == prefix + (owner + "/" + (repo + suffix))
  {
  }

  /** As written, the parser reads back `owner/repo` from every URL form, with or
      without `.git`, provided the repository name holds no dot. */
  lemma ParseAsWrittenRoundTrip(prefix: string, owner: string, repo: string, suffix: string)
    requires prefix in UrlForms && (suffix == "" || suffix == ".git")
    requires Segment(owner) && Segment(repo)
    ensures ParseRepoSpecAsWritten(prefix + owner + "/" + repo + suffix) == Ok(owner + "/" + repo)
  {
    var tail := repo + suffix;
    var spec := prefix + (owner + "/" + tail);
    SpecShape(prefix, owner, repo, suffix);
    SuffixedRepoText(repo, suffix);
    PrefixesRemoved(prefix, owner, tail);
    GitRemovedAsWritten(owner, repo, suffix);
    StripOwnerRepo(owner, repo);
    NoSlashIn(owner, repo);
    FirstTwoOfOwnerRepo(owner, repo);
  }

  /** `owner/repo` does not end in `.git` when the name does not: a shorter name
      would put the owner's `/` inside the suffix. */
  lemma NotGitSuffixed(owner: string, repo: string)
    requires |repo| > 0 && !EndsWith(repo, ".git")
    ensures !EndsWith(owner + "/" + repo, ".git")
  {
    var s := owner + "/" + repo;
    if |repo| >= 4 {
      assert s[|s| - 4..] == repo[|repo| - 4..];
    } else if |s| >= 4 {
      assert s[|s| - 4..][|owner| - (|s| - 4)] == '/';
    }
  }

  /** Dropping the `.git` of `owner/repo.git` and stripping leaves `owner/repo`. */
  lemma DropGitSuffix(owner: string, repo: string)
    requires Segment(owner) && |repo| > 0 && RepoText(repo)
    ensures TrimGitSuffix(owner + "/" + repo + ".git") == owner + "/" + repo
  {
    var s := owner + "/" + repo;
    var body := s + ".git";
    assert body[|body| - 4..] == ".git";
    assert EndsWith(body, ".git");
    assert body[..|body| - 4] == s;
    assert TrimGitSuffix(body) == Strip(s, '/');
    StripOwnerRepo(owner, repo);
  }

  /** The corrected suffix trimming of `owner/repo` plus an optional `.git`
      leaves `owner/repo`, whatever dots the name holds. */
  lemma TrimOwnerRepo(owner: string, repo: string, suffix: string)
    requires Segment(owner) && |repo| > 0 && RepoText(repo) && !EndsWith(repo, ".git")
    requires suffix == "" || suffix == ".git"
    ensures TrimGitSuffix(owner + "/" + (repo + suffix)) == owner + "/" + repo
  {
    if suffix == "" {
      assert repo + suffix == repo;
      NotGitSuffixed(owner, repo);
    } else {
      assert owner + "/" + (repo + suffix) == owner + "/" + repo + ".git";
      DropGitSuffix(owner, repo);
    }
  }

  /** Once the URL prefix is gone, the corrected cleaning leaves `owner/repo`. */
  lemma CleanedFromBody(spec: string, owner: string, repo: string, suffix: string)
    requires Segment(owner) && |repo| > 0 && RepoText(repo) && !EndsWith(repo, ".git")
    requires suffix == "" || suffix == ".git"
    requires RemoveUrlPrefixes(spec) == owner + "/" + (repo + suffix)
    ensures CleanRepoSpec(spec) == owner + "/" + repo
  {
    StrippedBody(spec, owner, repo, suffix);
    TrimOwnerRepo(owner, repo, suffix);
    CleanedInSteps(spec, owner + "/" + (repo + suffix), owner + "/" + repo);
  }

  /** The corrected cleaning is the strip followed by the suffix trim. */
  lemma CleanedInSteps(spec: string, stripped: string, cleaned: string)
    requires Strip(RemoveUrlPrefixes(spec), '/') == stripped
    requires TrimGitSuffix(stripped) == cleaned
    ensures CleanRepoSpec(spec) == cleaned
  {
  }

  /** With the URL prefix gone, stripping `/` leaves `owner/repo` plus its suffix alone. */
  lemma StrippedBody(spec: string, owner: string, repo: string, suffix: string)
    requires Segment(owner) && |repo| > 0 && RepoText(repo)
    requires suffix == "" || suffix == ".git"
    requires RemoveUrlPrefixes(spec) == owner + "/" + (repo + suffix)
    ensures Strip(RemoveUrlPrefixes(spec), '/') == owner + "/" + (repo + suffix)
  {
    SuffixedRepoText(repo, suffix);
    StripOwnerRepo(owner, repo + suffix);
  }

  /** The corrected parser reads back `owner/repo` from every URL form, with or
      without `.git`, for every repository name GitHub allows, dots included. */
  lemma ParseRoundTrip(prefix: string, owner: string, repo: string, suffix: string)
    requires prefix in UrlForms && (suffix == "" || suffix == ".git")
    requires Segment(owner) && |repo| > 0 && RepoText(repo) && !EndsWith(repo, ".git")
    ensures ParseRepoSpec(prefix + owner + "/" + repo + suffix) == Ok(owner + "/" + repo)
  {
    var tail := repo + suffix;
    var spec := prefix + (owner + "/" + tail);
    SpecShape(prefix, owner, repo, suffix);
    SuffixedRepoText(repo, suffix);
    PrefixesRemoved(prefix, owner, tail);
    CleanedFromBody(spec, owner, repo, suffix);
    NoSlashIn(owner, repo);
    FirstTwoOfOwnerRepo(owner, repo);
  }

  /** As written, a `.git` inside the repository name is deleted along with a
      trailing one, so the name loses four characters. */
  lemma InnerGitRemovedAsWritten(owner: string, a: string, b: string)
    requires Segment(owner) && Segment(a) && RemoveAll(b, ".git") == b
    ensures RemoveAll(owner + "/" + (a + ".git" + b), ".git") == owner + "/" + (a + b)
  {
    RemoveAllAcross(owner, '/', a + ".git" + b, ".git");
    RemoveAllAbsent(owner, ".git", '.');
    assert a + ".git" + b == a + (".git" + b);
    RemoveAllSkip(a, ".git" + b, ".git");
    RemoveAllLeading(".git", b);
  }

  /** Characters of a repository name around an inner `.git`. */
  lemma InnerGitRepoText(a: string, b: string)
    requires Segment(a) && RepoText(b)
    ensures RepoText(a + ".git" + b) && RepoText(a + b)
  {
    var n := a + ".git" + b;
    assert forall k | 0 <= k < |n| ::
      n[k] == if k < |a| then a[k] else if k < |a| + 4 then ".git"[k - |a|] else b[k - |a| - 4];
    var m := a + b;
    assert forall k | 0 <= k < |m| :: m[k] == if k < |a| then a[k] else b[k - |a|];
  }

  /** A name with `.git` inside and some other ending does not end in `.git`. */
  lemma InnerGitNotSuffix(a: string, b: string)
    requires |b| > 0 && !EndsWith(b, ".git")
    ensures !EndsWith(a + ".git" + b, ".git")
  {
    var n := a + ".git" + b;
    if |b| >= 4 {
      assert n[|n| - 4..] == b[|b| - 4..];
    } else {
      assert n[|n| - 4..][0] == ".git"[|b|];
    }
  }

  /** As written: every URL form of `owner/a.gitb` is read back as `owner/ab`. */
  lemma InnerGitParsedAsWritten(prefix: string, owner: string, a: string, b: string)
    requires prefix in UrlForms
    requires Segment(owner) && Segment(a) && RepoText(b) && RemoveAll(b, ".git") == b
    ensures ParseRepoSpecAsWritten(prefix + (owner + "/" + (a + ".git" + b))) == Ok(owner + "/" + (a + b))
  {
    var name, read := a + ".git" + b, a + b;
    var spec := prefix + (owner + "/" + name);
    InnerGitRepoText(a, b);
    PrefixesRemoved(prefix, owner, name);
    InnerGitRemovedAsWritten(owner, a, b);
    ParsedFromBodyAsWritten(spec, owner, read);
  }

  /** Once the prefixes and every `.git` are gone, `owner/repo` is what the
      parser as written returns. */
  lemma ParsedFromBodyAsWritten(spec: string, owner: string, repo: string)
    requires Segment(owner) && |repo| > 0 && RepoText(repo)
    requires RemoveAll(RemoveUrlPrefixes(spec), ".git") == owner + "/" + repo
    ensures ParseRepoSpecAsWritten(spec) == Ok(owner + "/" + repo)
  {
    StripOwnerRepo(owner, repo);
    NoSlashIn(owner, repo);
    FirstTwoOfOwnerRepo(owner, repo);
  }

  /** Corrected: the same arguments are read back with the name intact. */
  lemma InnerGitParsed(prefix: string, owner: string, a: string, b: string)
    requires prefix in UrlForms
    requires Segment(owner) && Segment(a) && RepoText(b) && |b| > 0 && !EndsWith(b, ".git")
    ensures ParseRepoSpec(prefix + (owner + "/" + (a + ".git" + b))) == Ok(owner + "/" + (a + ".git" + b))
  {
    var name := a + ".git" + b;
    var spec := prefix + (owner + "/" + name);
    InnerGitRepoText(a, b);
    InnerGitNotSuffix(a, b);
    PrefixesRemoved(prefix, owner, name);
    assert name + "" == name;
    CleanedFromBody(spec, owner, name, "");
    NoSlashIn(owner, name);
    FirstTwoOfOwnerRepo(owner, name);
  }

  /** The pieces of `owner/site.github.io` around its `.git`. */
  lemma PagesNames()
    ensures Segment("owner") && Segment("site") && RepoText("hub.io")
  {
  }

  lemma PagesTail()
    ensures RemoveAll("hub.io", ".git") == "hub.io" && !EndsWith("hub.io", ".git")
  {
    assert "hub.io" == "hub" + ".io";
    RemoveAllSkip("hub", ".io", ".git");
    assert RemoveAll(".io", ".git") == ".io";
    assert "hub.io"[2..][0] == 'b';
  }

  /** The GitHub Pages repository `owner/site.github.io`: as written the checker
      queries `owner/sitehub.io`; corrected, `owner/site.github.io`. */
  lemma DottedRepoMangled()
    ensures var spec := "https://github.com/" + ("owner" + "/" + ("site" + ".git" + "hub.io"));
      && ParseRepoSpecAsWritten(spec) == Ok("owner" + "/" + ("site" + "hub.io"))
      && ParseRepoSpec(spec) == Ok("owner" + "/" + ("site" + ".git" + "hub.io"))
  {
    PagesNames();
    PagesTail();
    InnerGitParsedAsWritten("https://github.com/", "owner", "site", "hub.io");
    InnerGitParsed("https://github.com/", "owner", "site", "hub.io");
  }
}
