/**
 The handful of Python string operations the compliance checker relies on:
 substring tests (`needle in hay`), ASCII lower-casing, `str.replace(pat, '')`,
 `str.strip(c)` and `str.split(c)`, each over `string` = `seq<char>`.
 */
module PyStrings {

  /** `needle` occurs in `hay` starting at index `i`. */
  ghost predicate OccursAt(needle: string, hay: string, i: int)
  {
    0 <= i && i + |needle| <= |hay| && hay[i..i + |needle|] == needle
  }

  /** Python's `needle in hay` on two strings: a contiguous occurrence somewhere. */
  ghost predicate Occurs(needle: string, hay: string)
  {
    exists i :: OccursAt(needle, hay, i)
  }

  /** The characters of `needle` from index `j` on agree with `hay` from index `i + j` on.
      Written index by index so that it evaluates on string literals. */
  predicate MatchesFrom(needle: string, hay: string, i: nat, j: nat)
    requires i + |needle| <= |hay| && j <= |needle|
    decreases |needle| - j
  {
    j == |needle| || (hay[i + j] == needle[j] && MatchesFrom(needle, hay, i, j + 1))
  }

  lemma {:induction false} MatchesFromIsSlice(needle: string, hay: string, i: nat, j: nat)
    requires i + |needle| <= |hay| && j <= |needle|
    ensures MatchesFrom(needle, hay, i, j) <==> hay[i + j..i + |needle|] == needle[j..]
    decreases |needle| - j
  {
    if j < |needle| {
      MatchesFromIsSlice(needle, hay, i, j + 1);
      assert hay[i + j..i + |needle|] == [hay[i + j]] + hay[i + j + 1..i + |needle|];
      assert needle[j..] == [needle[j]] + needle[j + 1..];
    }
  }

  /** Python's `needle in hay`, trying the start positions from `i` on. */
  function InStrFrom(needle: string, hay: string, i: nat): (b: bool)
    ensures b <==> exists k :: i <= k && OccursAt(needle, hay, k)
    decreases |hay| - i
  {
    if i + |needle| > |hay| then false
    else if MatchesFrom(needle, hay, i, 0) then
      MatchesFromIsSlice(needle, hay, i, 0);
      assert OccursAt(needle, hay, i);
      true
    else
      MatchesFromIsSlice(needle, hay, i, 0);
      assert !OccursAt(needle, hay, i);
      InStrFrom(needle, hay, i + 1)
  }

  /** Python's `needle in hay` for two strings. */
  function InStr(needle: string, hay: string): (b: bool)
    ensures b <==> Occurs(needle, hay)
  {
    InStrFrom(needle, hay, 0)
  }

  /** `s` starts with `prefix`, evaluated character by character. */
  predicate StartsWith(s: string, prefix: string)
  {
    |prefix| <= |s| && MatchesFrom(prefix, s, 0, 0)
  }

  /** Lower-casing twice changes nothing more than lower-casing once. */
  lemma LowerIdempotent(s: string)
    ensures Lower(Lower(s)) == Lower(s)
  {
    assert forall i | 0 <= i < |s| :: Lower(Lower(s))[i] == Lower(s)[i];
  }

  /** A needle without capitals that occurs in `hay` still occurs once `hay` is lower-cased. */
  lemma LowerKeepsOccurrence(needle: string, hay: string)
    requires forall j | 0 <= j < |needle| :: !('A' <= needle[j] <= 'Z')
    ensures Occurs(needle, hay) ==> Occurs(needle, Lower(hay))
  {
    if Occurs(needle, hay) {
      var k :| OccursAt(needle, hay, k);
      forall j | 0 <= j < |needle|
        ensures Lower(hay)[k + j] == needle[j]
      {
        assert hay[k + j] == hay[k..k + |needle|][j];
      }
      assert Lower(hay)[k..k + |needle|] == needle;
      assert OccursAt(needle, Lower(hay), k);
    }
  }

  lemma StartsWithIsPrefix(s: string, prefix: string)
    ensures StartsWith(s, prefix) <==> |prefix| <= |s| && s[..|prefix|] == prefix
  {
    if |prefix| <= |s| {
      MatchesFromIsSlice(prefix, s, 0, 0);
    }
  }

  /** ASCII lower-casing of one character. */
  function LowerChar(c: char): char
  {
    if 'A' <= c <= 'Z' then (c as int + 32) as char else c
  }

  /** `s.lower()` restricted to ASCII letters: each capital becomes its small
      letter, every other character is kept, and no capital remains. */
  function Lower(s: string): (r: string)
    ensures |r| == |s|
    ensures forall i | 0 <= i < |s| ::
      && ('A' <= s[i] <= 'Z' ==> r[i] as int == s[i] as int + 32)
      && (!('A' <= s[i] <= 'Z') ==> r[i] == s[i])
    ensures forall i | 0 <= i < |r| :: !('A' <= r[i] <= 'Z')
  {
    seq(|s|, i requires 0 <= i < |s| => LowerChar(s[i]))
  }

  /** Python's `s.replace(pat, '')`: scanning left to right, every occurrence of
      `pat` that does not overlap an earlier removed one is deleted. */
  function RemoveAll(s: string, pat: string): (r: string)
    requires |pat| > 0
    ensures |r| <= |s|
    ensures Occurs(pat, s) ==> |r| <= |s| - |pat|
    ensures forall c :: c in r ==> c in s
    decreases |s|
  {
    if |s| < |pat| then s
    else if s[..|pat|] == pat then RemoveAll(s[|pat|..], pat)
    else
      var rest := RemoveAll(s[1..], pat);
      assert forall c :: c in rest ==> c in s[1..];
      OccursPastFirst(pat, s);
      [s[0]] + rest
  }

  /** An occurrence that does not start at index 0 lies in `s[1..]`. */
  lemma OccursPastFirst(pat: string, s: string)
    requires 0 < |pat| <= |s| && s[..|pat|] != pat
    ensures Occurs(pat, s) ==> Occurs(pat, s[1..])
  {
    if Occurs(pat, s) {
      var k :| OccursAt(pat, s, k);
      assert k != 0;
      forall j | 0 <= j < |pat|
        ensures s[1..][k - 1 + j] == pat[j]
      {
        assert s[k + j] == s[k..k + |pat|][j];
      }
      assert s[1..][k - 1..k - 1 + |pat|] == pat;
      assert OccursAt(pat, s[1..], k - 1);
    }
  }

  /** An occurrence in `s[1..]` is one in `s`, one place further on. */
  lemma OccursInTail(pat: string, s: string)
    requires |s| > 0
    ensures Occurs(pat, s[1..]) ==> Occurs(pat, s)
  {
    if Occurs(pat, s[1..]) {
      var k :| OccursAt(pat, s[1..], k);
      forall j | 0 <= j < |pat|
        ensures s[k + 1 + j] == pat[j]
      {
        assert s[k + 1 + j] == s[1..][k..k + |pat|][j];
      }
      assert s[k + 1..k + 1 + |pat|] == pat;
      assert OccursAt(pat, s, k + 1);
    }
  }

  /** Removing from a string in which `pat` never occurs changes nothing. */
  lemma {:induction false} RemoveAllUnchanged(s: string, pat: string)
    requires |pat| > 0 && !Occurs(pat, s)
    ensures RemoveAll(s, pat) == s
    decreases |s|
  {
    if |s| >= |pat| {
      assert !OccursAt(pat, s, 0);
      OccursInTail(pat, s);
      RemoveAllUnchanged(s[1..], pat);
      assert [s[0]] + s[1..] == s;
    }
  }

  /** A pattern holding a character the string lacks cannot occur in it. */
  lemma AbsentCharNoOccurrence(s: string, pat: string, c: char)
    requires c in pat && c !in s
    ensures !Occurs(pat, s)
  {
  }

  lemma RemoveAllAbsent(s: string, pat: string, c: char)
    requires |pat| > 0 && c in pat && c !in s
    ensures RemoveAll(s, pat) == s
  {
    AbsentCharNoOccurrence(s, pat, c);
    RemoveAllUnchanged(s, pat);
  }

  /** An occurrence at the very start is deleted and the scan resumes after it. */
  lemma RemoveAllLeading(pat: string, t: string)
    requires |pat| > 0
    ensures RemoveAll(pat + t, pat) == RemoveAll(t, pat)
  {
    assert (pat + t)[..|pat|] == pat;
    assert (pat + t)[|pat|..] == t;
  }

  /** A character that is not part of `pat` separates the string into two halves
      whose removals do not interact. */
  lemma {:induction false} RemoveAllAcross(a: string, c: char, b: string, pat: string)
    requires |pat| > 0 && c !in pat
    ensures RemoveAll(a + [c] + b, pat) == RemoveAll(a, pat) + [c] + RemoveAll(b, pat)
    decreases |a|
  {
    if |a| == 0 {
      assert a + [c] + b == [c] + b;
      RemoveAllAtSeparator(c, b, pat);
    } else if |a| >= |pat| && a[..|pat|] == pat {
      RemoveAllAcross(a[|pat|..], c, b, pat);
      AcrossMatchStep(a, c, b, pat);
    } else {
      RemoveAllAcross(a[1..], c, b, pat);
      AcrossKeepStep(a, c, b, pat);
    }
  }

  /** The inductive step of `RemoveAllAcross` when `a` begins with `pat`. */
  lemma AcrossMatchStep(a: string, c: char, b: string, pat: string)
    requires |pat| > 0 && |a| >= |pat| && a[..|pat|] == pat
    requires RemoveAll(a[|pat|..] + [c] + b, pat) == RemoveAll(a[|pat|..], pat) + [c] + RemoveAll(b, pat)
    ensures RemoveAll(a + [c] + b, pat) == RemoveAll(a, pat) + [c] + RemoveAll(b, pat)
  {
    var s := a + [c] + b;
    assert s[..|pat|] == a[..|pat|];
    assert s[|pat|..] == a[|pat|..] + [c] + b;
    RemoveAllDropsMatch(s, pat);
    RemoveAllDropsMatch(a, pat);
  }

  /** The inductive step of `RemoveAllAcross` when `a` does not begin with `pat`. */
  lemma AcrossKeepStep(a: string, c: char, b: string, pat: string)
    requires |pat| > 0 && c !in pat && |a| > 0 && !(|a| >= |pat| && a[..|pat|] == pat)
    requires RemoveAll(a[1..] + [c] + b, pat) == RemoveAll(a[1..], pat) + [c] + RemoveAll(b, pat)
    ensures RemoveAll(a + [c] + b, pat) == RemoveAll(a, pat) + [c] + RemoveAll(b, pat)
  {
    KeepsFirstAcross(a, c, b, pat);
    RemoveAllKeepsFirst(a, pat);
    Recombine(RemoveAll(a + [c] + b, pat), RemoveAll(a, pat), RemoveAll(a[1..] + [c] + b, pat),
              RemoveAll(a[1..], pat), a[0], c, RemoveAll(b, pat));
  }

  /** The first character of `a` survives the removal from `a + [c] + b`. */
  lemma KeepsFirstAcross(a: string, c: char, b: string, pat: string)
    requires |pat| > 0 && c !in pat && |a| > 0 && !(|a| >= |pat| && a[..|pat|] == pat)
    ensures RemoveAll(a + [c] + b, pat) == [a[0]] + RemoveAll(a[1..] + [c] + b, pat)
  {
    var s := a + [c] + b;
    NoMatchBeforeSeparator(a, c, b, pat);
    assert s[0] == a[0] && s[1..] == a[1..] + [c] + b;
    RemoveAllKeepsFirst(s, pat);
  }

  /** Regrouping the kept head character with the text before the separator. */
  lemma Recombine(whole: string, left: string, tail: string, leftTail: string, h: char, c: char, right: string)
    requires whole == [h] + tail && tail == leftTail + [c] + right && left == [h] + leftTail
    ensures whole == left + [c] + right
  {
  }

  /** An occurrence at index 0 is deleted and the scan resumes after it. */
  lemma RemoveAllDropsMatch(s: string, pat: string)
    requires 0 < |pat| <= |s| && s[..|pat|] == pat
    ensures RemoveAll(s, pat) == RemoveAll(s[|pat|..], pat)
  {
  }

  /** Where no occurrence starts at index 0, the first character is kept. */
  lemma RemoveAllKeepsFirst(s: string, pat: string)
    requires |pat| > 0 && |s| > 0 && !(|s| >= |pat| && s[..|pat|] == pat)
    ensures RemoveAll(s, pat) == [s[0]] + RemoveAll(s[1..], pat)
  {
    if |s| < |pat| {
      assert RemoveAll(s[1..], pat) == s[1..];
      assert s == [s[0]] + s[1..];
    }
  }

  /** A separator that `pat` does not contain is kept and cannot start an occurrence. */
  lemma RemoveAllAtSeparator(c: char, b: string, pat: string)
    requires |pat| > 0 && c !in pat
    ensures RemoveAll([c] + b, pat) == [c] + RemoveAll(b, pat)
  {
    var s := [c] + b;
    if |s| >= |pat| {
      assert s[..|pat|][0] == c;
    } else {
      assert RemoveAll(b, pat) == b;
    }
    assert s[1..] == b;
  }

  /** When `a` does not begin with `pat`, neither does `a + [c] + b`: a window
      that outgrows `a` reaches `c`, which `pat` does not contain. */
  lemma NoMatchBeforeSeparator(a: string, c: char, b: string, pat: string)
    requires |pat| > 0 && c !in pat && |a| > 0
    requires !(|a| >= |pat| && a[..|pat|] == pat)
    ensures var s := a + [c] + b; |s| >= |pat| ==> s[..|pat|] != pat
  {
    var s := a + [c] + b;
    if |s| >= |pat| {
      if |a| >= |pat| {
        assert s[..|pat|] == a[..|pat|];
      } else {
        assert s[..|pat|][|a|] == c;
      }
    }
  }

  /** A leading stretch that lacks the first character of `pat` cannot start an
      occurrence, so it passes through unchanged. */
  lemma {:induction false} RemoveAllSkip(x: string, t: string, pat: string)
    requires |pat| > 0 && pat[0] !in x
    ensures RemoveAll(x + t, pat) == x + RemoveAll(t, pat)
    decreases |x|
  {
    if |x| > 0 {
      var s := x + t;
      if |s| >= |pat| {
        assert s[..|pat|][0] == x[0];
      } else {
        RemoveAllUnchanged(t, pat);
      }
      assert s[1..] == x[1..] + t;
      RemoveAllSkip(x[1..], t, pat);
      assert x == [x[0]] + x[1..];
    } else {
      assert x + t == t;
    }
  }

  /** If the `m`-th character of `pat` appears in `s` only at index `q`, an occurrence
      can only start at `q - m`; ruling that one out rules out every occurrence. */
  lemma NoOccurrenceByAlignment(pat: string, s: string, m: nat, q: int)
    requires m < |pat|
    requires forall i | 0 <= i < |s| && s[i] == pat[m] :: i == q
    requires !OccursAt(pat, s, q - m)
    ensures !Occurs(pat, s)
  {
    forall k: int
      ensures !OccursAt(pat, s, k)
    {
      if k != q - m && 0 <= k && k + |pat| <= |s| {
        assert s[k..k + |pat|][m] == s[k + m];
      }
    }
  }

  /** In `a + [c] + b`, with `c` in neither part, `c` stands only at index `|a|`. */
  lemma OnlyOccurrence(a: string, c: char, b: string)
    requires c !in a && c !in b
    ensures forall i | 0 <= i < |a + [c] + b| && (a + [c] + b)[i] == c :: i == |a|
  {
    var s := a + [c] + b;
    assert forall i | 0 <= i < |a| :: s[i] == a[i];
    assert forall i | |a| < i < |s| :: s[i] == b[i - |a| - 1];
  }

  /** Python's `s.endswith(suffix)`. */
  predicate EndsWith(s: string, suffix: string)
  {
    |suffix| <= |s| && s[|s| - |suffix|..] == suffix
  }

  /** When `s` holds the separator, its first two pieces, rejoined by it, are a
      prefix of `s` that ends at a separator or at the end of `s`. */
  lemma SplitFirstTwo(s: string, sep: char)
    requires sep in s
    ensures |Split(s, sep)| >= 2
    ensures var parts := Split(s, sep); var head := parts[0] + [sep] + parts[1];
      |head| <= |s| && s[..|head|] == head && (|head| == |s| || s[|head|] == sep)
  {
    SplitCount(s, sep);
    JoinedHead(Split(s, sep), sep);
  }

  /** The first two pieces, joined by `sep`, begin the joined string and are
      followed by `sep` or by nothing. */
  lemma JoinedHead(parts: seq<string>, sep: char)
    requires |parts| >= 2
    ensures var head := parts[0] + [sep] + parts[1]; var s := Join(parts, sep);
      |head| <= |s| && s[..|head|] == head && (|head| == |s| || s[|head|] == sep)
  {
    var head := parts[0] + [sep] + parts[1];
    var s := Join(parts, sep);
    var rest := Join(parts[1..], sep);
    assert s == parts[0] + [sep] + rest;
    if |parts| == 2 {
      assert rest == parts[1];
      assert s == head;
    } else {
      var tail := Join(parts[2..], sep);
      assert parts[1..][1..] == parts[2..];
      assert rest == parts[1] + [sep] + tail;
      assert s == head + [sep] + tail;
      HeadBeforeSeparator(head, sep, tail, s);
    }
  }

  /** What precedes a separator is a prefix, and the separator follows it. */
  lemma HeadBeforeSeparator(head: string, sep: char, tail: string, s: string)
    requires s == head + [sep] + tail
    ensures |head| < |s| && s[..|head|] == head && s[|head|] == sep
  {
  }

  /** Python's `s.lstrip(c)`. */
  function TrimStart(s: string, c: char): (r: string)
    ensures |r| <= |s| && r == s[|s| - |r|..]
    ensures |r| > 0 ==> r[0] != c
    ensures forall k | 0 <= k < |s| - |r| :: s[k] == c
    decreases |s|
  {
    if |s| > 0 && s[0] == c then TrimStart(s[1..], c) else s
  }

  /** Python's `s.rstrip(c)`. */
  function TrimEnd(s: string, c: char): (r: string)
    ensures |r| <= |s| && r == s[..|r|]
    ensures |r| > 0 ==> r[|r| - 1] != c
    ensures forall k | |r| <= k < |s| :: s[k] == c
    decreases |s|
  {
    if |s| > 0 && s[|s| - 1] == c then TrimEnd(s[..|s| - 1], c) else s
  }

  /** `r` is the slice of `s` starting at `i`, and everything of `s` before and
      after that slice is `c`. */
  predicate TrimmedAt(s: string, c: char, r: string, i: int)
  {
    && 0 <= i <= |s| - |r|
    && r == s[i..i + |r|]
    && (forall k | 0 <= k < i :: s[k] == c)
    && (forall k | i + |r| <= k < |s| :: s[k] == c)
  }

  /** Python's `s.strip(c)` for a single character `c`: `s` with its leading and
      trailing runs of `c` cut off. */
  function Strip(s: string, c: char): (r: string)
    ensures |r| <= |s|
    ensures exists i :: TrimmedAt(s, c, r, i)
    ensures |r| > 0 ==> r[0] != c && r[|r| - 1] != c
    ensures forall ch :: ch in r ==> ch in s
    ensures (|s| == 0 || (s[0] != c && s[|s| - 1] != c)) ==> r == s
  {
    var t := TrimStart(s, c);
    assert forall ch :: ch in t ==> ch in s;
    var r := TrimEnd(t, c);
    assert forall ch :: ch in r ==> ch in t;
    EdgeRuns(s, t, r, c);
    r
  }

  /** A suffix `t` of `s` after a run of `c`, cut back to a prefix `r` before a
      run of `c`, is `s` trimmed at `|s| - |t|`. */
  lemma EdgeRuns(s: string, t: string, r: string, c: char)
    requires |t| <= |s| && t == s[|s| - |t|..]
    requires forall k | 0 <= k < |s| - |t| :: s[k] == c
    requires |r| <= |t| && r == t[..|r|]
    requires forall k | |r| <= k < |t| :: t[k] == c
    ensures TrimmedAt(s, c, r, |s| - |t|)
  {
    var i := |s| - |t|;
    assert r == s[i..i + |r|];
    forall k | i + |r| <= k < |s|
      ensures s[k] == c
    {
      assert s[k] == t[k - i];
    }
  }

  /** `sep.join(parts)` for a one-character separator. */
  function Join(parts: seq<string>, sep: char): string
    requires |parts| > 0
  {
    if |parts| == 1 then parts[0] else parts[0] + [sep] + Join(parts[1..], sep)
  }

  /** Python's `s.split(sep)` for a one-character separator: the pieces between
      separators, so that joining them back with `sep` gives `s` again. */
  function Split(s: string, sep: char): (parts: seq<string>)
    ensures |parts| > 0
    ensures forall i | 0 <= i < |parts| :: sep !in parts[i]
    ensures Join(parts, sep) == s
    decreases |s|
  {
    if |s| == 0 then [""]
    else
      var rest := Split(s[1..], sep);
      if s[0] == sep then
        assert ([""] + rest)[1..] == rest;
        [""] + rest
      else
        var parts := [[s[0]] + rest[0]] + rest[1..];
        assert parts[1..] == rest[1..];
        assert Join(parts, sep) == [s[0]] + Join(rest, sep) by {
          if |rest| > 1 {
            assert Join(rest, sep) == rest[0] + [sep] + Join(rest[1..], sep);
          }
        }
        assert [s[0]] + s[1..] == s;
        parts
  }

  /** A string splits into more than one piece exactly when it holds the separator. */
  lemma SplitCount(s: string, sep: char)
    ensures |Split(s, sep)| > 1 <==> sep in s
  {
    var parts := Split(s, sep);
    if |parts| > 1 {
      assert Join(parts, sep) == parts[0] + [sep] + Join(parts[1..], sep);
      assert Join(parts, sep)[|parts[0]|] == sep;
    }
  }

  /** Splitting at the first separator: the piece before it, then the pieces of the rest. */
  lemma {:induction false} SplitAtFirst(a: string, sep: char, b: string)
    requires sep !in a
    ensures Split(a + [sep] + b, sep) == [a] + Split(b, sep)
    decreases |a|
  {
    var s := a + [sep] + b;
    if |a| == 0 {
      assert s[1..] == b;
    } else {
      assert s[1..] == a[1..] + [sep] + b;
      SplitAtFirst(a[1..], sep, b);
      assert [a[0]] + a[1..] == a;
    }
  }

  /** A string without the separator is a single piece. */
  lemma SplitNoSeparator(s: string, sep: char)
    requires sep !in s
    ensures Split(s, sep) == [s]
  {
    SplitCount(s, sep);
  }
}
