/** The string operations of Python's `str` that the checker relies on. */
module Text {
  import opened Wrappers

  /** What Python's `int(...)` and `float(...)` accept: a text either
      denotes a number (`Some`) or makes the call raise `ValueError` (`None`).
      The model is stated for every such pair of conversions. */
  datatype NumberSyntax = NumberSyntax(toInt: string -> Option<int>, toReal: string -> Option<real>)

  /** `s.startswith(prefix)` */
  predicate StartsWith(s: string, prefix: string)
    ensures StartsWith(s, prefix) <==> |prefix| <= |s| && forall k :: 0 <= k < |prefix| ==> s[k] == prefix[k]
  {
    prefix <= s
  }

  /** `s.endswith(suffix)` */
  predicate EndsWith(s: string, suffix: string)
    ensures EndsWith(s, suffix) <==>
      |suffix| <= |s| && forall k :: 0 <= k < |suffix| ==> s[|s| - |suffix| + k] == suffix[k]
  {
    |suffix| <= |s| && s[|s| - |suffix|..] == suffix
  }

  /** `pat in s` */
  predicate Contains(s: string, pat: string)
  {
    exists i :: 0 <= i <= |s| && pat <= s[i..]
  }

  /** A pattern whose first character does not occur in `s` does not occur
      in `s`. */
  lemma {:induction false} AbsentFirstChar(s: string, pat: string)
    requires pat != "" && pat[0] !in s
    ensures !Contains(s, pat)
  {
    forall i | 0 <= i <= |s| ensures !(pat <= s[i..]) {
      if i < |s| {
        assert s[i..][0] == s[i];
      }
    }
  }

  /** `s.split(sep)` for a one-character separator: every occurrence of `sep`
      ends a field, so empty fields are kept and there is always one field
      more than there are separators. */
  function Split(s: string, sep: char): (fields: seq<string>)
    ensures |fields| >= 1
    ensures forall k :: 0 <= k < |fields| ==> sep !in fields[k]
    ensures |fields| >= 2 <==> sep in s
    decreases |s|
  {
    if s == [] then [""]
    else
      var rest := Split(s[1..], sep);
      if s[0] == sep then [""] + rest
      else [[s[0]] + rest[0]] + rest[1..]
  }

  /** `sep.join(fields)`, the inverse of `Split`. */
  function Join(fields: seq<string>, sep: char): string
  {
    if |fields| == 0 then ""
    else if |fields| == 1 then fields[0]
    else fields[0] + [sep] + Join(fields[1..], sep)
  }

  lemma {:induction false} JoinEmptyFirst(rest: seq<string>, sep: char)
    requires |rest| >= 1
    ensures Join([""] + rest, sep) == [sep] + Join(rest, sep)
  {
    assert ([""] + rest)[1..] == rest;
  }

  lemma {:induction false} JoinExtendFirst(c: char, rest: seq<string>, sep: char)
    requires |rest| >= 1
    ensures Join([[c] + rest[0]] + rest[1..], sep) == [c] + Join(rest, sep)
  {
    var fields := [[c] + rest[0]] + rest[1..];
    if |rest| > 1 {
      assert fields[1..] == rest[1..];
    }
  }

  /** Splitting loses nothing: joining the fields back gives the text. */
  lemma {:induction false} JoinSplit(s: string, sep: char)
    ensures Join(Split(s, sep), sep) == s
    decreases |s|
  {
    if s != [] {
      JoinSplit(s[1..], sep);
      var rest := Split(s[1..], sep);
      if s[0] == sep {
        JoinEmptyFirst(rest, sep);
      } else {
        JoinExtendFirst(s[0], rest, sep);
      }
      assert s == [s[0]] + s[1..];
    }
  }

  /** The first field leads the joined text; the separator and the join of
      the other fields follow it. */
  lemma {:induction false} JoinHead(fields: seq<string>, sep: char)
    requires |fields| >= 1
    ensures fields[0] <= Join(fields, sep)
    ensures |fields| == 1 ==> Join(fields, sep) == fields[0]
    ensures |fields| >= 2 ==>
      var n := |fields[0]|;
      n < |Join(fields, sep)| && Join(fields, sep)[n] == sep && Join(fields, sep)[n + 1..] == Join(fields[1..], sep)
  {
    if |fields| >= 2 {
      var n := |fields[0]|;
      var joined := fields[0] + [sep] + Join(fields[1..], sep);
      assert joined[..n] == fields[0];
      assert joined[n + 1..] == Join(fields[1..], sep);
    }
  }

  /** A text without the separator followed by the separator is split off as
      the first field. */
  lemma {:induction false} SplitAtFirst(a: string, sep: char, b: string)
    requires sep !in a
    ensures Split(a + [sep] + b, sep) == [a] + Split(b, sep)
    decreases |a|
  {
    if a == [] {
      assert a + [sep] + b == [sep] + b;
      assert ([sep] + b)[1..] == b;
    } else {
      SplitAtFirst(a[1..], sep, b);
      assert (a + [sep] + b)[1..] == a[1..] + [sep] + b;
      assert [a[0]] + a[1..] == a;
    }
  }

  /** `s.replace(pat, "")`: scanning from the left, every occurrence of `pat`
      that does not overlap an earlier removed one is dropped. */
  function RemoveAll(s: string, pat: string): (r: string)
    requires pat != ""
    ensures |r| <= |s|
    decreases |s|
  {
    if s == [] then ""
    else if pat <= s then RemoveAll(s[|pat|..], pat)
    else [s[0]] + RemoveAll(s[1..], pat)
  }

  /** A text in which the pattern does not occur is returned unchanged. */
  lemma {:induction false} RemoveAllAbsent(s: string, pat: string)
    requires pat != ""
    requires !Contains(s, pat)
    ensures RemoveAll(s, pat) == s
    decreases |s|
  {
    if s != [] {
      assert s[0..] == s;
      assert !Contains(s[1..], pat) by {
        forall i | 0 <= i <= |s[1..]|
          ensures !(pat <= s[1..][i..])
        {
          assert s[1..][i..] == s[i + 1..];
        }
      }
      RemoveAllAbsent(s[1..], pat);
      assert [s[0]] + s[1..] == s;
    }
  }

  /** Under the same condition, no occurrence starts inside `a` and runs
      into the occurrence that follows it. */
  lemma NoStraddle(a: string, pat: string, b: string)
    requires pat != "" && a != [] && !(pat <= a)
    requires forall k :: 1 <= k < |pat| ==> pat[k] != pat[0]
    ensures !(pat <= a + pat + b)
  {
    var s := a + pat + b;
    if |a| >= |pat| {
      assert s[..|pat|] == a[..|pat|];
    } else {
      assert s[|a|] == pat[0];
      assert pat[|a|] != pat[0];
    }
  }

  /** When the first character of the pattern does not recur in it, no
      occurrence can straddle the start of an occurrence, so removing around
      one occurrence splits the text there. */
  lemma {:induction false} RemoveAllSplice(a: string, pat: string, b: string)
    requires pat != ""
    requires forall k :: 1 <= k < |pat| ==> pat[k] != pat[0]
    ensures RemoveAll(a + pat + b, pat) == RemoveAll(a, pat) + RemoveAll(b, pat)
    decreases |a|, 1
  {
    if a == [] {
      var s := a + pat + b;
      assert s == pat + b;
      assert s[|pat|..] == b;
    } else if pat <= a {
      SpliceAfterMatch(a, pat, b);
    } else {
      SpliceAfterMiss(a, pat, b);
    }
  }

  /** `a` starts with an occurrence: it is dropped on both sides. */
  lemma {:induction false} SpliceAfterMatch(a: string, pat: string, b: string)
    requires pat != "" && a != [] && pat <= a
    requires forall k :: 1 <= k < |pat| ==> pat[k] != pat[0]
    ensures RemoveAll(a + pat + b, pat) == RemoveAll(a, pat) + RemoveAll(b, pat)
    decreases |a|, 0
  {
    var s := a + pat + b;
    assert RemoveAll(s, pat) == RemoveAll(a[|pat|..] + pat + b, pat) by {
      assert s[..|pat|] == a[..|pat|];
      assert s[|pat|..] == a[|pat|..] + pat + b;
    }
    RemoveAllSplice(a[|pat|..], pat, b);
  }

  /** `a` does not start with an occurrence: its first character is kept on
      both sides. */
  lemma {:induction false} SpliceAfterMiss(a: string, pat: string, b: string)
    requires pat != "" && a != [] && !(pat <= a)
    requires forall k :: 1 <= k < |pat| ==> pat[k] != pat[0]
    ensures RemoveAll(a + pat + b, pat) == RemoveAll(a, pat) + RemoveAll(b, pat)
    decreases |a|, 0
  {
    var s := a + pat + b;
    assert RemoveAll(s, pat) == [a[0]] + RemoveAll(a[1..] + pat + b, pat) by {
      NoStraddle(a, pat, b);
      assert s[1..] == a[1..] + pat + b;
    }
    RemoveAllSplice(a[1..], pat, b);
  }
}
