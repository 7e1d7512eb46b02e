/**
 * The Python string operations the pipeline relies on: `sep.join(parts)`,
 * `s.split(c)` for a one-character separator, `s.strip()`, `s.lower()`,
 * `s.replace(pat, "")` and `s.count(c)`, each stated on `seq<char>`.
 */
module Text {

  /** `str.isspace()` for one character: the characters Python's `strip()` removes. */
  predicate IsSpace(c: char)
  {
    ('\t' <= c <= '\r') || ('\U{1C}' <= c <= '\U{1F}') || c == ' '
    || c == '\U{85}' || c == '\U{A0}' || c == '\U{1680}'
    || ('\U{2000}' <= c <= '\U{200A}') || c == '\U{2028}' || c == '\U{2029}'
    || c == '\U{202F}' || c == '\U{205F}' || c == '\U{3000}'
  }

  predicate IsUpper(c: char)
  {
    'A' <= c <= 'Z'
  }

  /** Lower-casing of one character (ASCII letters only). */
  function LowerChar(c: char): (d: char)
    ensures !IsUpper(d)
    ensures !IsUpper(c) ==> d == c
    ensures IsUpper(c) ==> d as int == c as int + ('a' as int - 'A' as int)
    ensures IsSpace(d) == IsSpace(c)
    ensures d == ',' <==> c == ','
  {
    if IsUpper(c) then (c as int - 'A' as int + 'a' as int) as char else c
  }

  /**
   * `s.lower()`: the length kept and each character lower-cased in its
   * place, so a capital becomes its small letter and any other character
   * stays.
   */
  function Lower(s: string): (r: string)
    ensures |r| == |s|
    ensures forall i :: 0 <= i < |r| ==> !IsUpper(r[i])
    ensures forall i :: 0 <= i < |s| ==> r[i] == LowerChar(s[i])
  {
    seq(|s|, i requires 0 <= i < |s| => LowerChar(s[i]))
  }

  /** `s.count(c)` for a single character. */
  function Count(s: string, c: char): nat
  {
    if |s| == 0 then 0 else (if s[0] == c then 1 else 0) + Count(s[1..], c)
  }

  /** `sep.join(parts)`. */
  function Join(sep: string, parts: seq<string>): (r: string)
    ensures |parts| == 0 ==> r == ""
    ensures |parts| > 0 ==> parts[0] <= r
  {
    if |parts| == 0 then ""
    else if |parts| == 1 then parts[0]
    else parts[0] + sep + Join(sep, parts[1..])
  }

  /** `s.split(c)` for a one-character separator `c`: the maximal pieces between separators. */
  function Split(s: string, c: char): (r: seq<string>)
    ensures |r| == Count(s, c) + 1
    ensures forall i :: 0 <= i < |r| ==> c !in r[i]
  {
    if |s| == 0 then [""]
    else if s[0] == c then [""] + Split(s[1..], c)
    else
      var rest := Split(s[1..], c);
      [[s[0]] + rest[0]] + rest[1..]
  }

  /** Leading whitespace removed: `r` is a suffix of `s` preceded only by whitespace. */
  function StripLeft(s: string): (r: string)
    ensures |r| <= |s| && r == s[|s| - |r|..]
    ensures forall i :: 0 <= i < |s| - |r| ==> IsSpace(s[i])
    ensures |r| > 0 ==> !IsSpace(r[0])
  {
    if |s| > 0 && IsSpace(s[0]) then
      var r := StripLeft(s[1..]);
      assert s[1..][|s| - 1 - |r|..] == s[|s| - |r|..];
      assert forall i :: 1 <= i < |s| - |r| ==> s[i] == s[1..][i - 1];
      r
    else s
  }

  /** Trailing whitespace removed: `r` is a prefix of `s` followed only by whitespace. */
  function StripRight(s: string): (r: string)
    ensures |r| <= |s| && r == s[..|r|]
    ensures forall i :: |r| <= i < |s| ==> IsSpace(s[i])
    ensures |r| > 0 ==> !IsSpace(r[|r| - 1])
  {
    if |s| > 0 && IsSpace(s[|s| - 1]) then StripRight(s[..|s| - 1]) else s
  }

  /** `s.strip()`: the result neither starts nor ends with whitespace. */
  function Strip(s: string): (r: string)
    ensures |r| <= |s|
    ensures |r| > 0 ==> !IsSpace(r[0]) && !IsSpace(r[|r| - 1])
  {
    StripRight(StripLeft(s))
  }

  /** A string without whitespace is its own strip. */
  lemma StripNoSpace(s: string)
    requires forall i :: 0 <= i < |s| ==> !IsSpace(s[i])
    ensures Strip(s) == s
  {
  }

  /** A string of whitespace only strips to "". */
  lemma StripAllSpace(s: string)
    requires forall i :: 0 <= i < |s| ==> IsSpace(s[i])
    ensures Strip(s) == ""
  {
    assert StripLeft(s) == "";
  }

  /**
   * `s.replace(pat, "")` for a non-empty pattern: scanning left to right,
   * every non-overlapping occurrence of `pat` is dropped.
   */
  function RemoveAll(s: string, pat: string): (r: string)
    requires |pat| > 0
    ensures |r| <= |s|
    decreases |s|
  {
    if |s| < |pat| then s
    else if s[..|pat|] == pat then RemoveAll(s[|pat|..], pat)
    else [s[0]] + RemoveAll(s[1..], pat)
  }

  // ---------------------------------------------------------------------
  // join and split

  lemma {:induction false} JoinFirstPrefix(sep: string, x: string, p: string, ps: seq<string>)
    ensures Join(sep, [x + p] + ps) == x + Join(sep, [p] + ps)
  {
    if |ps| > 0 {
      assert ([x + p] + ps)[1..] == ps;
      assert ([p] + ps)[1..] == ps;
    }
  }

  /** Joining two non-empty lists puts one separator between their joins. */
  lemma {:induction false} JoinConcat(sep: string, a: seq<string>, b: seq<string>)
    requires |a| > 0 && |b| > 0
    ensures Join(sep, a + b) == Join(sep, a) + sep + Join(sep, b)
  {
    if |a| == 1 {
      assert (a + b)[1..] == b;
    } else {
      assert (a + b)[1..] == a[1..] + b;
      JoinConcat(sep, a[1..], b);
    }
  }

  /** A character absent from every part and from the separator is absent from the join. */
  lemma {:induction false} JoinAvoids(sep: string, parts: seq<string>, x: char)
    requires x !in sep
    requires forall i :: 0 <= i < |parts| ==> x !in parts[i]
    ensures x !in Join(sep, parts)
  {
    if |parts| > 1 {
      JoinAvoids(sep, parts[1..], x);
    }
  }

  /** Splitting and re-joining with the same separator gives back the string. */
  lemma {:induction false} SplitJoin(s: string, c: char)
    ensures Join([c], Split(s, c)) == s
  {
    if |s| > 0 {
      SplitJoin(s[1..], c);
      var rest := Split(s[1..], c);
      if s[0] == c {
        assert s == [c] + s[1..];
        assert ([""] + rest)[1..] == rest;
      } else {
        assert s == [s[0]] + s[1..];
        JoinFirstPrefix([c], [s[0]], rest[0], rest[1..]);
        assert [rest[0]] + rest[1..] == rest;
      }
    }
  }

  lemma {:induction false} SplitNoSeparator(a: string, c: char)
    requires c !in a
    ensures Split(a, c) == [a]
  {
    if |a| > 0 {
      SplitNoSeparator(a[1..], c);
      assert [a[0]] + a[1..] == a;
    }
  }

  /** A separator after a separator-free prefix ends the first piece exactly there. */
  lemma {:induction false} SplitAtFirst(a: string, c: char, b: string)
    requires c !in a
    ensures Split(a + [c] + b, c) == [a] + Split(b, c)
  {
    if |a| == 0 {
      assert a + [c] + b == [c] + b;
      assert ([c] + b)[1..] == b;
    } else {
      assert (a + [c] + b)[1..] == a[1..] + [c] + b;
      SplitAtFirst(a[1..], c, b);
      assert [a[0]] + a[1..] == a;
    }
  }

  /**
   * Splitting on `c` a join whose separator is `c` followed by `t` gives back
   * the first part and every later part with `t` in front of it.
   */
  lemma {:induction false} SplitJoinedParts(parts: seq<string>, c: char, t: string)
    requires |parts| > 0
    requires c !in t
    requires forall i :: 0 <= i < |parts| ==> c !in parts[i]
    ensures Split(Join([c] + t, parts), c)
      == [parts[0]] + seq(|parts| - 1, i requires 0 <= i < |parts| - 1 => t + parts[i + 1])
    decreases |parts|
  {
    var sep := [c] + t;
    if |parts| == 1 {
      SplitNoSeparator(parts[0], c);
    } else {
      var tail := [t + parts[1]] + parts[2..];
      assert parts[1..] == [parts[1]] + parts[2..];
      JoinFirstPrefix(sep, t, parts[1], parts[2..]);
      assert Join(sep, parts) == parts[0] + [c] + Join(sep, tail);
      assert forall i :: 0 <= i < |tail| ==> c !in tail[i] by {
        forall i | 0 <= i < |tail| ensures c !in tail[i] {
          if i > 0 { assert tail[i] == parts[i + 1]; }
        }
      }
      SplitJoinedParts(tail, c, t);
      SplitAtFirst(parts[0], c, Join(sep, tail));
      var want := seq(|parts| - 1, i requires 0 <= i < |parts| - 1 => t + parts[i + 1]);
      var got := [tail[0]] + seq(|tail| - 1, i requires 0 <= i < |tail| - 1 => t + tail[i + 1]);
      assert |got| == |want|;
      forall i | 0 <= i < |want| ensures got[i] == want[i] {
        if i > 0 { assert tail[i] == parts[i + 1]; }
      }
      assert got == want;
    }
  }

  // ---------------------------------------------------------------------
  // strip and lower

  lemma {:induction false} LowerIdempotent(s: string)
    ensures Lower(Lower(s)) == Lower(s)
  {
  }

  /** No upper-case letter survives lower-casing. */
  lemma LowerAvoidsUpper(s: string, c: char)
    requires IsUpper(c)
    ensures c !in Lower(s)
  {
    var r := Lower(s);
    assert forall k :: 0 <= k < |r| ==> r[k] != c;
  }

  lemma {:induction false} StripLeftLower(s: string)
    ensures StripLeft(Lower(s)) == Lower(StripLeft(s))
    decreases |s|
  {
    if |s| > 0 {
      var t := Lower(s);
      assert t[0] == LowerChar(s[0]);
      if IsSpace(s[0]) {
        assert t[1..] == Lower(s[1..]);
        calc {
          StripLeft(t);
          StripLeft(Lower(s[1..]));
          { StripLeftLower(s[1..]); }
          Lower(StripLeft(s[1..]));
        }
      } else {
        assert StripLeft(t) == t;
      }
    }
  }

  /** Lower-casing works character by character, so it commutes with appending one. */
  lemma LowerSnoc(p: string, c: char)
    ensures Lower(p + [c]) == Lower(p) + [LowerChar(c)]
  {
    var l := Lower(p + [c]);
    assert forall k :: 0 <= k < |p| ==> l[k] == LowerChar(p[k]);
  }

  /** One step of `StripRight`: a trailing space goes, anything else ends the stripping. */
  lemma StripRightSnoc(p: string, c: char)
    ensures IsSpace(c) ==> StripRight(p + [c]) == StripRight(p)
    ensures !IsSpace(c) ==> StripRight(p + [c]) == p + [c]
  {
    assert (p + [c])[..|p|] == p;
  }

  lemma {:induction false} StripRightLower(s: string)
    ensures StripRight(Lower(s)) == Lower(StripRight(s))
    decreases |s|
  {
    if |s| > 0 {
      var p, c := s[..|s| - 1], s[|s| - 1];
      assert s == p + [c];
      LowerSnoc(p, c);
      StripRightSnoc(p, c);
      StripRightSnoc(Lower(p), LowerChar(c));
      if IsSpace(c) {
        StripRightLower(p);
      }
    }
  }

  /** Stripping removes characters only at the ends, so it introduces no new character. */
  lemma StripAvoids(s: string, c: char)
    requires c !in s
    ensures c !in Strip(s)
  {
    var l := StripLeft(s);
    assert forall k :: 0 <= k < |l| ==> l[k] == s[|s| - |l| + k];
    var r := StripRight(l);
    assert forall k :: 0 <= k < |r| ==> r[k] == l[k];
  }

  /** Lower-casing maps the comma to itself and nothing else to it. */
  lemma LowerAvoidsComma(s: string)
    requires ',' !in s
    ensures ',' !in Lower(s)
  {
    var r := Lower(s);
    assert forall k :: 0 <= k < |r| ==> r[k] == LowerChar(s[k]);
  }

  /** Lower-casing neither creates nor removes whitespace, so it commutes with strip. */
  lemma StripLower(s: string)
    ensures Strip(Lower(s)) == Lower(Strip(s))
  {
    StripLeftLower(s);
    StripRightLower(StripLeft(s));
  }

  /** Stripping a stripped string changes nothing. */
  lemma StripIdempotent(s: string)
    ensures Strip(Strip(s)) == Strip(s)
  {
    var t := Strip(s);
    var l := StripLeft(s);
    if |t| > 0 {
      assert t[0] == l[0];
    }
    assert StripLeft(t) == t;
    assert StripRight(t) == t;
  }

  /** A leading blank does not change the stripped result. */
  lemma StripLeadingBlank(q: string)
    ensures Strip(" " + q) == Strip(q)
  {
    assert (" " + q)[1..] == q;
  }

  /** An occurrence of the pattern at the start is dropped. */
  lemma RemoveAllPrefix(pat: string, s: string)
    requires |pat| > 0
    ensures RemoveAll(pat + s, pat) == RemoveAll(s, pat)
  {
    assert (pat + s)[..|pat|] == pat;
    assert (pat + s)[|pat|..] == s;
  }

  /**
   * The first occurrence of the pattern, behind a stretch where no match
   * can start, is dropped and the stretch kept.
   */
  lemma {:induction false} RemoveAllFirst(a: string, pat: string, b: string)
    requires |pat| > 0 && pat[0] !in a
    ensures RemoveAll(a + pat + b, pat) == a + RemoveAll(b, pat)
    decreases |a|
  {
    if |a| == 0 {
      assert a + pat + b == pat + b;
      RemoveAllPrefix(pat, b);
    } else {
      var x, rest := a[0], a[1..];
      assert a == [x] + rest;
      assert a + pat + b == [x] + (rest + pat + b);
      RemoveAllKeep(x, rest + pat + b, pat);
      RemoveAllFirst(rest, pat, b);
      assert [x] + (rest + RemoveAll(b, pat)) == a + RemoveAll(b, pat);
    }
  }

  /** A character where the pattern cannot start is kept. */
  lemma RemoveAllKeep(x: char, rest: string, pat: string)
    requires |pat| > 0 && |rest| + 1 >= |pat| && x != pat[0]
    ensures RemoveAll([x] + rest, pat) == [x] + RemoveAll(rest, pat)
  {
    var s := [x] + rest;
    assert s[..|pat|][0] == x;
    assert s[1..] == rest;
  }

  lemma {:induction false} RemoveAllAbsent(s: string, pat: string)
    requires |pat| > 0
    requires pat[0] !in s
    ensures RemoveAll(s, pat) == s
    decreases |s|
  {
    if |s| >= |pat| {
      assert s[..|pat|][0] == s[0];
      RemoveAllAbsent(s[1..], pat);
      assert [s[0]] + s[1..] == s;
    }
  }

  lemma {:induction false} CountConcat(a: string, b: string, c: char)
    ensures Count(a + b, c) == Count(a, c) + Count(b, c)
  {
    if |a| > 0 {
      assert (a + b)[1..] == a[1..] + b;
      CountConcat(a[1..], b, c);
    } else {
      assert a + b == b;
    }
  }

  lemma {:induction false} CountAbsent(s: string, c: char)
    requires c !in s
    ensures Count(s, c) == 0
  {
    if |s| > 0 {
      CountAbsent(s[1..], c);
    }
  }

  /** Removing a pattern that does not contain `c` keeps every `c`. */
  lemma {:induction false} RemoveAllKeepsCount(s: string, pat: string, c: char)
    requires |pat| > 0
    requires c !in pat
    ensures Count(RemoveAll(s, pat), c) == Count(s, c)
    decreases |s|
  {
    if |s| < |pat| {
    } else if s[..|pat|] == pat {
      assert s == s[..|pat|] + s[|pat|..];
      CountConcat(s[..|pat|], s[|pat|..], c);
      CountAbsent(pat, c);
      RemoveAllKeepsCount(s[|pat|..], pat, c);
    } else {
      RemoveAllKeepsCount(s[1..], pat, c);
      assert ([s[0]] + RemoveAll(s[1..], pat))[1..] == RemoveAll(s[1..], pat);
    }
  }
}
