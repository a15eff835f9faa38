/** String handling of the application: JavaScript whitespace, `trim()` as used
    to reject blank input, and the export file name, which replaces every run
    of whitespace in the deck title by one underscore and appends `.pptx`. */
module Text {

  /** What replaces each whitespace run in the file name. */
  const Separator: char := '_'

  const Extension: string := ".pptx"

  /** The class `\s` of JavaScript regular expressions, which is also the set
      of characters `String.prototype.trim` removes: tab, line feed, vertical
      tab, form feed, carriage return, space, and the Unicode space separators,
      line and paragraph separators and byte order mark. */
  const WhiteSpace: set<char> := {
    '\t', '\n', '\U{000B}', '\U{000C}', '\r', ' ', '\U{00A0}', '\U{1680}',
    '\U{2000}', '\U{2001}', '\U{2002}', '\U{2003}', '\U{2004}', '\U{2005}',
    '\U{2006}', '\U{2007}', '\U{2008}', '\U{2009}', '\U{200A}',
    '\U{2028}', '\U{2029}', '\U{202F}', '\U{205F}', '\U{3000}', '\U{FEFF}'
  }

  /** Membership in `WhiteSpace`, decided by code-point ranges. */
  function IsWs(c: char): (b: bool)
    ensures b <==> c in WhiteSpace
    ensures b ==> c != Separator
  {
    || ('\t' <= c <= '\r')
    || c == ' '
    || c == '\U{00A0}'
    || c == '\U{1680}'
    || ('\U{2000}' <= c <= '\U{200A}')
    || c == '\U{2028}'
    || c == '\U{2029}'
    || c == '\U{202F}'
    || c == '\U{205F}'
    || c == '\U{3000}'
    || c == '\U{FEFF}'
  }

  predicate NoWs(s: string) {
    forall i :: 0 <= i < |s| ==> !IsWs(s[i])
  }

  predicate AllWs(s: string) {
    forall i :: 0 <= i < |s| ==> IsWs(s[i])
  }

  /** `s` without its leading whitespace (`trimStart`). */
  function DropWs(s: string): (r: string)
    ensures |r| <= |s|
    ensures r == [] || !IsWs(r[0])
    ensures |r| == |s| ==> r == s
    decreases |s|
  {
    if s != [] && IsWs(s[0]) then DropWs(s[1..]) else s
  }

  /** `s` without its trailing whitespace (`trimEnd`). */
  function TrimEnd(s: string): (r: string)
    ensures |r| <= |s|
    ensures r == [] || !IsWs(r[|r| - 1])
    ensures r != [] ==> r[0] == s[0]
    decreases |s|
  {
    if s != [] && IsWs(s[|s| - 1]) then TrimEnd(s[..|s| - 1]) else s
  }

  /** `String.prototype.trim`: `s` without its leading and trailing
      whitespace; what is left neither starts nor ends with whitespace. */
  function Trim(s: string): (r: string)
    ensures |r| <= |s|
    ensures r == [] || (!IsWs(r[0]) && !IsWs(r[|r| - 1]))
  {
    TrimEnd(DropWs(s))
  }

  /** `DropWs` removes a whitespace prefix and keeps the rest of `s`,
      character for character. */
  lemma {:induction false} DropWsCutsWs(s: string)
    ensures var k := |s| - |DropWs(s)|;
      && (forall j :: 0 <= j < k ==> IsWs(s[j]))
      && (forall j :: 0 <= j < |DropWs(s)| ==> DropWs(s)[j] == s[k + j])
    decreases |s|
  {
    if s != [] && IsWs(s[0]) {
      var rest, d := s[1..], DropWs(s);
      DropWsCutsWs(rest);
      assert d == DropWs(rest);
      var k := |s| - |d|;
      forall j | 0 <= j < k
        ensures IsWs(s[j])
      {
        if j > 0 { assert s[j] == rest[j - 1]; }
      }
      forall j | 0 <= j < |d|
        ensures d[j] == s[k + j]
      {
        assert s[k + j] == rest[k - 1 + j];
      }
    }
  }

  /** `TrimEnd` removes a whitespace suffix and keeps the start of `s`,
      character for character. */
  lemma {:induction false} TrimEndCutsWs(s: string)
    ensures forall j :: 0 <= j < |TrimEnd(s)| ==> TrimEnd(s)[j] == s[j]
    ensures forall j :: |TrimEnd(s)| <= j < |s| ==> IsWs(s[j])
    decreases |s|
  {
    if s != [] && IsWs(s[|s| - 1]) {
      TrimEndCutsWs(s[..|s| - 1]);
    }
  }

  /** `trim()` cuts whitespace only: the result is the input from the end of
      its leading whitespace on, character for character, and everything
      before and after it is whitespace. */
  lemma TrimCutsOnlyWs(s: string)
    ensures var i, r := |s| - |DropWs(s)|, Trim(s);
      && i + |r| <= |s|
      && (forall j :: 0 <= j < |r| ==> r[j] == s[i + j])
      && (forall j :: 0 <= j < i ==> IsWs(s[j]))
      && (forall j :: i + |r| <= j < |s| ==> IsWs(s[j]))
  {
    DropWsCutsWs(s);
    TrimEndCutsWs(DropWs(s));
  }

  lemma {:induction false} DropWsEmptyIffAllWs(s: string)
    ensures DropWs(s) == [] <==> AllWs(s)
    decreases |s|
  {
    if s != [] && IsWs(s[0]) {
      DropWsEmptyIffAllWs(s[1..]);
      assert AllWs(s) <==> AllWs(s[1..]) by {
        if AllWs(s[1..]) {
          forall i | 0 <= i < |s| ensures IsWs(s[i]) {
            if i > 0 { assert s[i] == s[1..][i - 1]; }
          }
        }
      }
    }
  }

  lemma {:induction false} TrimEndEmptyIffAllWs(s: string)
    ensures TrimEnd(s) == [] <==> AllWs(s)
    decreases |s|
  {
    if s != [] && IsWs(s[|s| - 1]) {
      var init := s[..|s| - 1];
      TrimEndEmptyIffAllWs(init);
      assert AllWs(s) <==> AllWs(init) by {
        if AllWs(init) {
          forall i | 0 <= i < |s| ensures IsWs(s[i]) {
            if i < |s| - 1 { assert s[i] == init[i]; }
          }
        }
      }
    }
  }

  /** The input is blank, in the sense of `!text.trim()`, exactly when every
      character of it is whitespace (the empty input included). */
  lemma {:induction false} TrimEmptyIffAllWs(s: string)
    ensures Trim(s) == [] <==> AllWs(s)
  {
    DropWsEmptyIffAllWs(s);
    TrimEndEmptyIffAllWs(DropWs(s));
    var t := DropWs(s);
    if t != [] {
      assert !IsWs(t[0]);
    }
  }

  /** `title.replace(/\s+/g, '_')`: each maximal run of whitespace becomes a
      single separator; every other character is kept. The result is never
      longer than the title and contains no whitespace at all. */
  function Sanitize(s: string): (r: string)
    ensures |r| <= |s|
    ensures NoWs(r)
    decreases |s|
  {
    if s == [] then []
    else if IsWs(s[0]) then [Separator] + Sanitize(DropWs(s[1..]))
    else [s[0]] + Sanitize(s[1..])
  }

  /** The name handed to the file writer: the sanitized title plus `.pptx`. */
  function FileName(title: string): (r: string)
    ensures |r| == |Sanitize(title)| + |Extension|
    ensures r[..|r| - |Extension|] == Sanitize(title)
    ensures r[|r| - |Extension|..] == Extension
    ensures NoWs(r)
  {
    Sanitize(title) + Extension
  }

  /** A reference for `Sanitize` that reads the title one character at a
      time, remembering whether it is inside a whitespace run: a separator is
      emitted on entering a run and nothing for the rest of it. */
  function ScanRuns(inRun: bool, s: string): string
    decreases |s|
  {
    if s == [] then [] else Emit(inRun, s[0]) + ScanRuns(IsWs(s[0]), s[1..])
  }

  /** What the scanner writes for one character. */
  function Emit(inRun: bool, c: char): string {
    if !IsWs(c) then [c] else if inRun then [] else [Separator]
  }

  /** Whether the scanner is inside a run after reading `s`. */
  function EndsInRun(inRun: bool, s: string): bool {
    if s == [] then inRun else IsWs(s[|s| - 1])
  }

  lemma {:induction false} ScanRunsSkipsRun(s: string)
    ensures ScanRuns(true, s) == ScanRuns(false, DropWs(s))
    decreases |s|
  {
    if s != [] && IsWs(s[0]) {
      ScanRunsSkipsRun(s[1..]);
    }
  }

  /** The run-collapsing definition and the one-pass scanner agree on every
      title: each maximal whitespace run yields exactly one separator. */
  lemma {:induction false} SanitizeMatchesScan(s: string)
    ensures Sanitize(s) == ScanRuns(false, s)
    decreases |s|
  {
    if s == [] {
    } else if IsWs(s[0]) {
      ScanRunsSkipsRun(s[1..]);
      SanitizeMatchesScan(DropWs(s[1..]));
    } else {
      SanitizeMatchesScan(s[1..]);
    }
  }

  lemma {:induction false} ScanRunsAppend(inRun: bool, a: string, t: string)
    ensures ScanRuns(inRun, a + t) == ScanRuns(inRun, a) + ScanRuns(EndsInRun(inRun, a), t)
    decreases |a|
  {
    if a == [] {
      assert a + t == t;
    } else {
      var rest := a[1..];
      assert EndsInRun(IsWs(a[0]), rest) == EndsInRun(inRun, a) by {
        if rest != [] { assert rest[|rest| - 1] == a[|a| - 1]; }
      }
      ScanRunsAppend(IsWs(a[0]), rest, t);
      ScanRunsConsAppend(inRun, a[0], rest, t, EndsInRun(inRun, a));
      assert a == [a[0]] + rest;
    }
  }

  lemma ScanRunsConsAppend(inRun: bool, c: char, rest: string, t: string, after: bool)
    requires ScanRuns(IsWs(c), rest + t) == ScanRuns(IsWs(c), rest) + ScanRuns(after, t)
    ensures ScanRuns(inRun, [c] + rest + t) == ScanRuns(inRun, [c] + rest) + ScanRuns(after, t)
  {
    ConcatAssoc([c], rest, t);
    ScanRunsCons(inRun, c, rest + t);
    ScanRunsCons(inRun, c, rest);
    ConcatAssoc(Emit(inRun, c), ScanRuns(IsWs(c), rest), ScanRuns(after, t));
  }

  lemma ConcatAssoc(x: string, y: string, z: string)
    ensures x + (y + z) == (x + y) + z
  {
  }

  lemma ScanRunsCons(inRun: bool, c: char, s: string)
    ensures ScanRuns(inRun, [c] + s) == Emit(inRun, c) + ScanRuns(IsWs(c), s)
  {
    var cs := [c] + s;
    assert cs[0] == c && cs[1..] == s;
  }

  /** A title without whitespace is its own sanitized form. */
  lemma {:induction false} SanitizeNoWsIdentity(s: string)
    requires NoWs(s)
    ensures Sanitize(s) == s
    decreases |s|
  {
    if s != [] {
      assert !IsWs(s[0]);
      assert NoWs(s[1..]) by {
        forall i | 0 <= i < |s[1..]| ensures !IsWs(s[1..][i]) {
          assert s[1..][i] == s[i + 1];
        }
      }
      SanitizeNoWsIdentity(s[1..]);
    }
  }

  /** Sanitizing an already sanitized stem changes nothing. */
  lemma {:induction false} SanitizeIdempotent(s: string)
    ensures Sanitize(Sanitize(s)) == Sanitize(s)
  {
    SanitizeNoWsIdentity(Sanitize(s));
  }

  /** Sanitizing splits at any point that follows a non-whitespace
      character (or the start), since no run crosses it. */
  lemma {:induction false} SanitizeAppend(a: string, t: string)
    requires a == [] || !IsWs(a[|a| - 1])
    ensures Sanitize(a + t) == Sanitize(a) + Sanitize(t)
  {
    SanitizeMatchesScan(a + t);
    SanitizeMatchesScan(a);
    SanitizeMatchesScan(t);
    ScanRunsAppend(false, a, t);
  }

  lemma {:induction false} ScanRunsWithinRun(w: string)
    requires AllWs(w)
    ensures ScanRuns(true, w) == []
    decreases |w|
  {
    if w != [] {
      assert AllWs(w[1..]) by {
        forall i | 0 <= i < |w[1..]| ensures IsWs(w[1..][i]) {
          assert w[1..][i] == w[i + 1];
        }
      }
      ScanRunsWithinRun(w[1..]);
    }
  }

  /** A title that starts with a whitespace run `w` followed by `b`. */
  lemma {:induction false} SanitizeLeadingRun(w: string, b: string)
    requires w != [] && AllWs(w)
    requires b == [] || !IsWs(b[0])
    ensures Sanitize(w + b) == [Separator] + Sanitize(b)
  {
    SanitizeMatchesScan(w + b);
    SanitizeMatchesScan(b);
    ScanRunsAppend(false, w, b);
    assert EndsInRun(false, w);
    assert AllWs(w[1..]) by {
      forall i | 0 <= i < |w[1..]| ensures IsWs(w[1..][i]) {
        assert w[1..][i] == w[i + 1];
      }
    }
    ScanRunsWithinRun(w[1..]);
    assert ScanRuns(false, w) == [Separator];
    assert ScanRuns(true, b) == ScanRuns(false, b);
  }

  /** A maximal whitespace run `w` between `a` and `b` becomes exactly one
      separator, and the two sides are sanitized independently. */
  lemma {:induction false} SanitizeCollapsesRun(a: string, w: string, b: string)
    requires a == [] || !IsWs(a[|a| - 1])
    requires w != [] && AllWs(w)
    requires b == [] || !IsWs(b[0])
    ensures Sanitize(a + w + b) == Sanitize(a) + [Separator] + Sanitize(b)
  {
    var x, y := Sanitize(a), Sanitize(b);
    calc {
      Sanitize(a + w + b);
      { assert a + w + b == a + (w + b); }
      Sanitize(a + (w + b));
      { SanitizeAppend(a, w + b); }
      x + Sanitize(w + b);
      { SanitizeLeadingRun(w, b); }
      x + ([Separator] + y);
      x + [Separator] + y;
    }
  }

  /** The characters of a title that are neither whitespace nor the
      separator, in their order. */
  function Visible(s: string): string
    decreases |s|
  {
    if s == [] then []
    else if IsWs(s[0]) || s[0] == Separator then Visible(s[1..])
    else [s[0]] + Visible(s[1..])
  }

  lemma {:induction false} VisibleSkipsRun(s: string)
    ensures Visible(DropWs(s)) == Visible(s)
    decreases |s|
  {
    if s != [] && IsWs(s[0]) {
      VisibleSkipsRun(s[1..]);
    }
  }

  /** Every character that is not whitespace keeps its place in the order:
      dropping whitespace and separators from the title and from its
      sanitized form leaves the same string. */
  lemma {:induction false} SanitizeKeepsVisible(s: string)
    ensures Visible(Sanitize(s)) == Visible(s)
    decreases |s|
  {
    if s == [] {
    } else if IsWs(s[0]) {
      var r := Sanitize(DropWs(s[1..]));
      assert ([Separator] + r)[1..] == r;
      VisibleSkipsRun(s[1..]);
      SanitizeKeepsVisible(DropWs(s[1..]));
    } else {
      var r := Sanitize(s[1..]);
      assert ([s[0]] + r)[1..] == r;
      SanitizeKeepsVisible(s[1..]);
    }
  }

  /** A title with a two-space run: "Q1  Plan" gives "Q1_Plan.pptx". */
  lemma QuarterlyPlanFileName()
    ensures FileName("Q1  Plan") == "Q1_Plan.pptx"
  {
    var a, w, b := "Q1", "  ", "Plan";
    assert "Q1  Plan" == a + w + b;
    assert !IsWs(a[|a| - 1]) && AllWs(w) && w != [] && !IsWs(b[0]);
    SanitizeCollapsesRun(a, w, b);
    QuarterlyPlanWords();
  }

  lemma QuarterlyPlanWords()
    ensures Sanitize("Q1") + [Separator] + Sanitize("Plan") + Extension == "Q1_Plan.pptx"
  {
    assert NoWs("Q1") && NoWs("Plan");
    SanitizeNoWsIdentity("Q1");
    SanitizeNoWsIdentity("Plan");
  }
}
