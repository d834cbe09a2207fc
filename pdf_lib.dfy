/** The PDF extractor object: the text clean-up chain, the loop that joins the
    text items of every page, and the one-shot initialisation flag. The pdf.js
    library and the file reader are outside the model: a loaded document is
    given as its sequence of pages, each either its text items or the message
    of the error that reading it raised. */
module PdfLib {
  import opened Js
  import opened Text

  // ---------------------------------------------------------------------------
  // cleanText

  const LigatureFi: char := '\U{FB01}'
  const LigatureFl: char := '\U{FB02}'
  const LigatureFf: char := '\U{FB00}'
  const LigatureFfi: char := '\U{FB03}'
  const LigatureFfl: char := '\U{FB04}'
  const Nul: char := '\U{0000}'

  /** The replacement for a run of line breaks, and the separator between
      kept pages. */
  const BlankLine: string := "\n\n"
  /** The replacement for a run of spaces and tabs, and the separator between
      a page's text items. */
  const OneSpace: string := " "

  predicate IsLigature(c: char)
  {
    c == LigatureFi || c == LigatureFl || c == LigatureFf || c == LigatureFfi || c == LigatureFfl
  }

  /** Every occurrence of the character `c` in `s` replaced by `rep`. */
  function ReplaceChar(s: string, c: char, rep: string): (r: string)
    ensures rep != [] ==> |s| <= |r|
    decreases |s|
  {
    if s == [] then []
    else (if s[0] == c then rep else [s[0]]) + ReplaceChar(s[1..], c, rep)
  }

  /** The five ligature replacements, in the order the source applies them. */
  function ExpandLigatures(s: string): (r: string)
    ensures |s| <= |r|
  {
    ReplaceChar(ReplaceChar(ReplaceChar(ReplaceChar(ReplaceChar(
      s, LigatureFi, "fi"), LigatureFl, "fl"), LigatureFf, "ff"), LigatureFfi, "ffi"), LigatureFfl, "ffl")
  }

  /** A character is in the result of a replacement only if it is in the
      replacement or is another character of the input. */
  lemma {:induction false} ReplaceCharAvoids(s: string, c: char, rep: string, x: char)
    requires x !in rep && (x == c || x !in s)
    ensures x !in ReplaceChar(s, c, rep)
    decreases |s|
  {
    if s != [] {
      assert x !in s[1..] || x == c by {
        assert s == [s[0]] + s[1..];
      }
      ReplaceCharAvoids(s[1..], c, rep, x);
    }
  }

  /** The expansion leaves no ligature, and adds no character other than
      `f`, `i` and `l`. */
  lemma ExpandLigaturesAvoids(s: string, x: char)
    requires IsLigature(x) || (x !in s && x !in "fil")
    ensures x !in ExpandLigatures(s)
  {
    var a := ReplaceChar(s, LigatureFi, "fi");
    var b := ReplaceChar(a, LigatureFl, "fl");
    var c := ReplaceChar(b, LigatureFf, "ff");
    var d := ReplaceChar(c, LigatureFfi, "ffi");
    assert x !in "fi" && x !in "fl" && x !in "ff" && x !in "ffi" && x !in "ffl";
    if x == LigatureFi || x !in s {
      ReplaceCharAvoids(s, LigatureFi, "fi", x);
    }
    if x == LigatureFl || x !in a {
      ReplaceCharAvoids(a, LigatureFl, "fl", x);
    }
    if x == LigatureFf || x !in b {
      ReplaceCharAvoids(b, LigatureFf, "ff", x);
    }
    if x == LigatureFfi || x !in c {
      ReplaceCharAvoids(c, LigatureFfi, "ffi", x);
    }
    if x == LigatureFfl || x !in d {
      ReplaceCharAvoids(d, LigatureFfl, "ffl", x);
    }
  }

  /** The last line break `t[p]` with `1 <= p < k`: where the greedy `\s+`
      of `/\n\s+\n/`, having taken the whitespace run `t[..k]`, backs off to. */
  function LastNewline(t: string, k: nat): (p: Option<nat>)
    requires k <= |t|
    ensures p.Some? ==> 1 <= p.value < k && t[p.value] == '\n'
    ensures p.Some? ==> forall j :: p.value < j < k ==> t[j] != '\n'
    ensures p.None? ==> forall j :: 1 <= j < k ==> t[j] != '\n'
    decreases k
  {
    if k <= 1 then None
    else if t[k - 1] == '\n' then Some(k - 1)
    else LastNewline(t, k - 1)
  }

  /** Whitespace-only lines emptied. At a line break, the whitespace after
      it up to the last line break inside that whitespace run (at least one
      character further on) is a match; the scan resumes after the match. */
  function BlankLines(s: string): (r: string)
    ensures |s| > 0 ==> |r| > 0 && r[0] == s[0]
    decreases |s|
  {
    if s == [] then []
    else
      var t := s[1..];
      var p := if s[0] == '\n' then LastNewline(t, RunLength(t, Space)) else None;
      if p.Some? then BlankLine + BlankLines(t[p.value + 1..])
      else [s[0]] + BlankLines(t)
  }

  /** The blank-line rewrite adds no character other than a line break. */
  lemma {:induction false} BlankLinesAvoids(s: string, x: char)
    requires x !in s && x != '\n'
    ensures x !in BlankLines(s)
    decreases |s|
  {
    if s != [] {
      var t := s[1..];
      assert s == [s[0]] + t;
      var p := if s[0] == '\n' then LastNewline(t, RunLength(t, Space)) else None;
      if p.Some? {
        assert t == t[..p.value + 1] + t[p.value + 1..];
        BlankLinesAvoids(t[p.value + 1..], x);
      } else {
        BlankLinesAvoids(t, x);
      }
    }
  }

  /** The rewrites after the ligatures: NUL removal, line-break runs to one
      line break, blank runs to one space, whitespace-only lines emptied,
      three or more line breaks to two, and trim. */
  function CleanStages(s: string): string
  {
    var a := ReplaceChar(s, Nul, "");
    var b := ReplaceRuns(a, LineBreak, 1, "\n");
    var c := ReplaceRuns(b, Blank, 1, OneSpace);
    var d := BlankLines(c);
    Trim(ReplaceRuns(d, Newline, 3, BlankLine))
  }

  /** cleanText: an empty text gives the empty text. */
  function CleanText(text: string): (r: string)
    ensures Trimmed(r)
    ensures text == "" ==> r == ""
  {
    if text == "" then "" else CleanStages(ExpandLigatures(text))
  }

  /** What the clean-up guarantees about its result. */
  predicate CleanShape(r: string)
  {
    && (forall x :: x in r ==> !IsLigature(x))
    && Nul !in r && '\r' !in r && '\t' !in r
    && NoRun(r, Blank, 2) && NoRun(r, Newline, 3) && NoBlankLine(r) && Trimmed(r)
  }

  predicate Disjoint(a: CharClass, b: CharClass)
  {
    forall c :: In(a, c) ==> !In(b, c)
  }

  lemma NoRunOfOtherClass(s: string, cls: CharClass, other: CharClass, n: nat)
    requires n >= 1 && AllIn(s, cls) && Disjoint(cls, other)
    ensures NoRun(s, other, n)
  {
    forall i: nat | i < |s|
      ensures !RunAt(s, other, n, i)
    {
      if i + n <= |s| {
        var u := s[i..i + n];
        assert u[0] == s[i] && In(cls, s[i]);
        assert !In(other, u[0]);
      }
    }
  }

  /** Replacing runs of one class by characters of that class cannot create
      two adjacent characters of a disjoint class. */
  lemma {:induction false} ReplaceRunsKeepsOtherNoRun(s: string, cls: CharClass, least: nat, rep: string, other: CharClass)
    requires least >= 1 && rep != [] && AllIn(rep, cls) && Disjoint(cls, other)
    requires NoRun(s, other, 2)
    ensures NoRun(ReplaceRuns(s, cls, least, rep), other, 2)
    decreases |s|
  {
    if s == [] {
    } else if !In(cls, s[0]) {
      var rest := ReplaceRuns(s[1..], cls, least, rep);
      NoRunSlice(s, other, 2, 1, |s|);
      assert s[1..|s|] == s[1..];
      ReplaceRunsKeepsOtherNoRun(s[1..], cls, least, rep, other);
      assert NoRun([s[0]], other, 2);
      if rest != [] && In(other, s[0]) {
        assert |s| >= 2;
        assert !RunAt(s, other, 2, 0);
        assert s[0..2] == [s[0], s[1]];
        assert !In(other, s[1]);
      }
      NoRunConcat([s[0]], rest, other, 2);
    } else {
      var k := RunLength(s, cls);
      var piece := if k >= least then rep else s[..k];
      NoRunSlice(s, other, 2, k, |s|);
      assert s[k..|s|] == s[k..];
      ReplaceRunsKeepsOtherNoRun(s[k..], cls, least, rep, other);
      NoRunOfOtherClass(piece, cls, other, 2);
      assert In(cls, piece[|piece| - 1]);
      NoRunConcat(piece, ReplaceRuns(s[k..], cls, least, rep), other, 2);
    }
  }

  /** Emptying whitespace-only lines cannot put two blanks side by side: the
      replacement is line breaks and the first character of what follows a
      kept character is unchanged. */
  lemma {:induction false} BlankLinesKeepsNoBlankRun(s: string)
    requires NoRun(s, Blank, 2)
    ensures NoRun(BlankLines(s), Blank, 2)
    decreases |s|
  {
    if s != [] {
      var t := s[1..];
      NoRunSlice(s, Blank, 2, 1, |s|);
      assert s[1..|s|] == t;
      var p := if s[0] == '\n' then LastNewline(t, RunLength(t, Space)) else None;
      if p.Some? {
        var q := p.value;
        NoRunSlice(t, Blank, 2, q + 1, |t|);
        assert t[q + 1..|t|] == t[q + 1..];
        BlankLinesKeepsNoBlankRun(t[q + 1..]);
        NoRunOfOtherClass(BlankLine, Newline, Blank, 2);
        NoRunConcat(BlankLine, BlankLines(t[q + 1..]), Blank, 2);
      } else {
        BlankLinesKeepsNoBlankRun(t);
        assert NoRun([s[0]], Blank, 2);
        if t != [] && In(Blank, s[0]) {
          assert !RunAt(s, Blank, 2, 0);
          assert s[0..2] == [s[0], s[1]];
        }
        NoRunConcat([s[0]], BlankLines(t), Blank, 2);
      }
    }
  }

  // ---------------------------------------------------------------------------
  // No whitespace-only line survives

  /** `s[i]` and `s[j]` are line breaks with at least one character between
      them, and every character between them is whitespace. */
  predicate BlankLineAt(s: string, i: nat, j: nat)
  {
    i + 1 < j < |s| && s[i] == '\n' && s[j] == '\n' && AllIn(s[i + 1..j], Space)
  }

  /** No line of `s` holds whitespace only: no two line breaks enclose a
      non-empty stretch of whitespace. */
  predicate NoBlankLine(s: string)
  {
    forall i: nat, j: nat | i < j < |s| :: !BlankLineAt(s, i, j)
  }

  /** The whitespace run that `s` starts with has no line break at index `m`
      or later. */
  predicate NoBreakInLeadFrom(s: string, m: nat)
  {
    forall j :: m <= j < RunLength(s, Space) ==> s[j] != '\n'
  }

  /** A whitespace prefix that reaches index `n` lies inside the leading run. */
  lemma LeadCovers(u: string, n: nat)
    requires n < |u| && AllIn(u[..n + 1], Space)
    ensures n < RunLength(u, Space)
  {
    forall m | 0 <= m <= n
      ensures IsSpace(u[m])
    {
      assert u[..n + 1][m] == u[m];
    }
  }

  /** A leading whitespace character adds one to the leading run. */
  lemma LeadOfCons(x: char, u: string)
    requires IsSpace(x)
    ensures RunLength([x] + u, Space) == 1 + RunLength(u, Space)
  {
    assert ([x] + u)[1..] == u;
  }

  /** A character after a whitespace stretch that starts `u` is no line
      break, when the leading run has none from index 1 on. */
  lemma NoBreakAfterBlankLead(u: string, n: nat)
    requires 1 <= n < |u| && AllIn(u[..n], Space) && NoBreakInLeadFrom(u, 1)
    ensures u[n] != '\n'
  {
    if IsSpace(u[n]) {
      assert u[..n + 1] == u[..n] + [u[n]];
      LeadCovers(u, n);
    }
  }

  /** Putting a character in front keeps `NoBlankLine` unless it is a line
      break that the leading run of `u` closes into a blank line. */
  lemma NoBlankLineCons(x: char, u: string)
    requires NoBlankLine(u)
    requires x == '\n' ==> NoBreakInLeadFrom(u, 1)
    ensures NoBlankLine([x] + u)
  {
    var v := [x] + u;
    forall i: nat, j: nat | i < j < |v|
      ensures !BlankLineAt(v, i, j)
    {
      if i + 1 < j && v[i] == '\n' && AllIn(v[i + 1..j], Space) {
        assert v[i + 1..j] == u[i..j - 1];
        if i == 0 {
          assert u[i..j - 1] == u[..j - 1];
          NoBreakAfterBlankLead(u, j - 1);
        } else {
          assert u[i - 1 + 1..j - 1] == u[i..j - 1];
          assert !BlankLineAt(u, i - 1, j - 1);
        }
        assert v[j] == u[j - 1];
      }
    }
  }

  /** When the leading run of `s` has no line break at all, neither has that
      of its rewrite. */
  lemma {:induction false} BlankLinesLeadFree(s: string)
    requires NoBreakInLeadFrom(s, 0)
    ensures NoBreakInLeadFrom(BlankLines(s), 0)
    decreases |s|
  {
    if s != [] && IsSpace(s[0]) {
      var t := s[1..];
      assert s == [s[0]] + t;
      LeadOfCons(s[0], t);
      BlankLinesLeadFree(t);
      LeadOfCons(s[0], BlankLines(t));
      assert BlankLines(s) == [s[0]] + BlankLines(t);
    }
  }

  /** When the leading run of `s` has no line break after its first
      character, neither has that of its rewrite. */
  lemma BlankLinesClearLead(s: string)
    requires NoBreakInLeadFrom(s, 1)
    ensures NoBreakInLeadFrom(BlankLines(s), 1)
  {
    if s != [] && IsSpace(s[0]) {
      var t := s[1..];
      assert s == [s[0]] + t;
      LeadOfCons(s[0], t);
      forall j | 1 <= j < RunLength(t, Space)
        ensures t[j] != '\n'
      {
        assert t[j] == s[j + 1];
      }
      BlankLinesLeadFree(t);
      LeadOfCons(s[0], BlankLines(t));
      assert BlankLines(s) == [s[0]] + BlankLines(t);
    }
  }

  /** After a match the text resumes with a whitespace run, if any, that
      holds no line break: the match took the last one. */
  lemma AfterMatchLeadFree(t: string, q: nat)
    requires LastNewline(t, RunLength(t, Space)) == Some(q)
    ensures NoBreakInLeadFrom(t[q + 1..], 0)
  {
    var k := RunLength(t, Space);
    var rest := t[q + 1..];
    forall j | 0 <= j < RunLength(rest, Space)
      ensures rest[j] != '\n'
    {
      forall m | q + 1 <= m <= q + 1 + j
        ensures IsSpace(t[m])
      {
        assert t[m] == rest[..RunLength(rest, Space)][m - q - 1];
      }
      assert q + 1 + j < k;
      assert rest[j] == t[q + 1 + j];
    }
  }

  /** A blank line put in front of text whose leading whitespace run holds
      no line break forms no whitespace-only line. */
  lemma BlankLineBeforeLeadFree(r: string)
    requires NoBlankLine(r) && NoBreakInLeadFrom(r, 0)
    ensures NoBlankLine(BlankLine + r)
  {
    NoBlankLineCons('\n', r);
    LeadOfCons('\n', r);
    NoBlankLineCons('\n', ['\n'] + r);
    assert BlankLine + r == ['\n'] + (['\n'] + r);
  }

  /** A match at the front: the rewrite starts with a blank line and goes
      on after the match. */
  lemma BlankLinesAtMatch(s: string, q: nat)
    requires s != [] && s[0] == '\n'
    requires LastNewline(s[1..], RunLength(s[1..], Space)) == Some(q)
    ensures BlankLines(s) == BlankLine + BlankLines(s[1..][q + 1..])
  {
    var t := s[1..];
    var p := LastNewline(t, RunLength(t, Space));
    calc {
      BlankLines(s);
      BlankLine + BlankLines(t[p.value + 1..]);
    }
  }

  /** A match at the front: its replacement, a blank line, is followed by
      a whitespace run without a line break, so no blank line forms. */
  lemma MatchKeepsNoBlankLine(s: string, q: nat)
    requires s != [] && s[0] == '\n'
    requires LastNewline(s[1..], RunLength(s[1..], Space)) == Some(q)
    requires NoBlankLine(BlankLines(s[1..][q + 1..]))
    ensures NoBlankLine(BlankLines(s))
  {
    var rest := s[1..][q + 1..];
    AfterMatchLeadFree(s[1..], q);
    BlankLinesLeadFree(rest);
    BlankLineBeforeLeadFree(BlankLines(rest));
    BlankLinesAtMatch(s, q);
  }

  /** No match at the front: the first character is kept, and a kept line
      break is not followed by whitespace reaching another line break. */
  lemma NoMatchKeepsNoBlankLine(s: string)
    requires s != []
    requires s[0] == '\n' ==> LastNewline(s[1..], RunLength(s[1..], Space)).None?
    requires NoBlankLine(BlankLines(s[1..]))
    ensures NoBlankLine(BlankLines(s))
  {
    var t := s[1..];
    assert BlankLines(s) == [s[0]] + BlankLines(t);
    if s[0] == '\n' {
      BlankLinesClearLead(t);
    }
    NoBlankLineCons(s[0], BlankLines(t));
  }

  /** Emptying whitespace-only lines leaves none: after a match only
      whitespace without a line break can follow, and an unmatched line
      break is not followed by whitespace that reaches another one. */
  lemma {:induction false} BlankLinesNoBlankLine(s: string)
    ensures NoBlankLine(BlankLines(s))
    decreases |s|
  {
    if s != [] {
      var t := s[1..];
      var p := if s[0] == '\n' then LastNewline(t, RunLength(t, Space)) else None;
      if p.Some? {
        BlankLinesNoBlankLine(t[p.value + 1..]);
        MatchKeepsNoBlankLine(s, p.value);
      } else {
        BlankLinesNoBlankLine(t);
        NoMatchKeepsNoBlankLine(s);
      }
    }
  }

  /** Without blank lines there are no three line breaks in a row. */
  lemma NoBlankLineNoTripleBreak(s: string)
    requires NoBlankLine(s)
    ensures NoRun(s, Newline, 3)
  {
    forall i: nat | i < |s|
      ensures !RunAt(s, Newline, 3, i)
    {
      if i + 3 <= |s| {
        assert !BlankLineAt(s, i, i + 2);
        assert s[i + 1..i + 2] == [s[i + 1]];
        assert s[i..i + 3][0] == s[i] && s[i..i + 3][1] == s[i + 1] && s[i..i + 3][2] == s[i + 2];
      }
    }
  }

  lemma NoBlankLineSlice(s: string, lo: nat, hi: nat)
    requires lo <= hi <= |s| && NoBlankLine(s)
    ensures NoBlankLine(s[lo..hi])
  {
    var u := s[lo..hi];
    forall i: nat, j: nat | i < j < |u|
      ensures !BlankLineAt(u, i, j)
    {
      var i', j' := lo + i, lo + j;
      assert i' < j' < |s|;
      assert !BlankLineAt(s, i', j');
      assert u[i] == s[i'] && u[j] == s[j'];
      assert u[i + 1..j] == s[i' + 1..j'] by {
        assert forall k | i + 1 <= k < j :: u[k] == s[lo + k];
      }
    }
  }

  /** The rewrite of three or more line breaks to two never finds a match,
      and what the clean-up returns has no whitespace-only line. */
  lemma TripleBreakStepIdle(c: string)
    ensures ReplaceRuns(BlankLines(c), Newline, 3, BlankLine) == BlankLines(c)
    ensures NoBlankLine(Trim(BlankLines(c)))
  {
    var d := BlankLines(c);
    BlankLinesNoBlankLine(c);
    NoBlankLineNoTripleBreak(d);
    ReplaceRunsIdentity(d, Newline, 3, BlankLine);
    var lo, hi := TrimSlice(d);
    NoBlankLineSlice(d, lo, hi);
  }

  /** Emptying whitespace-only lines keeps every non-whitespace character. */
  lemma {:induction false} VisibleBlankLines(s: string)
    ensures Visible(BlankLines(s)) == Visible(s)
    decreases |s|, 1
  {
    if s != [] {
      var t := s[1..];
      if s[0] == '\n' && LastNewline(t, RunLength(t, Space)).Some? {
        VisibleBlankLinesAtMatch(s);
      } else {
        VisibleBlankLines(t);
        VisibleCons(s[0], BlankLines(t));
        VisibleCons(s[0], t);
        assert s == [s[0]] + t;
      }
    }
  }

  /** At a match, the whitespace from the first line break up to the last
      one becomes a blank line: no visible character is lost or added. */
  lemma {:induction false} VisibleBlankLinesAtMatch(s: string)
    requires s != [] && s[0] == '\n' && LastNewline(s[1..], RunLength(s[1..], Space)).Some?
    ensures Visible(BlankLines(s)) == Visible(s)
    decreases |s|, 0
  {
    var t := s[1..];
    var k := RunLength(t, Space);
    var q := LastNewline(t, k).value;
    var head := s[..q + 2];
    var rest := t[q + 1..];
    assert AllIn(head, Space) by {
      forall i | 0 <= i < |head|
        ensures IsSpace(head[i])
      {
        if i > 0 {
          assert head[i] == t[..k][i - 1];
        }
      }
    }
    assert s == head + rest;
    VisibleAfterBlank(head, rest);
    VisibleBlankLines(rest);
    assert AllIn(BlankLine, Space);
    VisibleAfterBlank(BlankLine, BlankLines(rest));
  }

  /** What cleanText guarantees: no ligature, NUL, carriage return or tab is
      left, no two spaces or tabs are adjacent, there are never three line
      breaks in a row, no line holds whitespace only, and there is nothing to
      trim; the empty text stays empty. */
  lemma CleanTextShape(text: string)
    ensures CleanShape(CleanText(text))
    ensures CleanText("") == ""
  {
    if text != "" {
      var a := ReplaceChar(ExpandLigatures(text), Nul, "");
      var b := ReplaceRuns(a, LineBreak, 1, "\n");
      var c := ReplaceRuns(b, Blank, 1, OneSpace);
      var d := BlankLines(c);
      var e := ReplaceRuns(d, Newline, 3, BlankLine);
      ReplaceRunsRemoves(a, LineBreak, "\n", '\r');
      ReplaceRunsRemoves(b, Blank, OneSpace, '\t');
      forall x | IsLigature(x) || x == Nul || x == '\r' || x == '\t'
        ensures x !in Trim(e)
      {
        if IsLigature(x) || x == Nul {
          if IsLigature(x) {
            ExpandLigaturesAvoids(text, x);
          }
          ReplaceCharAvoids(ExpandLigatures(text), Nul, "", x);
          ReplaceRunsAvoids(a, LineBreak, 1, "\n", x);
        }
        if x != '\t' {
          ReplaceRunsAvoids(b, Blank, 1, OneSpace, x);
        }
        BlankLinesAvoids(c, x);
        ReplaceRunsAvoids(d, Newline, 3, BlankLine, x);
        TrimAvoids(e, x);
      }
      ReplaceRunsNoRun(b, Blank, 1, OneSpace, 2);
      BlankLinesKeepsNoBlankRun(c);
      ReplaceRunsKeepsOtherNoRun(d, Newline, 3, BlankLine, Blank);
      ReplaceRunsNoRun(d, Newline, 3, BlankLine, 3);
      TrimNoRun(e, Blank, 2);
      TrimNoRun(e, Newline, 3);
      TripleBreakStepIdle(c);
    }
  }

  /** cleanText keeps every non-whitespace character other than NUL, with the
      ligatures spelled out, in order. */
  lemma CleanTextVisible(text: string)
    requires text != ""
    ensures Visible(CleanText(text)) == Visible(ReplaceChar(ExpandLigatures(text), Nul, ""))
  {
    var a := ReplaceChar(ExpandLigatures(text), Nul, "");
    var b := ReplaceRuns(a, LineBreak, 1, "\n");
    var c := ReplaceRuns(b, Blank, 1, OneSpace);
    var d := BlankLines(c);
    var e := ReplaceRuns(d, Newline, 3, BlankLine);
    VisibleReplaceRuns(a, LineBreak, 1, "\n");
    VisibleReplaceRuns(b, Blank, 1, OneSpace);
    VisibleBlankLines(c);
    VisibleReplaceRuns(d, Newline, 3, BlankLine);
    VisibleTrim(e);
  }

  // ---------------------------------------------------------------------------
  // extractFromArrayBuffer and init

  const ExtractionFailedPrefix: string := "Failed to extract text from PDF: "
  const LibraryMissing: string := "pdf.js library not loaded"

  /** A page of the loaded document: the `str` of each of its text items, or
      the message of the error that fetching the page or its text raised. */
  datatype PageContent = Items(strs: seq<string>) | Unreadable(message: string)

  /** The loaded document, or the message of the error that loading raised. */
  datatype LoadedPdf = Loaded(pages: seq<PageContent>) | LoadFailed(message: string)

  /** A page's items joined by single spaces; an unreadable page has no text. */
  function PageText(page: PageContent): (t: string)
    ensures page.Unreadable? ==> t == ""
    ensures page.Items? && page.strs != [] ==> page.strs[0] <= t
  {
    if page.Items? && page.strs != [] then
      JoinStartsWith(page.strs, OneSpace);
      Join(page.strs, OneSpace)
    else ""  // also the join of no items
  }

  function PageTexts(pages: seq<PageContent>): (texts: seq<string>)
    ensures |texts| == |pages| && forall i :: 0 <= i < |pages| ==> texts[i] == PageText(pages[i])
  {
    seq(|pages|, i requires 0 <= i < |pages| => PageText(pages[i]))
  }

  /** The texts of the pages that are not blank after trimming, in page order. */
  function KeptPages(pages: seq<PageContent>): (kept: seq<string>)
    ensures |kept| <= |pages|
    decreases |pages|
  {
    if pages == [] then []
    else
      var text := PageText(pages[|pages| - 1]);
      KeptPages(pages[..|pages| - 1]) + (if Trim(text) != "" then [text] else [])
  }

  /** Every kept page text is non-blank after trimming, and every readable
      non-blank page is kept. */
  lemma {:induction false} KeptPagesNonBlank(pages: seq<PageContent>)
    ensures forall t :: t in KeptPages(pages) ==> Trim(t) != ""
    ensures forall i :: 0 <= i < |pages| && pages[i].Items? && Trim(PageText(pages[i])) != "" ==>
      PageText(pages[i]) in KeptPages(pages)
    decreases |pages|
  {
    if pages != [] {
      var init := pages[..|pages| - 1];
      var text := PageText(pages[|pages| - 1]);
      var tail := if Trim(text) != "" then [text] else [];
      KeptPagesNonBlank(init);
      assert KeptPages(pages) == KeptPages(init) + tail;
      forall t | t in KeptPages(pages)
        ensures Trim(t) != ""
      {
        if t !in KeptPages(init) {
          assert t in tail;
        }
      }
      forall i | 0 <= i < |pages| && pages[i].Items? && Trim(PageText(pages[i])) != ""
        ensures PageText(pages[i]) in KeptPages(pages)
      {
        if i < |pages| - 1 {
          assert pages[i] == init[i];
          assert PageText(pages[i]) in KeptPages(init);
        } else {
          assert PageText(pages[i]) in tail;
        }
      }
    }
  }

  predicate AllReadable(pages: seq<PageContent>)
  {
    forall i :: 0 <= i < |pages| ==> pages[i].Items?
  }

  /** The message of the first page that cannot be read, if any. */
  function FirstUnreadable(pages: seq<PageContent>): (m: Option<string>)
    ensures m.None? <==> AllReadable(pages)
    decreases |pages|
  {
    if pages == [] then None
    else if pages[0].Unreadable? then Some(pages[0].message)
    else
      assert forall i :: 1 <= i < |pages| ==> pages[i] == pages[1..][i - 1];
      FirstUnreadable(pages[1..])
  }

  /** What extractFromArrayBuffer returns or throws for a document. */
  function Extraction(pdf: LoadedPdf): (r: Result<string>)
    ensures r.Thrown? ==> ExtractionFailedPrefix <= r.message
    ensures r.Thrown? <==> pdf.LoadFailed? || exists i :: 0 <= i < |pdf.pages| && pdf.pages[i].Unreadable?
    ensures r.Returned? ==> CleanShape(r.value)
  {
    match pdf
    case LoadFailed(m) => Thrown(ExtractionFailedPrefix + m)
    case Loaded(pages) =>
      match FirstUnreadable(pages)
      case Some(m) => Thrown(ExtractionFailedPrefix + m)
      case None =>
        CleanTextShape(Join(KeptPages(pages), BlankLine));
        Returned(CleanText(Join(KeptPages(pages), BlankLine)))
  }

  lemma {:induction false} VisibleAllConcat(a: seq<string>, b: seq<string>)
    ensures VisibleAll(a + b) == VisibleAll(a) + VisibleAll(b)
    decreases |a|
  {
    if a == [] {
      assert a + b == b;
    } else {
      assert (a + b)[1..] == a[1..] + b;
      VisibleAllConcat(a[1..], b);
    }
  }

  /** Dropping the blank pages loses no visible character. */
  lemma {:induction false} KeptPagesVisible(pages: seq<PageContent>)
    ensures VisibleAll(KeptPages(pages)) == VisibleAll(PageTexts(pages))
    decreases |pages|
  {
    if pages != [] {
      var init := pages[..|pages| - 1];
      var text := PageText(pages[|pages| - 1]);
      KeptPagesVisible(init);
      PageTextsSnoc(pages);
      VisibleAllConcat(PageTexts(init), [text]);
      var extra := if Trim(text) != "" then [text] else [];
      assert KeptPages(pages) == KeptPages(init) + extra;
      VisibleAllConcat(KeptPages(init), extra);
      assert VisibleAll([text]) == Visible(text) by {
        assert [text][1..] == [];
      }
      if Trim(text) == "" {
        VisibleTrim(text);
        assert VisibleAll(extra) == [];
      }
    }
  }

  lemma PageTextsSnoc(pages: seq<PageContent>)
    requires pages != []
    ensures PageTexts(pages) == PageTexts(pages[..|pages| - 1]) + [PageText(pages[|pages| - 1])]
  {
  }

  /** A document that loads with every page readable gives back the visible
      characters of all its pages, in page order, once ligatures are spelled
      out and NUL is dropped. */
  lemma ExtractionKeepsText(pages: seq<PageContent>)
    requires AllReadable(pages)
    ensures var joined := Join(KeptPages(pages), BlankLine);
      && Extraction(Loaded(pages)) == Returned(CleanText(joined))
      && Visible(joined) == VisibleAll(PageTexts(pages))
      && (joined != "" ==> Visible(CleanText(joined)) == Visible(ReplaceChar(ExpandLigatures(joined), Nul, "")))
  {
    ReadableExtraction(pages);
    var joined := Join(KeptPages(pages), BlankLine);
    VisibleJoin(KeptPages(pages), BlankLine);
    KeptPagesVisible(pages);
    if joined != "" {
      CleanTextVisible(joined);
    }
  }

  lemma ReadableExtraction(pages: seq<PageContent>)
    requires AllReadable(pages)
    ensures Extraction(Loaded(pages)) == Returned(CleanText(Join(KeptPages(pages), BlankLine)))
  {
  }

  /** A document whose pages are all blank gives the empty text. */
  lemma {:induction false} BlankDocument(pages: seq<PageContent>)
    requires forall i :: 0 <= i < |pages| ==> pages[i].Items? && Trim(PageText(pages[i])) == ""
    ensures KeptPages(pages) == [] && Extraction(Loaded(pages)) == Returned("")
    decreases |pages|
  {
    if pages != [] {
      BlankDocument(pages[..|pages| - 1]);
    }
  }

  lemma {:induction false} ReplaceCharAbsent(s: string, c: char, rep: string)
    requires c !in s
    ensures ReplaceChar(s, c, rep) == s
    decreases |s|
  {
    if s != [] {
      ReplaceCharAbsent(s[1..], c, rep);
      assert s == [s[0]] + s[1..];
    }
  }

  /** The text of two one-word pages joined by the page separator, and the
      same words one line break apart. */
  const TwoPagesJoined: string := "a\n\nb"
  const TwoPagesMerged: string := "a\nb"

  /** Two one-word pages come out one line break apart, not a blank line
      apart: the `[\r\n]+` rewrite merges the two line breaks of the page
      separator before the later blank-line rules see them. */
  lemma TwoPagesOneLineApart()
    ensures Extraction(Loaded([Items(["a"]), Items(["b"])])) == Returned(TwoPagesMerged)
  {
    TwoPagesKept();
    PageBreakMerged();
  }

  lemma TwoPagesKept()
    ensures Join(KeptPages([Items(["a"]), Items(["b"])]), BlankLine) == TwoPagesJoined
  {
    var first := [Items(["a"])];
    var pages := first + [Items(["b"])];
    assert PageText(Items(["a"])) == "a" && PageText(Items(["b"])) == "b";
    TrimIdentity("a");
    TrimIdentity("b");
    assert pages[..1] == first && first[..0] == [];
    assert KeptPages(first) == ["a"];
    assert KeptPages(pages) == ["a", "b"];
    assert ["a", "b"][1..] == ["b"];
  }

  lemma PageBreakMerged()
    ensures CleanText(TwoPagesJoined) == TwoPagesMerged
  {
    var joined := TwoPagesJoined;
    var merged := TwoPagesMerged;
    assert CleanText(joined) == CleanStages(ExpandLigatures(joined));
    NoLigatureInPageBreak();
    MergeLineBreaks();
    SingleLineBreakStays();
    MergedTrimmed();
  }

  lemma MergedTrimmed()
    ensures Trim(TwoPagesMerged) == TwoPagesMerged
  {
    TrimIdentity(TwoPagesMerged);
  }

  lemma NoLigatureInPageBreak()
    ensures ReplaceChar(ExpandLigatures(TwoPagesJoined), Nul, "") == TwoPagesJoined
  {
    var joined := TwoPagesJoined;
    assert forall c :: IsLigature(c) || c == Nul ==> c !in joined;
    NothingToExpand(joined);
    ReplaceCharAbsent(joined, Nul, "");
  }

  lemma NothingToExpand(s: string)
    requires forall c :: IsLigature(c) ==> c !in s
    ensures ExpandLigatures(s) == s
  {
    ReplaceCharAbsent(s, LigatureFi, "fi");
    ReplaceCharAbsent(s, LigatureFl, "fl");
    ReplaceCharAbsent(s, LigatureFf, "ff");
    ReplaceCharAbsent(s, LigatureFfi, "ffi");
    ReplaceCharAbsent(s, LigatureFfl, "ffl");
  }

  lemma MergeLineBreaks()
    ensures ReplaceRuns(TwoPagesJoined, LineBreak, 1, "\n") == TwoPagesMerged
  {
    var joined := TwoPagesJoined;
    assert joined[1..] == "\n\nb" && joined[1..][1..] == "\nb" && joined[1..][1..][1..] == "b";
    assert RunLength("b", LineBreak) == 0;
    assert RunLength("\nb", LineBreak) == 1;
    assert RunLength(joined[1..], LineBreak) == 2;
    assert joined[1..][2..] == "b";
  }

  lemma SingleLineBreakStays()
    ensures var b := TwoPagesMerged;
      && ReplaceRuns(b, Blank, 1, OneSpace) == b
      && BlankLines(b) == b
      && ReplaceRuns(b, Newline, 3, BlankLine) == b
  {
    var b := TwoPagesMerged;
    assert b[1..] == "\nb" && b[1..][1..] == "b" && b[2..] == "b";
    assert RunLength("b", Space) == 0;
    assert RunLength(b[1..], Newline) == 1;
  }

  lemma {:induction false} FirstUnreadableAt(pages: seq<PageContent>, i: nat)
    requires i < |pages| && pages[i].Unreadable?
    requires forall j :: 0 <= j < i ==> pages[j].Items?
    ensures FirstUnreadable(pages) == Some(pages[i].message)
    decreases i
  {
    if i > 0 {
      FirstUnreadableAt(pages[1..], i - 1);
    }
  }

  lemma KeptPagesStep(pages: seq<PageContent>, n: nat, before: seq<string>, after: seq<string>)
    requires n < |pages| && pages[n].Items? && before == KeptPages(pages[..n])
    requires var text := PageText(pages[n]);
      after == before + (if Trim(text) != "" then [text] else [])
    ensures after == KeptPages(pages[..n + 1])
  {
    assert pages[..n + 1][..n] == pages[..n];
  }

  lemma ReadableStep(pages: seq<PageContent>, n: nat)
    requires n < |pages| && pages[n].Items?
    requires forall j :: 0 <= j < n ==> pages[j].Items?
    ensures forall j :: 0 <= j < n + 1 ==> pages[j].Items?
  {
  }

  /** A page's text is appended to the collected parts only when something
      other than whitespace is left once it is trimmed. */
  method PushIfNonBlank(parts: seq<string>, text: string) returns (r: seq<string>)
    ensures r == parts + (if Trim(text) != "" then [text] else [])
  {
    r := parts;
    if Trim(text) != "" {
      r := r + [text];
    }
  }

  /** The page loop of extractFromArrayBuffer: reads the pages in order and
      keeps the text of each non-blank page, stopping at the first page that
      cannot be read. */
  method ReadPages(pages: seq<PageContent>) returns (textParts: seq<string>, failure: Option<string>)
    ensures failure == FirstUnreadable(pages)
    ensures failure.None? ==> textParts == KeptPages(pages)
  {
    textParts := [];
    var pageNum := 0;
    while pageNum < |pages|
      invariant 0 <= pageNum <= |pages|
      invariant forall j :: 0 <= j < pageNum ==> pages[j].Items?
      invariant textParts == KeptPages(pages[..pageNum])
    {
      var page := pages[pageNum];
      if page.Unreadable? {
        FirstUnreadableAt(pages, pageNum);
        return textParts, Some(page.message);
      }
      var pageText := PageText(page);
      ghost var before := textParts;
      textParts := PushIfNonBlank(textParts, pageText);
      KeptPagesStep(pages, pageNum, before, textParts);
      ReadableStep(pages, pageNum);
      pageNum := pageNum + 1;
    }
    assert pages[..pageNum] == pages;
    failure := None;
  }

  /** The PDFExtractor object. */
  class PdfExtractor {
    var initialized: bool

    constructor()
      ensures !initialized
    {
      initialized := false;
    }

    /** init: a no-op once initialised; without the library it throws and
        stays uninitialised; otherwise it becomes initialised. */
    method Init(libraryLoaded: bool) returns (r: Result<()>)
      modifies this
      ensures old(initialized) ==> r.Returned? && initialized
      ensures !old(initialized) && !libraryLoaded ==> r == Thrown(LibraryMissing) && !initialized
      ensures !old(initialized) && libraryLoaded ==> r.Returned? && initialized
    {
      if initialized {
        return Returned(());
      }
      if !libraryLoaded {
        return Thrown(LibraryMissing);
      }
      initialized := true;
      r := Returned(());
    }

    /** extractFromArrayBuffer: the first failure is rethrown with the
        prefix; otherwise the kept page texts are joined with a blank line
        and cleaned. */
    method ExtractFromArrayBuffer(pdf: LoadedPdf) returns (r: Result<string>)
      ensures r == Extraction(pdf)
    {
      if pdf.LoadFailed? {
        return Thrown(ExtractionFailedPrefix + pdf.message);
      }
      var textParts, failure := ReadPages(pdf.pages);
      if failure.Some? {
        return Thrown(ExtractionFailedPrefix + failure.value);
      }
      var fullText := Join(textParts, BlankLine);
      fullText := CleanText(fullText);
      return Returned(fullText);
    }
  }
}
