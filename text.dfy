/** The string operations of JavaScript that the extension's scripts chain
    together: the whitespace class `\s`, global regular-expression replacement of
    a quantified character class, `trim`, `slice(0, n)`, `split` and `join`.
    Strings are sequences of Unicode scalar values. */
module Text {

  /** JavaScript's `\s`: the WhiteSpace and LineTerminator code points. This is
      also exactly the set that `String.prototype.trim` strips. */
  predicate IsSpace(c: char)
  {
    c == '\t' || c == '\n' || c == '\U{000B}' || c == '\U{000C}' || c == '\r' || c == ' '
    || c == '\U{00A0}' || c == '\U{1680}' || ('\U{2000}' <= c && c <= '\U{200A}')
    || c == '\U{2028}' || c == '\U{2029}' || c == '\U{202F}' || c == '\U{205F}'
    || c == '\U{3000}' || c == '\U{FEFF}'
  }

  /** The character classes that the extension's regular expressions quantify. */
  datatype CharClass =
    | Space      // \s
    | LineBreak  // [\r\n]
    | Blank      // [ \t]
    | Newline    // \n

  predicate In(cls: CharClass, c: char)
  {
    match cls
    case Space => IsSpace(c)
    case LineBreak => c == '\r' || c == '\n'
    case Blank => c == ' ' || c == '\t'
    case Newline => c == '\n'
  }

  predicate AllIn(s: string, cls: CharClass)
  {
    forall i :: 0 <= i < |s| ==> In(cls, s[i])
  }

  /** The `n` characters of `s` from index `i` on all belong to `cls`. */
  predicate RunAt(s: string, cls: CharClass, n: nat, i: nat)
  {
    i + n <= |s| && AllIn(s[i..i + n], cls)
  }

  /** No `n` consecutive characters of `s` belong to `cls`. */
  predicate NoRun(s: string, cls: CharClass, n: nat)
  {
    forall i: nat :: i < |s| ==> !RunAt(s, cls, n, i)
  }

  /** No leading and no trailing whitespace. */
  predicate Trimmed(s: string)
  {
    s == [] || (!IsSpace(s[0]) && !IsSpace(s[|s| - 1]))
  }

  /** Length of the longest prefix of `s` made of characters of `cls`. */
  function RunLength(s: string, cls: CharClass): (k: nat)
    ensures k <= |s| && AllIn(s[..k], cls)
    ensures k < |s| ==> !In(cls, s[k])
  {
    if s == [] || !In(cls, s[0]) then 0 else 1 + RunLength(s[1..], cls)
  }

  /** Each run of at least `least` characters of the class `C` replaced by `rep`,
      as a global quantified-class regular expression replace does:
      leftmost-greedy matching of a quantified single class always consumes a
      maximal run, so every maximal run of at least `least` characters of the
      class becomes `rep`, and shorter runs and all other characters are kept. */
  function ReplaceRuns(s: string, cls: CharClass, least: nat, rep: string): (r: string)
    requires least >= 1
    ensures |s| > 0 && !In(cls, s[0]) ==> |r| > 0 && r[0] == s[0]
    ensures |s| > 0 && In(cls, s[0]) && rep != [] && AllIn(rep, cls) ==> |r| > 0 && In(cls, r[0])
    decreases |s|
  {
    if s == [] then []
    else if !In(cls, s[0]) then [s[0]] + ReplaceRuns(s[1..], cls, least, rep)
    else
      var k := RunLength(s, cls);
      (if k >= least then rep else s[..k]) + ReplaceRuns(s[k..], cls, least, rep)
  }

  /** The first `n` elements of `s`, or all of `s` when it is shorter; this is
      what `slice(0, n)` gives on a string or an array. */
  function Take<T>(s: seq<T>, n: nat): (r: seq<T>)
    ensures |r| <= n && r <= s
    ensures |s| <= n ==> r == s
    ensures |s| > n ==> |r| == n
  {
    if |s| <= n then s else s[..n]
  }

  function TrimStart(s: string): (r: string)
    ensures r == [] || !IsSpace(r[0])
  {
    s[RunLength(s, Space)..]
  }

  function TrimEnd(s: string): (r: string)
    ensures |r| <= |s| && r == s[..|r|] && AllIn(s[|r|..], Space)
    ensures r == [] || !IsSpace(r[|r| - 1])
    decreases |s|
  {
    if s != [] && IsSpace(s[|s| - 1]) then
      var r := TrimEnd(s[..|s| - 1]);
      TrimEndStep(s, |r|);
      r
    else s
  }

  lemma TrimEndStep(s: string, m: nat)
    requires s != [] && m < |s| && IsSpace(s[|s| - 1]) && AllIn(s[..|s| - 1][m..], Space)
    ensures AllIn(s[m..], Space) && s[..|s| - 1][..m] == s[..m]
  {
    forall i | 0 <= i < |s| - m ensures In(Space, s[m..][i]) {
      if m + i < |s| - 1 {
        assert s[m..][i] == s[..|s| - 1][m..][i];
      }
    }
  }

  /** `s` without its leading and trailing whitespace (`trim`). */
  function Trim(s: string): (r: string)
    ensures Trimmed(r)
  {
    TrimEnd(TrimStart(s))
  }

  /** The characters of `s` that are not whitespace, in order. */
  function Visible(s: string): string
  {
    if s == [] then [] else (if IsSpace(s[0]) then [] else [s[0]]) + Visible(s[1..])
  }

  /** The text cut at a one-character separator (`split`): the pieces between the
      separators, in order; there is always at least one piece. */
  function Split(s: string, sep: char): (parts: seq<string>)
    ensures |parts| >= 1
    decreases |s|
  {
    if s == [] then [[]]
    else
      var rest := Split(s[1..], sep);
      if s[0] == sep then [[]] + rest else [[s[0]] + rest[0]] + rest[1..]
  }

  /** The pieces in order with `sep` between each two of them (`join`). */
  function Join(parts: seq<string>, sep: string): string
  {
    if parts == [] then []
    else if |parts| == 1 then parts[0]
    else parts[0] + sep + Join(parts[1..], sep)
  }

  /** `t` is a suffix of `s` (`endsWith`). */
  predicate EndsWith(s: string, t: string)
  {
    |t| <= |s| && s[|s| - |t|..] == t
  }

  lemma EndsWithConcat(a: string, b: string, t: string)
    requires EndsWith(b, t)
    ensures EndsWith(a + b, t)
  {
    assert (a + b)[|a + b| - |t|..] == b[|b| - |t|..];
  }

  /** A join starts with its first part. */
  lemma JoinStartsWith(parts: seq<string>, sep: string)
    requires parts != []
    ensures parts[0] <= Join(parts, sep)
  {
    if |parts| > 1 {
      var rest := sep + Join(parts[1..], sep);
      assert Join(parts, sep) == parts[0] + rest;
      assert (parts[0] + rest)[..|parts[0]|] == parts[0];
    }
  }

  /** A join ends with the join of its last parts. */
  lemma {:induction false} JoinEndsWith(parts: seq<string>, sep: string, k: nat)
    requires k < |parts|
    ensures EndsWith(Join(parts, sep), Join(parts[k..], sep))
    decreases k
  {
    if k == 0 {
      assert parts[0..] == parts;
    } else {
      JoinEndsWith(parts[1..], sep, k - 1);
      assert parts[1..][k - 1..] == parts[k..];
      EndsWithConcat(parts[0] + sep, Join(parts[1..], sep), Join(parts[k..], sep));
    }
  }

  // ---------------------------------------------------------------------------
  // Local properties survive concatenation at a safe seam and slicing.

  /** A character outside the class inside the window breaks the run. */
  lemma RunBrokenAt(s: string, cls: CharClass, n: nat, i: nat, p: nat)
    requires i <= p < i + n <= |s| && !In(cls, s[p])
    ensures !RunAt(s, cls, n, i)
  {
    assert s[i..i + n][p - i] == s[p];
  }

  /** A window that is not a run holds a character outside the class. */
  lemma RunBreak(s: string, cls: CharClass, n: nat, i: nat) returns (p: nat)
    requires i + n <= |s| && !RunAt(s, cls, n, i)
    ensures i <= p < i + n && !In(cls, s[p])
  {
    var j :| 0 <= j < n && !In(cls, s[i..i + n][j]);
    p := i + j;
  }

  lemma NoRunConcat(a: string, b: string, cls: CharClass, n: nat)
    requires n >= 1 && NoRun(a, cls, n) && NoRun(b, cls, n)
    requires a == [] || b == [] || !In(cls, a[|a| - 1]) || !In(cls, b[0])
    ensures NoRun(a + b, cls, n)
  {
    var s := a + b;
    forall i: nat | i < |s|
      ensures !RunAt(s, cls, n, i)
    {
      if i + n <= |s| {
        var p: nat;
        if i + n <= |a| {
          p := RunBreak(a, cls, n, i);
          assert s[p] == a[p];
        } else if i >= |a| {
          var q := RunBreak(b, cls, n, i - |a|);
          p := |a| + q;
          assert s[p] == b[q];
        } else if !In(cls, a[|a| - 1]) {
          p := |a| - 1;
          assert s[p] == a[|a| - 1];
        } else {
          p := |a|;
          assert s[p] == b[0];
        }
        RunBrokenAt(s, cls, n, i, p);
      }
    }
  }

  /** No two adjacent characters of the class means no run of two. */
  lemma NoRunOfPairs(s: string, cls: CharClass)
    requires forall i :: 0 <= i < |s| - 1 ==> !In(cls, s[i]) || !In(cls, s[i + 1])
    ensures NoRun(s, cls, 2)
  {
    forall i: nat | i < |s|
      ensures !RunAt(s, cls, 2, i)
    {
      if i + 2 <= |s| {
        assert s[i..i + 2][0] == s[i] && s[i..i + 2][1] == s[i + 1];
      }
    }
  }

  lemma NoRunSlice(s: string, cls: CharClass, n: nat, lo: nat, hi: nat)
    requires n >= 1 && lo <= hi <= |s| && NoRun(s, cls, n)
    ensures NoRun(s[lo..hi], cls, n)
  {
    var t := s[lo..hi];
    forall i: nat | i < |t|
      ensures !RunAt(t, cls, n, i)
    {
      if i + n <= |t| {
        assert !RunAt(s, cls, n, lo + i);
        var j :| 0 <= j < n && !In(cls, s[lo + i..lo + i + n][j]);
        assert t[i..i + n][j] == s[lo + i..lo + i + n][j];
      }
    }
  }

  /** A string without `n` consecutive class characters starts with a run shorter than `n`. */
  lemma RunBelow(s: string, cls: CharClass, n: nat)
    requires 1 <= n && NoRun(s, cls, n)
    ensures RunLength(s, cls) < n
  {
    if n <= |s| {
      assert !RunAt(s, cls, n, 0);
      var j :| 0 <= j < n && !In(cls, s[0..n][j]);
      assert s[j] == s[0..n][j];
    }
  }

  // ---------------------------------------------------------------------------
  // Run replacement

  /** After the replacement no `n` class characters are adjacent, provided the
      replacement and every kept run are shorter than `n`. */
  lemma {:induction false} ReplaceRunsNoRun(s: string, cls: CharClass, least: nat, rep: string, n: nat)
    requires 1 <= least <= n && 2 <= n && |rep| < n
    ensures NoRun(ReplaceRuns(s, cls, least, rep), cls, n)
    decreases |s|
  {
    if s == [] {
    } else if !In(cls, s[0]) {
      ReplaceRunsNoRun(s[1..], cls, least, rep, n);
      NoRunConcat([s[0]], ReplaceRuns(s[1..], cls, least, rep), cls, n);
    } else {
      var k := RunLength(s, cls);
      var piece := if k >= least then rep else s[..k];
      ReplaceRunsNoRun(s[k..], cls, least, rep, n);
      NoRunConcat(piece, ReplaceRuns(s[k..], cls, least, rep), cls, n);
    }
  }

  /** A string with no run long enough to match is left as it is. */
  lemma {:induction false} ReplaceRunsIdentity(s: string, cls: CharClass, least: nat, rep: string)
    requires least >= 1 && NoRun(s, cls, least)
    ensures ReplaceRuns(s, cls, least, rep) == s
    decreases |s|, 1
  {
    if s == [] {
    } else if In(cls, s[0]) {
      ReplaceRunsIdentityAtRun(s, cls, least, rep);
    } else {
      NoRunSuffix(s, cls, least, 1);
      ReplaceRunsIdentity(s[1..], cls, least, rep);
      assert s == [s[0]] + s[1..];
    }
  }

  lemma {:induction false} ReplaceRunsIdentityAtRun(s: string, cls: CharClass, least: nat, rep: string)
    requires least >= 1 && NoRun(s, cls, least) && s != [] && In(cls, s[0])
    ensures ReplaceRuns(s, cls, least, rep) == s
    decreases |s|, 0
  {
    var k := RunLength(s, cls);
    assert ReplaceRuns(s, cls, least, rep) == s[..k] + ReplaceRuns(s[k..], cls, least, rep) by {
      RunBelow(s, cls, least);
    }
    assert ReplaceRuns(s[k..], cls, least, rep) == s[k..] by {
      NoRunSuffix(s, cls, least, k);
      ReplaceRunsIdentity(s[k..], cls, least, rep);
    }
    assert s == s[..k] + s[k..];
  }

  lemma NoRunSuffix(s: string, cls: CharClass, n: nat, k: nat)
    requires n >= 1 && k <= |s| && NoRun(s, cls, n)
    ensures NoRun(s[k..], cls, n)
  {
    NoRunSlice(s, cls, n, k, |s|);
    assert s[k..|s|] == s[k..];
  }

  /** A character absent from the input and from the replacement is absent from the output. */
  lemma {:induction false} ReplaceRunsAvoids(s: string, cls: CharClass, least: nat, rep: string, c: char)
    requires least >= 1 && c !in s && c !in rep
    ensures c !in ReplaceRuns(s, cls, least, rep)
    decreases |s|
  {
    if s == [] {
    } else if !In(cls, s[0]) {
      assert c !in s[1..] by { assert forall x :: x in s[1..] ==> x in s; }
      ReplaceRunsAvoids(s[1..], cls, least, rep, c);
    } else {
      var k := RunLength(s, cls);
      assert c !in s[..k] && c !in s[k..] by { assert s == s[..k] + s[k..]; }
      ReplaceRunsAvoids(s[k..], cls, least, rep, c);
    }
  }

  /** With `least == 1` every class character is replaced, so a class character
      that the replacement does not contain disappears. */
  lemma {:induction false} ReplaceRunsRemoves(s: string, cls: CharClass, rep: string, c: char)
    requires In(cls, c) && c !in rep
    ensures c !in ReplaceRuns(s, cls, 1, rep)
    decreases |s|
  {
    if s == [] {
    } else if !In(cls, s[0]) {
      ReplaceRunsRemoves(s[1..], cls, rep, c);
    } else {
      ReplaceRunsRemoves(s[RunLength(s, cls)..], cls, rep, c);
    }
  }

  // ---------------------------------------------------------------------------
  // Visible characters

  lemma {:induction false} VisibleConcat(a: string, b: string)
    ensures Visible(a + b) == Visible(a) + Visible(b)
    decreases |a|
  {
    if a == [] {
      assert a + b == b;
    } else {
      var ab := a + b;
      assert ab[0] == a[0];
      assert ab[1..] == a[1..] + b;
      VisibleConcat(a[1..], b);
      assert Visible(ab) == (if IsSpace(a[0]) then [] else [a[0]]) + Visible(a[1..] + b);
    }
  }

  lemma {:induction false} VisibleBlank(s: string)
    requires AllIn(s, Space)
    ensures Visible(s) == []
    decreases |s|
  {
    if s != [] {
      VisibleBlank(s[1..]);
    }
  }

  lemma VisibleCons(x: char, t: string)
    ensures Visible([x] + t) == (if IsSpace(x) then [] else [x]) + Visible(t)
  {
    assert ([x] + t)[1..] == t;
  }

  lemma VisibleStartsAtFirst(s: string)
    requires s != [] && !IsSpace(s[0])
    ensures Visible(s) != [] && Visible(s)[0] == s[0]
  {
  }

  /** A whitespace prefix adds no visible character. */
  lemma VisibleAfterBlank(a: string, b: string)
    requires AllIn(a, Space)
    ensures Visible(a + b) == Visible(b)
  {
    VisibleConcat(a, b);
    VisibleBlank(a);
  }

  /** Every class of the extension's expressions holds whitespace only. */
  lemma ClassIsSpace(s: string, cls: CharClass)
    requires AllIn(s, cls)
    ensures AllIn(s, Space)
  {
    forall i | 0 <= i < |s|
      ensures IsSpace(s[i])
    {
      assert In(cls, s[i]);
    }
  }

  /** Replacing runs of a whitespace class by whitespace keeps every other character, in order. */
  lemma {:induction false} VisibleReplaceRuns(s: string, cls: CharClass, least: nat, rep: string)
    requires least >= 1 && AllIn(rep, Space)
    ensures Visible(ReplaceRuns(s, cls, least, rep)) == Visible(s)
    decreases |s|, 1
  {
    if s == [] {
    } else if In(cls, s[0]) {
      VisibleReplaceRunsAtRun(s, cls, least, rep);
    } else {
      var rest := ReplaceRuns(s[1..], cls, least, rep);
      VisibleReplaceRuns(s[1..], cls, least, rep);
      VisibleConcat([s[0]], rest);
      VisibleConcat([s[0]], s[1..]);
      assert s == [s[0]] + s[1..];
    }
  }

  lemma {:induction false} VisibleReplaceRunsAtRun(s: string, cls: CharClass, least: nat, rep: string)
    requires least >= 1 && AllIn(rep, Space) && s != [] && In(cls, s[0])
    ensures Visible(ReplaceRuns(s, cls, least, rep)) == Visible(s)
    decreases |s|, 0
  {
    var k := RunLength(s, cls);
    var piece := if k >= least then rep else s[..k];
    var rest := ReplaceRuns(s[k..], cls, least, rep);
    assert ReplaceRuns(s, cls, least, rep) == piece + rest;
    ClassIsSpace(s[..k], cls);
    VisibleReplaceRuns(s[k..], cls, least, rep);
    VisibleAfterBlank(piece, rest);
    VisibleAfterBlank(s[..k], s[k..]);
    assert s == s[..k] + s[k..];
  }

  // ---------------------------------------------------------------------------
  // Trim

  /** `trim` removes a whitespace prefix and a whitespace suffix and nothing else. */
  lemma TrimSlice(s: string) returns (lo: nat, hi: nat)
    ensures lo <= hi <= |s| && Trim(s) == s[lo..hi]
    ensures AllIn(s[..lo], Space) && AllIn(s[hi..], Space)
  {
    lo := RunLength(s, Space);
    var t := s[lo..];
    hi := lo + |TrimEnd(t)|;
    assert t[|TrimEnd(t)|..] == s[hi..];
    assert t[..|TrimEnd(t)|] == s[lo..hi];
  }

  lemma TrimIdentity(s: string)
    requires Trimmed(s)
    ensures Trim(s) == s
  {
    if s != [] {
      assert RunLength(s, Space) == 0;
    }
  }

  lemma VisibleTrim(s: string)
    ensures Visible(Trim(s)) == Visible(s)
  {
    var lo, hi := TrimSlice(s);
    assert s == s[..lo] + (s[lo..hi] + s[hi..]);
    VisibleConcat(s[..lo], s[lo..hi] + s[hi..]);
    VisibleConcat(s[lo..hi], s[hi..]);
    VisibleBlank(s[..lo]);
    VisibleBlank(s[hi..]);
  }

  lemma TrimNoRun(s: string, cls: CharClass, n: nat)
    requires n >= 1 && NoRun(s, cls, n)
    ensures NoRun(Trim(s), cls, n)
  {
    var lo, hi := TrimSlice(s);
    NoRunSlice(s, cls, n, lo, hi);
  }

  lemma TrimAvoids(s: string, c: char)
    requires c !in s
    ensures c !in Trim(s)
  {
    var lo, hi := TrimSlice(s);
    assert forall x :: x in s[lo..hi] ==> x in s;
  }

  // ---------------------------------------------------------------------------
  // Split and join

  /** Joining the pieces of a split with the same separator gives the string back. */
  lemma {:induction false} SplitJoin(s: string, sep: char)
    ensures Join(Split(s, sep), [sep]) == s
    decreases |s|
  {
    if s != [] {
      var rest := Split(s[1..], sep);
      SplitJoin(s[1..], sep);
      if s[0] == sep {
        assert Join([[]] + rest, [sep]) == [] + [sep] + Join(rest, [sep]);
      } else if |rest| == 1 {
        assert Join([[s[0]] + rest[0]], [sep]) == [s[0]] + rest[0];
      } else {
        var parts := [[s[0]] + rest[0]] + rest[1..];
        assert parts[1..] == rest[1..];
        assert Join(parts, [sep]) == [s[0]] + rest[0] + [sep] + Join(rest[1..], [sep]);
        assert Join(rest, [sep]) == rest[0] + [sep] + Join(rest[1..], [sep]);
      }
      assert s == [s[0]] + s[1..];
    }
  }

  /** No piece of a split contains the separator. */
  lemma {:induction false} SplitPiecesFree(s: string, sep: char)
    ensures forall i :: 0 <= i < |Split(s, sep)| ==> sep !in Split(s, sep)[i]
    decreases |s|
  {
    if s != [] {
      SplitPiecesFree(s[1..], sep);
    }
  }

  // ---------------------------------------------------------------------------
  // Collapse, trim and clip

  /** Every whitespace character is a plain space. */
  predicate OnlyPlainSpaces(s: string)
  {
    forall i :: 0 <= i < |s| && IsSpace(s[i]) ==> s[i] == ' '
  }

  /** Every whitespace run replaced by one plain space, then leading and
      trailing whitespace removed. */
  function Collapse(s: string): string
  {
    Trim(ReplaceRuns(s, Space, 1, " "))
  }

  lemma OnlyPlainSpacesConcat(a: string, b: string)
    requires OnlyPlainSpaces(a) && OnlyPlainSpaces(b)
    ensures OnlyPlainSpaces(a + b)
  {
    var ab := a + b;
    forall i | 0 <= i < |ab| && IsSpace(ab[i])
      ensures ab[i] == ' '
    {
      if i < |a| {
        assert ab[i] == a[i];
      } else {
        assert ab[i] == b[i - |a|];
      }
    }
  }

  lemma OnlyPlainSpacesSlice(s: string, lo: nat, hi: nat)
    requires lo <= hi <= |s| && OnlyPlainSpaces(s)
    ensures OnlyPlainSpaces(s[lo..hi])
  {
    var t := s[lo..hi];
    forall i | 0 <= i < |t| && IsSpace(t[i])
      ensures t[i] == ' '
    {
      assert t[i] == s[lo + i];
    }
  }

  /** Replacing every whitespace run by one space leaves no other whitespace character. */
  lemma {:induction false} ReplaceRunsPlain(s: string)
    ensures OnlyPlainSpaces(ReplaceRuns(s, Space, 1, " "))
    decreases |s|
  {
    if s == [] {
    } else if !IsSpace(s[0]) {
      ReplaceRunsPlain(s[1..]);
      OnlyPlainSpacesConcat([s[0]], ReplaceRuns(s[1..], Space, 1, " "));
    } else {
      ReplaceRunsPlain(s[RunLength(s, Space)..]);
      OnlyPlainSpacesConcat(" ", ReplaceRuns(s[RunLength(s, Space)..], Space, 1, " "));
    }
  }

  /** What collapsing, trimming and then clipping to `n` characters gives: the
      first `n` characters of the collapsed text (all of it when shorter), no whitespace but
      single plain spaces, no leading whitespace; and the collapsed text keeps
      every non-whitespace character of the input in order. */
  lemma ClippedCollapseShape(s: string, n: nat)
    ensures var c := Collapse(s); var r := Take(c, n);
      && |r| == (if |c| <= n then |c| else n) && r <= c && Trimmed(c)
      && OnlyPlainSpaces(r) && NoRun(r, Space, 2) && (r == [] || !IsSpace(r[0]))
      && Visible(c) == Visible(s) && Words(c) == Words(s)
  {
    CollapseKeepsWords(s);
    var e := ReplaceRuns(s, Space, 1, " ");
    var c := Collapse(s);
    var r := Take(c, n);
    var lo, hi := TrimSlice(e);
    ReplaceRunsPlain(s);
    OnlyPlainSpacesSlice(e, lo, hi);
    ReplaceRunsNoRun(s, Space, 1, " ", 2);
    NoRunSlice(e, Space, 2, lo, hi);
    OnlyPlainSpacesSlice(c, 0, |r|);
    NoRunSlice(c, Space, 2, 0, |r|);
    assert c[0..|r|] == r;
    VisibleTrim(e);
    VisibleReplaceRuns(s, Space, 1, " ");
  }

  // ---------------------------------------------------------------------------
  // A run becomes exactly the replacement, and words stay apart

  /** A run that fills the whole of `w` and is not continued by `b` is the
      leading run of `w + b`. */
  lemma {:induction false} RunLengthOfRun(w: string, b: string, cls: CharClass)
    requires AllIn(w, cls) && (b == [] || !In(cls, b[0]))
    ensures RunLength(w + b, cls) == |w|
    decreases |w|
  {
    if w == [] {
      assert w + b == b;
    } else {
      var v := w + b;
      assert v[0] == w[0] && In(cls, w[0]);
      assert v[1..] == w[1..] + b;
      assert AllIn(w[1..], cls) by {
        forall i | 0 <= i < |w| - 1
          ensures In(cls, w[1..][i])
        {
          assert w[1..][i] == w[i + 1];
        }
      }
      RunLengthOfRun(w[1..], b, cls);
    }
  }

  /** A leading run that stops inside `a` is unaffected by what follows `a`. */
  lemma RunLengthStops(a: string, t: string, cls: CharClass)
    requires RunLength(a, cls) < |a|
    ensures RunLength(a + t, cls) == RunLength(a, cls)
    decreases |a|
  {
    if In(cls, a[0]) {
      assert (a + t)[1..] == a[1..] + t;
      RunLengthStops(a[1..], t, cls);
    }
  }

  /** One step of the replacement at a character outside the class. */
  lemma ReplaceRunsPlainHead(s: string, cls: CharClass, least: nat, rep: string)
    requires least >= 1 && s != [] && !In(cls, s[0])
    ensures ReplaceRuns(s, cls, least, rep) == [s[0]] + ReplaceRuns(s[1..], cls, least, rep)
  {
  }

  /** One step of the replacement at a class character: the leading run. */
  lemma ReplaceRunsRunHead(s: string, cls: CharClass, least: nat, rep: string)
    requires least >= 1 && s != [] && In(cls, s[0])
    ensures var k := RunLength(s, cls);
      ReplaceRuns(s, cls, least, rep)
      == (if k >= least then rep else s[..k]) + ReplaceRuns(s[k..], cls, least, rep)
  {
  }

  /** A text that starts with a maximal run of at least `least` class
      characters: the run becomes `rep`. */
  lemma ReplaceRunsLeadingRun(w: string, b: string, cls: CharClass, least: nat, rep: string)
    requires least >= 1 && w != [] && AllIn(w, cls) && |w| >= least
    requires b == [] || !In(cls, b[0])
    ensures ReplaceRuns(w + b, cls, least, rep) == rep + ReplaceRuns(b, cls, least, rep)
  {
    var s := w + b;
    assert s[0] == w[0] && In(cls, w[0]);
    RunLengthOfRun(w, b, cls);
    ReplaceRunsRunHead(s, cls, least, rep);
    assert s[|w|..] == b;
  }

  /** The leading run of `a` stops inside `a`, so the replacement treats it
      the same whatever follows `a`. */
  lemma ReplaceRunsInsideRun(a: string, t: string, cls: CharClass, least: nat, rep: string)
    requires least >= 1 && a != [] && In(cls, a[0]) && !In(cls, a[|a| - 1])
    ensures var k := RunLength(a, cls);
      && 0 < k < |a|
      && ReplaceRuns(a + t, cls, least, rep)
         == (if k >= least then rep else a[..k]) + ReplaceRuns(a[k..] + t, cls, least, rep)
      && ReplaceRuns(a, cls, least, rep)
         == (if k >= least then rep else a[..k]) + ReplaceRuns(a[k..], cls, least, rep)
  {
    var k := RunLength(a, cls);
    assert k < |a|;
    var s := a + t;
    assert s[0] == a[0];
    RunLengthStops(a, t, cls);
    assert s[k..] == a[k..] + t;
    assert s[..k] == a[..k];
    ReplaceRunsRunHead(s, cls, least, rep);
    ReplaceRunsRunHead(a, cls, least, rep);
  }

  /** The first character of `a` is outside the class, so it is kept
      whatever follows `a`. */
  lemma ReplaceRunsPlainStep(a: string, t: string, cls: CharClass, least: nat, rep: string)
    requires least >= 1 && a != [] && !In(cls, a[0])
    ensures ReplaceRuns(a + t, cls, least, rep) == [a[0]] + ReplaceRuns(a[1..] + t, cls, least, rep)
  {
    var s := a + t;
    assert s[0] == a[0] && s[1..] == a[1..] + t;
    ReplaceRunsPlainHead(s, cls, least, rep);
  }

  /** Text that does not end in the class is rewritten the same whatever
      follows it: no run crosses its end. */
  lemma {:induction false} ReplaceRunsConcat(a: string, t: string, cls: CharClass, least: nat, rep: string)
    requires least >= 1 && (a == [] || !In(cls, a[|a| - 1]))
    ensures ReplaceRuns(a + t, cls, least, rep) == ReplaceRuns(a, cls, least, rep) + ReplaceRuns(t, cls, least, rep)
    decreases |a|
  {
    if a == [] {
      assert a + t == t;
    } else if In(cls, a[0]) {
      var k := RunLength(a, cls);
      assert a[k..] == [] || a[k..][|a[k..]| - 1] == a[|a| - 1];
      ReplaceRunsConcat(a[k..], t, cls, least, rep);
      ReplaceRunsConcatRun(a, t, cls, least, rep);
    } else {
      assert a[1..] == [] || a[1..][|a[1..]| - 1] == a[|a| - 1];
      ReplaceRunsConcat(a[1..], t, cls, least, rep);
      ReplaceRunsConcatPlain(a, t, cls, least, rep);
    }
  }

  /** The step of `ReplaceRunsConcat` past a leading run of `a`. */
  lemma ReplaceRunsConcatRun(a: string, t: string, cls: CharClass, least: nat, rep: string)
    requires least >= 1 && a != [] && In(cls, a[0]) && !In(cls, a[|a| - 1])
    requires var k := RunLength(a, cls);
      k <= |a| && ReplaceRuns(a[k..] + t, cls, least, rep)
         == ReplaceRuns(a[k..], cls, least, rep) + ReplaceRuns(t, cls, least, rep)
    ensures ReplaceRuns(a + t, cls, least, rep) == ReplaceRuns(a, cls, least, rep) + ReplaceRuns(t, cls, least, rep)
  {
    var k := RunLength(a, cls);
    ReplaceRunsInsideRun(a, t, cls, least, rep);
    var head := if k >= least then rep else a[..k];
    Regroup(ReplaceRuns(a + t, cls, least, rep), ReplaceRuns(a, cls, least, rep), head,
            ReplaceRuns(a[k..] + t, cls, least, rep), ReplaceRuns(a[k..], cls, least, rep),
            ReplaceRuns(t, cls, least, rep));
  }

  /** The step of `ReplaceRunsConcat` past a first character outside the class. */
  lemma ReplaceRunsConcatPlain(a: string, t: string, cls: CharClass, least: nat, rep: string)
    requires least >= 1 && a != [] && !In(cls, a[0])
    requires ReplaceRuns(a[1..] + t, cls, least, rep)
         == ReplaceRuns(a[1..], cls, least, rep) + ReplaceRuns(t, cls, least, rep)
    ensures ReplaceRuns(a + t, cls, least, rep) == ReplaceRuns(a, cls, least, rep) + ReplaceRuns(t, cls, least, rep)
  {
    ReplaceRunsPlainStep(a, t, cls, least, rep);
    ReplaceRunsPlainHead(a, cls, least, rep);
    Regroup(ReplaceRuns(a + t, cls, least, rep), ReplaceRuns(a, cls, least, rep), [a[0]],
            ReplaceRuns(a[1..] + t, cls, least, rep), ReplaceRuns(a[1..], cls, least, rep),
            ReplaceRuns(t, cls, least, rep));
  }

  lemma Regroup<T>(whole: seq<T>, part: seq<T>, head: seq<T>, restWhole: seq<T>, restPart: seq<T>, tail: seq<T>)
    requires whole == head + restWhole && part == head + restPart && restWhole == restPart + tail
    ensures whole == part + tail
  {
  }

  /** A maximal run of at least `least` class characters between `a` and `b`
      is replaced by `rep` and nothing else: the two sides are rewritten on
      their own and `rep` stands between them. */
  lemma ReplaceRunsAtRun(a: string, w: string, b: string, cls: CharClass, least: nat, rep: string)
    requires least >= 1 && w != [] && AllIn(w, cls) && |w| >= least
    requires a == [] || !In(cls, a[|a| - 1])
    requires b == [] || !In(cls, b[0])
    ensures ReplaceRuns(a + w + b, cls, least, rep)
         == ReplaceRuns(a, cls, least, rep) + rep + ReplaceRuns(b, cls, least, rep)
  {
    ReplaceRunsConcat(a, w + b, cls, least, rep);
    ReplaceRunsLeadingRun(w, b, cls, least, rep);
    assert a + w + b == a + (w + b);
    Regroup(ReplaceRuns(a + (w + b), cls, least, rep), ReplaceRuns(a, cls, least, rep) + rep,
            ReplaceRuns(a, cls, least, rep), ReplaceRuns(w + b, cls, least, rep), rep,
            ReplaceRuns(b, cls, least, rep));
  }

  /** Length of the leading stretch of non-whitespace characters. */
  function WordLength(s: string): (k: nat)
    ensures k <= |s| && (s != [] && !IsSpace(s[0]) ==> k >= 1)
    ensures forall i :: 0 <= i < k ==> !IsSpace(s[i])
    ensures k < |s| ==> IsSpace(s[k])
  {
    if s == [] || IsSpace(s[0]) then 0 else 1 + WordLength(s[1..])
  }

  /** The words of `s`: its maximal stretches of non-whitespace characters,
      in order. */
  function Words(s: string): seq<string>
    decreases |s|
  {
    if s == [] then []
    else if IsSpace(s[0]) then Words(s[1..])
    else
      var k := WordLength(s);
      [s[..k]] + Words(s[k..])
  }

  /** Leading whitespace does not change the words. */
  lemma {:induction false} WordsSkipSpace(w: string, t: string)
    requires AllIn(w, Space)
    ensures Words(w + t) == Words(t)
    decreases |w|
  {
    if w == [] {
      assert w + t == t;
    } else {
      var v := w + t;
      assert v[0] == w[0] && In(Space, w[0]);
      assert v[1..] == w[1..] + t;
      assert AllIn(w[1..], Space) by {
        forall i | 0 <= i < |w| - 1
          ensures In(Space, w[1..][i])
        {
          assert w[1..][i] == w[i + 1];
        }
      }
      WordsSkipSpace(w[1..], t);
    }
  }

  /** The leading word ends where `u` ends, when whitespace or nothing follows. */
  lemma {:induction false} WordLengthConcat(u: string, t: string)
    requires WordLength(u) < |u| || t == [] || IsSpace(t[0])
    ensures WordLength(u + t) == WordLength(u)
    decreases |u|
  {
    if u == [] {
      assert u + t == t;
    } else {
      assert (u + t)[0] == u[0];
      if !IsSpace(u[0]) {
        assert WordLength(u) == 1 + WordLength(u[1..]);
        assert (u + t)[1..] == u[1..] + t;
        WordLengthConcat(u[1..], t);
      }
    }
  }

  /** A word followed by whitespace or nothing is the first word. */
  lemma WordsOfWord(u: string, t: string)
    requires u != [] && WordLength(u) == |u|
    requires t == [] || IsSpace(t[0])
    ensures Words(u + t) == [u] + Words(t)
  {
    WordLengthConcat(u, t);
    assert (u + t)[..|u|] == u && (u + t)[|u|..] == t;
  }

  /** Trailing whitespace does not change the words. */
  lemma {:induction false} WordsTrailingSpace(m: string, w: string)
    requires AllIn(w, Space)
    ensures Words(m + w) == Words(m)
    decreases |m|
  {
    if m == [] {
      WordsSkipSpace(w, []);
      assert w + [] == w && m + w == w;
    } else if IsSpace(m[0]) {
      assert (m + w)[1..] == m[1..] + w;
      WordsTrailingSpace(m[1..], w);
    } else {
      var k := WordLength(m);
      WordLengthConcat(m, w);
      assert (m + w)[..k] == m[..k];
      assert (m + w)[k..] == m[k..] + w;
      WordsTrailingSpace(m[k..], w);
    }
  }

  /** Non-whitespace characters pass through the replacement of whitespace runs. */
  lemma {:induction false} ReplaceRunsOverWord(u: string, t: string, least: nat, rep: string)
    requires least >= 1 && WordLength(u) == |u|
    ensures ReplaceRuns(u + t, Space, least, rep) == u + ReplaceRuns(t, Space, least, rep)
    decreases |u|
  {
    if u == [] {
      assert u + t == t;
    } else {
      var v := u + t;
      assert v[0] == u[0] && !In(Space, u[0]);
      assert v[1..] == u[1..] + t;
      ReplaceRunsOverWord(u[1..], t, least, rep);
      assert u == [u[0]] + u[1..];
    }
  }

  /** Replacing whitespace runs by a non-empty whitespace text keeps the
      words: every run still separates its neighbours, and no word changes. */
  lemma {:induction false} ReplaceRunsKeepsWords(s: string, least: nat, rep: string)
    requires least >= 1 && rep != [] && AllIn(rep, Space)
    ensures Words(ReplaceRuns(s, Space, least, rep)) == Words(s)
    decreases |s|
  {
    if s != [] {
      if !IsSpace(s[0]) {
        var k := WordLength(s);
        var rest := s[k..];
        assert s == s[..k] + rest;
        ReplaceRunsOverWord(s[..k], rest, least, rep);
        ReplaceRunsKeepsWords(rest, least, rep);
        WordsOfWord(s[..k], ReplaceRuns(rest, Space, least, rep));
      } else {
        var k := RunLength(s, Space);
        var piece := if k >= least then rep else s[..k];
        assert ReplaceRuns(s, Space, least, rep) == piece + ReplaceRuns(s[k..], Space, least, rep);
        ReplaceRunsKeepsWords(s[k..], least, rep);
        WordsSkipSpace(piece, ReplaceRuns(s[k..], Space, least, rep));
        assert s == s[..k] + s[k..];
        WordsSkipSpace(s[..k], s[k..]);
      }
    }
  }

  /** Trimming keeps the words. */
  lemma TrimKeepsWords(s: string)
    ensures Words(Trim(s)) == Words(s)
  {
    var lo, hi := TrimSlice(s);
    assert s == s[..lo] + (s[lo..hi] + s[hi..]);
    WordsSkipSpace(s[..lo], s[lo..hi] + s[hi..]);
    WordsTrailingSpace(s[lo..hi], s[hi..]);
  }

  /** Collapsing keeps exactly the words of the text: runs of whitespace are
      made single spaces, not removed. */
  lemma CollapseKeepsWords(s: string)
    ensures Words(Collapse(s)) == Words(s)
  {
    ReplaceRunsKeepsWords(s, 1, " ");
    TrimKeepsWords(ReplaceRuns(s, Space, 1, " "));
  }

  // ---------------------------------------------------------------------------
  // Visible characters of joined pieces

  /** The non-whitespace characters of all pieces, piece by piece. */
  function VisibleAll(parts: seq<string>): string
  {
    if parts == [] then [] else Visible(parts[0]) + VisibleAll(parts[1..])
  }

  /** Joining with a whitespace separator adds no visible character and loses none. */
  lemma {:induction false} VisibleJoin(parts: seq<string>, sep: string)
    requires AllIn(sep, Space)
    ensures Visible(Join(parts, sep)) == VisibleAll(parts)
    decreases |parts|
  {
    if |parts| == 1 {
      assert VisibleAll(parts[1..]) == [];
    } else if |parts| > 1 {
      VisibleJoin(parts[1..], sep);
      VisibleConcat(parts[0] + sep, Join(parts[1..], sep));
      VisibleConcat(parts[0], sep);
      VisibleBlank(sep);
    }
  }

  /** A character found neither in the pieces nor in the separator is not in their join. */
  lemma {:induction false} JoinAvoids(parts: seq<string>, sep: string, c: char)
    requires c !in sep && forall i :: 0 <= i < |parts| ==> c !in parts[i]
    ensures c !in Join(parts, sep)
    decreases |parts|
  {
    if |parts| > 1 {
      JoinAvoids(parts[1..], sep, c);
      assert c !in parts[0];
    }
  }
}
