/** The text operations the script decompiler applies to rendered code:
    `indent`, the newline scan that picks between `$ code` and an
    `init python:` block, and `cleanScript`, the global replacement of
    `/\s+(?=(\n|$))/g` by the empty string. */
module ScriptText {
  import opened Text
  import opened Failures

  /** `' '.repeat(n)`. */
  function Spaces(n: nat): (s: string)
    ensures |s| == n
    ensures forall i :: 0 <= i < n ==> s[i] == ' '
  {
    seq(n, i => ' ')
  }

  /** Every line with `prefix` in front of it. */
  function PrefixEach(lines: seq<string>, prefix: string): (r: seq<string>)
    ensures |r| == |lines|
    ensures forall i :: 0 <= i < |lines| ==> r[i] == prefix + lines[i]
  {
    seq(|lines|, i requires 0 <= i < |lines| => prefix + lines[i])
  }

  /** `indent(s, n)`: the text split at `\n`, every piece prefixed with
      four spaces per level, joined back with `\n`. Indenting keeps the
      lines apart: splitting the result gives back the original lines, each
      with the prefix, and so the same line count. The empty line after a
      trailing `\n` is a line too. */
  function Indent(s: string, n: nat): (r: string)
    ensures Split(r, '\n') == PrefixEach(Split(s, '\n'), Spaces(4 * n))
    ensures |Split(r, '\n')| == |Split(s, '\n')|
  {
    var lines := Split(s, '\n');
    var parts := PrefixEach(lines, Spaces(4 * n));
    PrefixedLinesFree(lines, n);
    SplitJoin(parts, '\n');
    Join(parts, "\n")
  }

  /** Prefixing newline-free lines with spaces keeps them newline-free. */
  lemma PrefixedLinesFree(lines: seq<string>, n: nat)
    requires forall i :: 0 <= i < |lines| ==> '\n' !in lines[i]
    ensures forall i :: 0 <= i < |lines| ==> '\n' !in PrefixEach(lines, Spaces(4 * n))[i]
  {
    forall i | 0 <= i < |lines|
      ensures '\n' !in PrefixEach(lines, Spaces(4 * n))[i]
    {
      SpacesFreeOfNewline(lines[i], 4 * n);
    }
  }

  /** Concatenation without separator (`parts.join('')`). */
  function Concat(parts: seq<string>): string
  {
    Join(parts, "")
  }

  /** Every part followed by `\n`, concatenated: the `str += x + '\n'` loops. */
  function Lines(parts: seq<string>): (s: string)
    ensures s == [] || s[|s| - 1] == '\n'
  {
    if parts == [] then "" else parts[0] + "\n" + Lines(parts[1..])
  }

  lemma SpacesFreeOfNewline(s: string, n: nat)
    requires '\n' !in s
    ensures '\n' !in Spaces(n) + s
  {
    var t := Spaces(n) + s;
    forall k | 0 <= k < |t|
      ensures t[k] != '\n'
    {
      if k >= n {
        assert t[k] == s[k - n];
      }
    }
  }

  /** Indenting by zero levels changes nothing. */
  lemma IndentZero(s: string)
    ensures Indent(s, 0) == s
  {
    var lines := Split(s, '\n');
    assert PrefixEach(lines, Spaces(0)) == lines by {
      forall i | 0 <= i < |lines|
        ensures PrefixEach(lines, Spaces(0))[i] == lines[i]
      {
        assert Spaces(0) == [];
      }
    }
  }

  /** Indenting twice adds the levels. */
  lemma IndentTwice(s: string, a: nat, b: nat)
    ensures Indent(Indent(s, a), b) == Indent(s, a + b)
  {
    var lines := Split(s, '\n');
    var once := PrefixEach(lines, Spaces(4 * a));
    assert Spaces(4 * b) + Spaces(4 * a) == Spaces(4 * (a + b));
    var twice := PrefixEach(once, Spaces(4 * b));
    forall i | 0 <= i < |lines|
      ensures twice[i] == PrefixEach(lines, Spaces(4 * (a + b)))[i]
    {
      assert twice[i] == Spaces(4 * b) + (Spaces(4 * a) + lines[i]);
    }
    assert twice == PrefixEach(lines, Spaces(4 * (a + b)));
  }

  /** `s.indexOf(c, from)`: the first position at or after `from` holding
      `c`, or -1. */
  function IndexOf(s: string, c: char, from: nat): (r: int)
    ensures r == -1 || (from <= r < |s| && s[r] == c)
    ensures r == -1 ==> forall k :: from <= k < |s| ==> s[k] != c
    ensures r != -1 ==> forall k :: from <= k < r ==> s[k] != c
    decreases |s| - from
  {
    if from >= |s| then -1
    else if s[from] == c then from
    else IndexOf(s, c, from + 1)
  }

  /** The positions collected before the one-line test: `i`, then each
      later `\n` found by `indexOf('\n', i + 1)`. */
  function NewlinesFrom(code: string, i: nat): seq<nat>
    decreases |code| - i
  {
    var next := IndexOf(code, '\n', i + 1);
    [i] + (if next == -1 then [] else NewlinesFrom(code, next))
  }

  /** `newlines.every(nl => nl == 0 || nl == code.length - 1)`. */
  predicate OneLine(code: string)
  {
    var nls := NewlinesFrom(code, 0);
    forall k :: 0 <= k < |nls| ==> nls[k] == 0 || nls[k] == |code| - 1
  }

  /** The scan lists its start and exactly the later newline positions. */
  lemma {:induction false} NewlinesFromContent(code: string, i: nat, p: int)
    ensures p in NewlinesFrom(code, i) <==> p == i || (i < p < |code| && code[p] == '\n')
    decreases |code| - i
  {
    var next := IndexOf(code, '\n', i + 1);
    if next != -1 {
      NewlinesFromContent(code, next, p);
    }
  }

  /** The one-line form is taken exactly when no `\n` sits strictly between
      the first and the last character. */
  lemma OneLineExactly(code: string)
    ensures OneLine(code) <==> forall p :: 0 < p < |code| - 1 ==> code[p] != '\n'
  {
    var nls := NewlinesFrom(code, 0);
    if OneLine(code) {
      assert forall q :: q in nls ==> q == 0 || q == |code| - 1;
      forall p | 0 < p < |code| - 1
        ensures code[p] != '\n'
      {
        NewlinesFromContent(code, 0, p);
      }
    }
    if forall p :: 0 < p < |code| - 1 ==> code[p] != '\n' {
      forall k | 0 <= k < |nls|
        ensures nls[k] == 0 || nls[k] == |code| - 1
      {
        NewlinesFromContent(code, 0, nls[k]);
      }
    }
  }

  /** The body shared by `Python` and `SLPython`: `$ code` with its first
      `\n` removed when the code is one line, otherwise an `init python:`
      block holding the indented code. */
  function PythonBlock(code: string): (r: string)
    ensures |r| > 0 && r[|r| - 1] == '\n'
    ensures OneLine(code) <==> r[0] == '$'
  {
    if OneLine(code) then "$ " + RemoveFirst(code, '\n') + "\n"
    else "init python:\n" + Indent(code, 1) + "\n"
  }

  // ---------------------------------------------------------------------
  // cleanScript: /\s+(?=(\n|$))/g replaced by ''

  /** The end of the longest whitespace run starting at `i` (what greedy
      `\s+` first takes). */
  function RunEnd(s: string, i: nat): (j: nat)
    requires i <= |s|
    ensures i <= j <= |s|
    ensures forall k :: i <= k < j ==> IsWhitespace(s[k])
    ensures j == |s| || !IsWhitespace(s[j])
    decreases |s| - i
  {
    if i < |s| && IsWhitespace(s[i]) then RunEnd(s, i + 1) else i
  }

  /** The lookahead `(?=(\n|$))` tried at `k`, `k - 1`, ... down to `i + 1`,
      as greedy `\s+` gives characters back: the largest end that is
      followed by `\n` or by the end of the text. */
  function Backtrack(s: string, i: nat, k: nat): (r: Option<nat>)
    requires i <= k <= |s|
    ensures r.Some? ==> i < r.value <= k && (r.value == |s| || s[r.value] == '\n')
    ensures r.Some? ==> forall p :: r.value < p <= k ==> p != |s| && s[p] != '\n'
    ensures r.None? ==> forall p :: i < p <= k ==> p != |s| && s[p] != '\n'
    decreases k
  {
    if k <= i then None
    else if k == |s| || s[k] == '\n' then Some(k)
    else Backtrack(s, i, k - 1)
  }

  /** `\s+(?=(\n|$))` matches `s[i..k]`: at least one character, all of
      them whitespace, followed by `\n` or by the end of the text. */
  predicate MatchesAt(s: string, i: nat, k: nat)
  {
    && i < k <= |s|
    && (forall p :: i <= p < k ==> IsWhitespace(s[p]))
    && (k == |s| || s[k] == '\n')
  }

  /** Where the match attempted at `i` ends, if it succeeds: the longest
      match starting at `i`, or none when no match starts there. */
  function MatchAt(s: string, i: nat): (r: Option<nat>)
    requires i < |s|
    ensures r.Some? ==> MatchesAt(s, i, r.value) && forall k :: r.value < k <= |s| ==> !MatchesAt(s, i, k)
    ensures r.None? ==> forall k :: i < k <= |s| ==> !MatchesAt(s, i, k)
  {
    Backtrack(s, i, RunEnd(s, i))
  }

  /** The replacement from position `i` on: a match is dropped and the scan
      resumes after it; otherwise the character is kept and the scan moves
      on by one. Only whitespace is dropped: the other characters all
      survive, in their order. */
  function CleanFrom(s: string, i: nat): (r: string)
    requires i <= |s|
    ensures |r| <= |s| - i
    ensures Visible(r) == Visible(s[i..])
    decreases |s| - i
  {
    if i == |s| then ""
    else match MatchAt(s, i)
      case Some(k) =>
        var t := s[i..];
        VisibleSplit(t, k - i);
        assert t[k - i..] == s[k..];
        VisibleOfWhitespace(t[..k - i]);
        CleanFrom(s, k)
      case None =>
        assert s[i..][1..] == s[i + 1..];
        [s[i]] + CleanFrom(s, i + 1)
  }

  /** `cleanScript`: no whitespace is left before a `\n` or at the end, so
      no blank-looking line remains, and only whitespace is removed. */
  function CleanScript(s: string): (r: string)
    ensures Tidy(r)
    ensures Visible(r) == Visible(s)
  {
    CleanFromTidy(s, 0);
    assert s[0..] == s;
    CleanFrom(s, 0)
  }

  /** No whitespace right before a `\n`, and no whitespace at the end. */
  predicate Tidy(t: string)
  {
    && (forall p :: 0 < p < |t| && t[p] == '\n' ==> !IsWhitespace(t[p - 1]))
    && (|t| > 0 ==> !IsWhitespace(t[|t| - 1]))
  }

  /** A whitespace character that no match covers is followed, in the
      output, by the next input character, which is not `\n`. */
  lemma KeptWhitespaceHead(s: string, i: nat)
    requires i < |s| && IsWhitespace(s[i]) && MatchAt(s, i).None?
    ensures i + 1 < |s| && s[i + 1] != '\n'
    ensures CleanFrom(s, i + 1) == [s[i + 1]] + CleanFrom(s, i + 2)
  {
    var j := RunEnd(s, i);
    assert i < j;
    assert j != |s| && s[j] != '\n';
    if i + 1 < j {
      RunEndFrom(s, i, i + 1);
      assert MatchAt(s, i + 1).None?;
    } else {
      assert RunEnd(s, i + 1) == i + 1;
      assert Backtrack(s, i + 1, i + 1).None?;
    }
  }

  /** Starting inside a whitespace run ends it at the same place. */
  lemma {:induction false} RunEndFrom(s: string, i: nat, m: nat)
    requires i <= |s| && i <= m <= RunEnd(s, i)
    ensures RunEnd(s, m) == RunEnd(s, i)
    decreases m - i
  {
    if i < m {
      RunEndFrom(s, i + 1, m);
    }
  }

  /** The cleaned text is tidy. */
  lemma {:induction false} CleanFromTidy(s: string, i: nat)
    requires i <= |s|
    ensures Tidy(CleanFrom(s, i))
    decreases |s| - i
  {
    if i < |s| {
      match MatchAt(s, i)
      case Some(k) =>
        CleanFromTidy(s, k);
      case None =>
        CleanFromTidy(s, i + 1);
        var rest := CleanFrom(s, i + 1);
        var r := [s[i]] + rest;
        if IsWhitespace(s[i]) {
          KeptWhitespaceHead(s, i);
          assert rest != [] && rest[0] != '\n';
        }
        forall p | 0 < p < |r| && r[p] == '\n'
          ensures !IsWhitespace(r[p - 1])
        {
          if p > 1 {
            assert r[p] == rest[p - 1] && r[p - 1] == rest[p - 2];
          }
        }
        if rest != [] {
          assert r[|r| - 1] == rest[|rest| - 1];
        }
    }
  }

  /** A tidy text has nothing to match: cleaning it changes nothing. */
  lemma {:induction false} TidyFixpoint(t: string, i: nat)
    requires Tidy(t) && i <= |t|
    ensures CleanFrom(t, i) == t[i..]
    decreases |t| - i
  {
    if i < |t| {
      var j := RunEnd(t, i);
      if IsWhitespace(t[i]) {
        assert j != |t|;
        forall p | i < p <= j
          ensures p != |t| && t[p] != '\n'
        {
          if p < j {
            assert IsWhitespace(t[p - 1]);
          }
        }
        BacktrackMisses(t, i, j);
      }
      assert MatchAt(t, i).None?;
      TidyFixpoint(t, i + 1);
      assert t[i..] == [t[i]] + t[i + 1..];
    }
  }

  /** Backtracking finds nothing over a stretch without `\n` and without
      the end of the text. */
  lemma {:induction false} BacktrackMisses(s: string, i: nat, k: nat)
    requires i <= k <= |s|
    requires forall p :: i < p <= k ==> p != |s| && s[p] != '\n'
    ensures Backtrack(s, i, k).None?
    decreases k
  {
    if k > i {
      BacktrackMisses(s, i, k - 1);
    }
  }

  /** Cleaning twice is cleaning once. */
  lemma CleanScriptIdempotent(s: string)
    ensures CleanScript(CleanScript(s)) == CleanScript(s)
  {
    var c := CleanScript(s);
    TidyFixpoint(c, 0);
    assert c[0..] == c;
  }

  /** The characters outside `\s`, in order. */
  function Visible(s: string): (v: string)
    ensures |v| <= |s|
  {
    if s == [] then ""
    else (if IsWhitespace(s[0]) then "" else [s[0]]) + Visible(s[1..])
  }

  lemma {:induction false} VisibleSplit(s: string, k: nat)
    requires k <= |s|
    ensures Visible(s) == Visible(s[..k]) + Visible(s[k..])
  {
    if k > 0 {
      VisibleSplit(s[1..], k - 1);
      assert s[1..][..k - 1] == s[..k][1..];
      assert s[1..][k - 1..] == s[k..];
    } else {
      assert s[..k] == [];
      assert s[k..] == s;
    }
  }

  lemma {:induction false} VisibleOfWhitespace(s: string)
    requires forall p :: 0 <= p < |s| ==> IsWhitespace(s[p])
    ensures Visible(s) == ""
  {
    if s != [] {
      VisibleOfWhitespace(s[1..]);
    }
  }
}
