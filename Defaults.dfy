/** Reading the parameter defaults and the version out of the C header text
    that declares them (`#define DEFAULT_… value`, `#define VERSION "…"`). */
module Defaults {
  import opened Wrappers
  import opened Strings
  import opened Numbers
  import opened Inputs

  const DefinePattern := "#define DEFAULT"
  const VersionPattern := "#define VERSION"

  /** The characters at which `.` stops and `$` matches in a multiline regular expression. */
  predicate IsLineTerminator(c: char)
  {
    c == '\n' || c == '\r' || c == '\U{2028}' || c == '\U{2029}'
  }

  predicate NoLineBreak(s: string)
  {
    forall i :: 0 <= i < |s| ==> !IsLineTerminator(s[i])
  }

  /** The text up to (not including) the first line terminator: what `.*$` matches. */
  function LineRest(s: string): (r: string)
    ensures r <= s && NoLineBreak(r)
    ensures |r| == |s| || IsLineTerminator(s[|r|])
  {
    if s == [] || IsLineTerminator(s[0]) then [] else [s[0]] + LineRest(s[1..])
  }

  lemma {:induction false} LineRestCovers(s: string, p: string)
    requires p <= s && NoLineBreak(p)
    ensures p <= LineRest(s)
  {
    if p != [] {
      assert s[0] == p[0];
      LineRestCovers(s[1..], p[1..]);
    }
  }

  /** `[...text.matchAll(/<pattern>.*$/gm)].map(m => m[0])`: scanning left to
      right, each place where `pattern` starts yields the rest of that line,
      and the scan resumes after it. */
  function Matches(text: string, pattern: string): (ms: seq<string>)
    requires |pattern| > 0 && NoLineBreak(pattern)
    ensures forall i :: 0 <= i < |ms| ==> pattern <= ms[i] && NoLineBreak(ms[i])
    decreases |text|
  {
    if |text| < |pattern| then []
    else if text[..|pattern|] == pattern then
      var m := LineRest(text);
      LineRestCovers(text, pattern);
      [m] + Matches(text[|m|..], pattern)
    else Matches(text[1..], pattern)
  }

  /** The match within one line: from the first place `pattern` starts to the
      end of the line, or none. */
  function LineMatch(line: string, pattern: string): (ms: seq<string>)
    requires |pattern| > 0
    ensures |ms| <= 1
    ensures ms != [] ==> pattern <= ms[0] && EndsWith(line, ms[0])
    decreases |line|
  {
    if |line| < |pattern| then []
    else if line[..|pattern|] == pattern then [line]
    else
      var r := LineMatch(line[1..], pattern);
      assert r != [] ==> line[|line| - |r[0]|..] == line[1..][|line[1..]| - |r[0]|..];
      r
  }

  /** `pattern` occurs in `line` starting at index `k`. */
  predicate OccursAt(line: string, pattern: string, k: int)
  {
    0 <= k && k + |pattern| <= |line| && line[k..k + |pattern|] == pattern
  }

  /** A line in which `pattern` first occurs at `k` yields the text from `k`
      to the end of the line. */
  lemma {:induction false} LineMatchFirst(line: string, pattern: string, k: nat)
    requires |pattern| > 0
    requires OccursAt(line, pattern, k)
    requires forall j :: 0 <= j < k ==> !OccursAt(line, pattern, j)
    ensures LineMatch(line, pattern) == [line[k..]]
  {
    if k == 0 {
      assert line[..|pattern|] == line[0..|pattern|];
    } else {
      assert !OccursAt(line, pattern, 0);
      assert line[..|pattern|] == line[0..0 + |pattern|];
      var tail := line[1..];
      OccursShift(line, pattern, k);
      NoneBeforeShift(line, pattern, k);
      LineMatchFirst(tail, pattern, k - 1);
      assert tail[k - 1..] == line[k..];
    }
  }

  /** No occurrence before `k` means none before `k - 1` in the rest of the line. */
  lemma NoneBeforeShift(line: string, pattern: string, k: nat)
    requires |line| >= 1 && k >= 1
    requires forall j :: 0 <= j < k ==> !OccursAt(line, pattern, j)
    ensures forall j :: 0 <= j < k - 1 ==> !OccursAt(line[1..], pattern, j)
  {
    forall j | 0 <= j < k - 1
      ensures !OccursAt(line[1..], pattern, j)
    {
      OccursShift(line, pattern, j + 1);
    }
  }

  /** A line yields no match exactly when `pattern` does not occur in it. */
  lemma {:induction false} LineMatchNone(line: string, pattern: string)
    requires |pattern| > 0
    ensures LineMatch(line, pattern) == [] <==> forall k :: !OccursAt(line, pattern, k)
  {
    if |line| >= |pattern| {
      assert line[..|pattern|] == line[0..0 + |pattern|];
      if line[..|pattern|] == pattern {
        assert OccursAt(line, pattern, 0);
      } else {
        var tail := line[1..];
        LineMatchNone(tail, pattern);
        if LineMatch(line, pattern) == [] {
          forall k ensures !OccursAt(line, pattern, k) {
            if k >= 1 { OccursShift(line, pattern, k); }
          }
        } else {
          var j :| OccursAt(tail, pattern, j);
          OccursShift(line, pattern, j + 1);
        }
      }
    }
  }

  /** An occurrence after the first character is an occurrence in the rest. */
  lemma OccursShift(line: string, pattern: string, k: int)
    requires |line| >= 1 && k >= 1
    ensures OccursAt(line, pattern, k) <==> OccursAt(line[1..], pattern, k - 1)
  {
    if k + |pattern| <= |line| {
      assert line[1..][k - 1..k - 1 + |pattern|] == line[k..k + |pattern|];
    }
  }

  /** The scan finds at most one match per line: the line's own match,
      followed by the matches in the lines after it. */
  lemma {:induction false} MatchesByLine(line: string, rest: string, pattern: string)
    requires |pattern| > 0 && NoLineBreak(pattern)
    requires NoLineBreak(line)
    requires rest == [] || IsLineTerminator(rest[0])
    ensures Matches(line + rest, pattern) == LineMatch(line, pattern) + Matches(rest, pattern)
  {
    var text := line + rest;
    if |text| < |pattern| {
      assert |line| < |pattern|;
      assert |rest| < |pattern|;
    } else if |line| < |pattern| {
      // A window reaching into `rest` contains its leading line terminator.
      assert text[..|pattern|][|line|] == rest[0];
      assert text[..|pattern|] != pattern;
      if line == [] {
        assert text == rest;
      } else {
        assert text[1..] == line[1..] + rest;
        MatchesByLine(line[1..], rest, pattern);
      }
    } else if text[..|pattern|] == pattern {
      assert line[..|pattern|] == pattern;
      LineRestOfLine(line, rest);
      assert text[|line|..] == rest;
    } else {
      assert line[..|pattern|] == text[..|pattern|];
      assert text[1..] == line[1..] + rest;
      MatchesByLine(line[1..], rest, pattern);
    }
  }

  lemma {:induction false} LineRestOfLine(line: string, rest: string)
    requires NoLineBreak(line)
    requires rest == [] || IsLineTerminator(rest[0])
    ensures LineRest(line + rest) == line
  {
    if line == [] {
      assert line + rest == rest;
    } else {
      assert (line + rest)[1..] == line[1..] + rest;
      LineRestOfLine(line[1..], rest);
    }
  }

  /** A text without an occurrence of `pattern` yields no match. */
  lemma {:induction false} MatchesNone(text: string, pattern: string)
    requires |pattern| > 0 && NoLineBreak(pattern)
    requires forall k :: !OccursAt(text, pattern, k)
    ensures Matches(text, pattern) == []
    decreases |text|
  {
    if |text| >= |pattern| {
      assert !OccursAt(text, pattern, 0);
      assert text[..|pattern|] == text[0..0 + |pattern|];
      forall k ensures !OccursAt(text[1..], pattern, k) {
        if k >= 0 { OccursShift(text, pattern, k + 1); }
      }
      MatchesNone(text[1..], pattern);
    }
  }

  /** Lines in which `pattern` does not occur add nothing to the scan of the
      text after them. */
  lemma {:induction false} MatchesSkip(pre: string, text: string, pattern: string)
    requires |pattern| > 0 && NoLineBreak(pattern)
    requires pre == [] || IsLineTerminator(pre[|pre| - 1])
    requires forall k :: !OccursAt(pre, pattern, k)
    ensures Matches(pre + text, pattern) == Matches(text, pattern)
    decreases |pre|
  {
    if pre != [] {
      var all := pre + text;
      if |all| >= |pattern| {
        assert all[..|pattern|] != pattern by {
          if |pre| >= |pattern| {
            assert !OccursAt(pre, pattern, 0);
            assert all[..|pattern|] == pre[0..0 + |pattern|];
          } else {
            // The window holds the line terminator that ends `pre`.
            assert all[..|pattern|][|pre| - 1] == pre[|pre| - 1];
            assert !IsLineTerminator(pattern[|pre| - 1]);
          }
        }
      }
      assert all[1..] == pre[1..] + text;
      forall k ensures !OccursAt(pre[1..], pattern, k) {
        if k >= 0 { OccursShift(pre, pattern, k + 1); }
      }
      MatchesSkip(pre[1..], text, pattern);
      if |all| < |pattern| {
        assert Matches(text, pattern) == [];
      }
    } else {
      assert pre + text == text;
    }
  }

  /** The value a default token stands for: `Number(token)` when that is a
      number (its shortest text, as JavaScript prints numbers), else the token
      with its quote characters removed. */
  function TokenValue(token: string): Value
  {
    match ParseDecimal(token)
    case Some(d) => Number(Normalize(d))
    case None => Text(StripQuotes(token))
  }

  /** A token written as a decimal is read back as that decimal, normalized. */
  lemma NumericToken(d: Decimal)
    ensures TokenValue(DecimalText(d)) == Number(Normalize(d))
  {
    ParseDecimalText(d);
  }

  /** A quoted symbol such as 'N' or "N" is read as the bare symbol. */
  lemma QuotedToken(c: char)
    requires !IsQuote(c) && !IsDigit(c) && c != '-' && c != '+' && c != '.'
    ensures TokenValue(['\'', c, '\'']) == Text([c])
    ensures TokenValue(['"', c, '"']) == Text([c])
  {
    QuotedSymbol('\'', c);
    QuotedSymbol('"', c);
  }

  lemma QuotedSymbol(q: char, c: char)
    requires IsQuote(q) && !IsQuote(c)
    ensures TokenValue([q, c, q]) == Text([c])
  {
    var tok := [q, c, q];
    assert tok[0] != '-' && tok[0] != '+' && tok[0] != '.';
    assert ParseUnsigned(tok) == None by {
      var i := PointIndex(tok);
      if i == |tok| {
        assert !IsDigit(tok[0]);
      } else {
        assert i > 0 && tok[..i][0] == q;
        assert !AllDigits(tok[..i]);
      }
    }
    assert ParseDecimal(tok) == None;
    assert tok[1..] == [c, q] && tok[1..][1..] == [q] && [q][1..] == [];
    assert StripQuotes([q]) == [];
    assert StripQuotes([c, q]) == [c] + StripQuotes([q]);
  }

  /** The state the defaults are loaded into, and whether loading is still
      going (a line that names a mapped parameter but gives no value throws). */
  datatype Loaded = Loaded(params: Params, defaults: Params, ok: bool)

  /** A matched line has at least two words: "#define" and the name. */
  lemma MatchedLineWords(line: string)
    requires DefinePattern <= line
    ensures |Split(line, ' ')| >= 2
  {
    assert line[7] == ' ';
  }

  /** One loop iteration: a line naming a mapped parameter sets that
      parameter and its default to the line's third word. */
  function ApplyLine(r: Loaded, line: string, mapping: map<string, Field>): Loaded
    requires DefinePattern <= line
  {
    MatchedLineWords(line);
    var words := Split(line, ' ');
    if !r.ok || words[1] !in mapping then r
    else if |words| < 3 then r.(ok := false)
    else
      var f, v := mapping[words[1]], TokenValue(words[2]);
      Loaded(r.params.With(f, v), r.defaults.With(f, v), true)
  }

  predicate AllDefineLines(lines: seq<string>)
  {
    forall i :: 0 <= i < |lines| ==> DefinePattern <= lines[i]
  }

  /** The loop over the matched lines, in order. */
  function ApplyDefaults(params: Params, defaults: Params, lines: seq<string>,
                         mapping: map<string, Field>): Loaded
    requires AllDefineLines(lines)
    decreases |lines|
  {
    if lines == [] then Loaded(params, defaults, true)
    else
      var n := |lines| - 1;
      ApplyLine(ApplyDefaults(params, defaults, lines[..n], mapping), lines[n], mapping)
  }

  /** One more line is one more application of `ApplyLine`. */
  lemma ApplyDefaultsStep(params: Params, defaults: Params, lines: seq<string>, i: nat,
                          mapping: map<string, Field>)
    requires AllDefineLines(lines) && i < |lines|
    ensures AllDefineLines(lines[..i]) && AllDefineLines(lines[..i + 1])
    ensures ApplyDefaults(params, defaults, lines[..i + 1], mapping) ==
            ApplyLine(ApplyDefaults(params, defaults, lines[..i], mapping), lines[i], mapping)
  {
    assert lines[..i + 1][..i] == lines[..i];
    assert lines[..i + 1][i] == lines[i];
  }

  /** The name a matched line declares. */
  function LineName(line: string): string
    requires DefinePattern <= line
  {
    MatchedLineWords(line);
    Split(line, ' ')[1]
  }

  /** Loading sets each default and its current value together, so a form
      whose values agree with its defaults still agrees afterwards. */
  lemma {:induction false} ApplyDefaultsKeepsAgreement(params: Params, defaults: Params,
                                                      lines: seq<string>, mapping: map<string, Field>)
    requires AllDefineLines(lines)
    requires params == defaults
    ensures var r := ApplyDefaults(params, defaults, lines, mapping); r.params == r.defaults
  {
    if lines != [] {
      ApplyDefaultsKeepsAgreement(params, defaults, lines[..|lines| - 1], mapping);
    }
  }

  /** A parameter that no matched line maps to keeps its value and its default. */
  lemma {:induction false} ApplyDefaultsUnmapped(params: Params, defaults: Params, lines: seq<string>,
                                                mapping: map<string, Field>, f: Field)
    requires AllDefineLines(lines)
    requires forall i :: 0 <= i < |lines| ==> LineName(lines[i]) !in mapping || mapping[LineName(lines[i])] != f
    ensures var r := ApplyDefaults(params, defaults, lines, mapping);
            r.params.Get(f) == params.Get(f) && r.defaults.Get(f) == defaults.Get(f)
  {
    if lines != [] {
      var n := |lines| - 1;
      ApplyDefaultsUnmapped(params, defaults, lines[..n], mapping, f);
      assert LineName(lines[n]) !in mapping || mapping[LineName(lines[n])] != f;
    }
  }

  /** Once a line has thrown, no later line changes anything. */
  lemma {:induction false} ApplyDefaultsFailureSticks(params: Params, defaults: Params, lines: seq<string>,
                                                     more: seq<string>, mapping: map<string, Field>)
    requires AllDefineLines(lines) && AllDefineLines(more)
    requires !ApplyDefaults(params, defaults, lines, mapping).ok
    ensures AllDefineLines(lines + more)
    ensures ApplyDefaults(params, defaults, lines + more, mapping) == ApplyDefaults(params, defaults, lines, mapping)
  {
    assert AllDefineLines(lines + more) by {
      forall i | 0 <= i < |lines + more| ensures DefinePattern <= (lines + more)[i] {
        if i >= |lines| { assert (lines + more)[i] == more[i - |lines|]; }
      }
    }
    if more == [] {
      assert lines + more == lines;
    } else {
      var n := |more| - 1;
      var all := lines + more;
      assert all[..|all| - 1] == lines + more[..n];
      assert all[|all| - 1] == more[n];
      ApplyDefaultsFailureSticks(params, defaults, lines, more[..n], mapping);
      var before := ApplyDefaults(params, defaults, lines + more[..n], mapping);
      assert !before.ok;
      assert ApplyDefaults(params, defaults, all, mapping) == ApplyLine(before, more[n], mapping);
    }
  }

  /** A loop that stops at line `i`, because the lines ran out or one threw,
      has computed the result for all the lines. */
  lemma ApplyDefaultsStopped(params: Params, defaults: Params, lines: seq<string>, i: nat,
                             mapping: map<string, Field>)
    requires AllDefineLines(lines) && i <= |lines| && AllDefineLines(lines[..i])
    requires i == |lines| || !ApplyDefaults(params, defaults, lines[..i], mapping).ok
    ensures ApplyDefaults(params, defaults, lines, mapping) == ApplyDefaults(params, defaults, lines[..i], mapping)
  {
    if i < |lines| {
      assert lines == lines[..i] + lines[i..];
      ApplyDefaultsFailureSticks(params, defaults, lines[..i], lines[i..], mapping);
    } else {
      assert lines[..i] == lines;
    }
  }

  /** `'v' + <third word of the first VERSION line, quotes removed>`; none
      when there is no such line or it has no third word (the source throws). */
  function VersionOf(text: string): (version: Option<string>)
    ensures version.Some? ==> |version.value| >= 1 && version.value[0] == 'v'
    ensures version.Some? ==> forall i :: 1 <= i < |version.value| ==> !IsQuote(version.value[i])
  {
    var ms := Matches(text, VersionPattern);
    if ms == [] then None
    else
      var words := Split(ms[0], ' ');
      if |words| < 3 then None
      else
        var bare := StripQuotes(words[2]);
        assert forall i :: 1 <= i < |"v" + bare| ==> ("v" + bare)[i] == bare[i - 1];
        Some("v" + bare)
  }

  /** The version comes from the first line holding `#define VERSION`: `v`
      followed by the third word, quotes removed, of the text from that
      pattern to the end of the line; none when that text has fewer than three words. */
  lemma VersionOfFirstLine(pre: string, line: string, rest: string, k: nat)
    requires pre == [] || IsLineTerminator(pre[|pre| - 1])
    requires forall j :: !OccursAt(pre, VersionPattern, j)
    requires NoLineBreak(line) && (rest == [] || IsLineTerminator(rest[0]))
    requires OccursAt(line, VersionPattern, k)
    requires forall j :: 0 <= j < k ==> !OccursAt(line, VersionPattern, j)
    ensures var words := Split(line[k..], ' ');
            VersionOf(pre + line + rest) == if |words| >= 3 then Some("v" + StripQuotes(words[2])) else None
  {
    assert pre + line + rest == pre + (line + rest);
    MatchesSkip(pre, line + rest, VersionPattern);
    MatchesByLine(line, rest, VersionPattern);
    LineMatchFirst(line, VersionPattern, k);
  }

  /** Without a VERSION line there is no version (the source throws). */
  lemma VersionOfAbsent(text: string)
    requires forall k :: !OccursAt(text, VersionPattern, k)
    ensures VersionOf(text) == None
  {
    MatchesNone(text, VersionPattern);
  }
}
