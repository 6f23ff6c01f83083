/** The JavaScript string operations the controller relies on:
    `endsWith`, `split(' ')` and the quote-stripping `replace`. */
module Strings {

  /** `s.endsWith(suffix)`. */
  predicate EndsWith(s: string, suffix: string)
  {
    |suffix| <= |s| && s[|s| - |suffix|..] == suffix
  }

  /** A string ending in a non-empty suffix ends in that suffix's last character. */
  lemma EndsWithLast(s: string, suffix: string)
    requires EndsWith(s, suffix) && |suffix| > 0
    ensures s[|s| - 1] == suffix[|suffix| - 1]
  {
    assert s[|s| - |suffix|..][|suffix| - 1] == s[|s| - 1];
  }

  /** A concatenation ends in its second part. */
  lemma EndsWithConcat(a: string, b: string)
    ensures EndsWith(a + b, b)
  {
    assert (a + b)[|a + b| - |b|..] == b;
  }

  /** Number of occurrences of `c` in `s`. */
  function CountChar(s: string, c: char): (n: nat)
    ensures n <= |s|
    ensures n == 0 <==> c !in s
  {
    if s == [] then 0 else (if s[0] == c then 1 else 0) + CountChar(s[1..], c)
  }

  lemma {:induction false} CountCharAppend(a: string, b: string, c: char)
    ensures CountChar(a + b, c) == CountChar(a, c) + CountChar(b, c)
  {
    if a == [] {
      assert a + b == b;
    } else {
      assert (a + b)[1..] == a[1..] + b;
      CountCharAppend(a[1..], b, c);
    }
  }

  /** `s.split(sep)`: the maximal pieces between separators, empty pieces
      included, so there is always one more piece than separators. */
  function Split(s: string, sep: char): (parts: seq<string>)
    ensures |parts| == CountChar(s, sep) + 1
    ensures forall i :: 0 <= i < |parts| ==> sep !in parts[i]
  {
    if s == [] then [[]]
    else
      var rest := Split(s[1..], sep);
      if s[0] == sep then [[]] + rest else [[s[0]] + rest[0]] + rest[1..]
  }

  /** `parts.join(sep)`, the inverse of `Split`. */
  function Join(parts: seq<string>, sep: char): string
    requires |parts| >= 1
  {
    if |parts| == 1 then parts[0] else parts[0] + [sep] + Join(parts[1..], sep)
  }

  lemma {:induction false} SplitNoSeparator(a: string, sep: char)
    requires sep !in a
    ensures Split(a, sep) == [a]
  {
    if a != [] {
      assert a[0] in a;
      SplitNoSeparator(a[1..], sep);
      assert [a[0]] + a[1..] == a;
    }
  }

  /** Splitting `a + sep + b`, where `a` holds no separator, yields `a` followed by the pieces of `b`. */
  lemma {:induction false} SplitAround(a: string, sep: char, b: string)
    requires sep !in a
    ensures Split(a + [sep] + b, sep) == [a] + Split(b, sep)
  {
    var s := a + [sep] + b;
    if a == [] {
      assert s[0] == sep && s[1..] == b;
    } else {
      assert s[0] == a[0] && s[1..] == a[1..] + [sep] + b;
      SplitAround(a[1..], sep, b);
      assert [a[0]] + a[1..] == a;
    }
  }

  /** Joining pieces that hold no separator and splitting again gives the pieces back. */
  lemma {:induction false} SplitJoin(parts: seq<string>, sep: char)
    requires |parts| >= 1
    requires forall i :: 0 <= i < |parts| ==> sep !in parts[i]
    ensures Split(Join(parts, sep), sep) == parts
  {
    if |parts| == 1 {
      SplitNoSeparator(parts[0], sep);
    } else {
      SplitJoin(parts[1..], sep);
      SplitAround(parts[0], sep, Join(parts[1..], sep));
      assert [parts[0]] + parts[1..] == parts;
    }
  }

  /** Splitting and joining again gives the original string. */
  lemma {:induction false} JoinSplit(s: string, sep: char)
    ensures Join(Split(s, sep), sep) == s
  {
    if s != [] {
      var rest := Split(s[1..], sep);
      JoinSplit(s[1..], sep);
      if s[0] == sep {
        assert ([[]] + rest)[1..] == rest;
      } else {
        var parts := [[s[0]] + rest[0]] + rest[1..];
        if |rest| > 1 {
          assert parts[1..] == rest[1..];
        }
      }
    }
  }

  /** Joining a concatenation puts one separator between the two joins. */
  lemma {:induction false} JoinConcat(a: seq<string>, b: seq<string>, sep: char)
    requires |a| >= 1 && |b| >= 1
    ensures Join(a + b, sep) == Join(a, sep) + [sep] + Join(b, sep)
  {
    if |a| == 1 {
      assert (a + b)[1..] == b;
    } else {
      assert (a + b)[1..] == a[1..] + b;
      JoinConcat(a[1..], b, sep);
    }
  }

  /** The characters removed by `replace(/"|'/g, '')`. */
  predicate IsQuote(c: char)
  {
    c == '"' || c == '\''
  }

  /** `s.replace(/"|'/g, '')`: `s` with every double and single quote removed,
      all other characters kept in order. */
  function StripQuotes(s: string): (r: string)
    ensures |r| <= |s|
    ensures |s| == 1 ==> r == (if IsQuote(s[0]) then [] else s)
    ensures forall i :: 0 <= i < |r| ==> !IsQuote(r[i])
    ensures (forall i :: 0 <= i < |s| ==> !IsQuote(s[i])) ==> r == s
  {
    if s == [] then []
    else if IsQuote(s[0]) then StripQuotes(s[1..])
    else [s[0]] + StripQuotes(s[1..])
  }

  /** Quote removal works piece by piece: together with the one-character
      case above this fixes the result, every non-quote character in order. */
  lemma {:induction false} StripQuotesConcat(a: string, b: string)
    ensures StripQuotes(a + b) == StripQuotes(a) + StripQuotes(b)
  {
    if a == [] {
      assert a + b == b;
    } else {
      assert (a + b)[0] == a[0] && (a + b)[1..] == a[1..] + b;
      StripQuotesConcat(a[1..], b);
    }
  }

  /** Quote removal keeps exactly the characters that are not quotes. */
  lemma {:induction false} StripQuotesKeeps(s: string)
    ensures forall c :: c in StripQuotes(s) <==> c in s && !IsQuote(c)
  {
    if s != [] {
      StripQuotesKeeps(s[1..]);
      assert s == [s[0]] + s[1..];
    }
  }

  /** Stripping quotes a second time changes nothing. */
  lemma StripQuotesIdempotent(s: string)
    ensures StripQuotes(StripQuotes(s)) == StripQuotes(s)
  {
  }

  /** The number of UTF-16 code units of `s`, which JavaScript's `length`
      counts: a character outside the Basic Multilingual Plane takes two. */
  function Utf16Length(s: string): (n: nat)
    ensures |s| <= n <= 2 * |s|
  {
    if s == [] then 0 else (if s[0] as int > 0xFFFF then 2 else 1) + Utf16Length(s[1..])
  }

  /** A JavaScript length of one is exactly one character of the Basic Multilingual Plane. */
  lemma Utf16LengthOne(s: string)
    ensures Utf16Length(s) == 1 <==> |s| == 1 && s[0] as int <= 0xFFFF
  {
    if |s| == 1 {
      assert s[1..] == [];
    }
  }

}
