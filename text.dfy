/** The parts of Python's `str` behaviour, and of the two regular expressions built on `\d+`,
    that the field extractors rely on. Strings are sequences of Unicode scalar values. */
module Text {
  import opened Results

  /** Python's `str.isspace()`: the characters that `str.split()` and `str.strip()` treat as
      whitespace (ASCII whitespace, the four separator controls, NEL and Unicode's spaces). */
  predicate IsSpace(c: char)
  {
    || c == ' '
    || ('\t' <= c <= '\r')
    || ('\U{1C}' <= c <= '\U{1F}')
    || c == '\U{85}' || c == '\U{A0}' || c == '\U{1680}'
    || ('\U{2000}' <= c <= '\U{200A}')
    || c == '\U{2028}' || c == '\U{2029}' || c == '\U{202F}' || c == '\U{205F}' || c == '\U{3000}'
  }

  /** An ASCII decimal digit. */
  predicate IsDigit(c: char)
  {
    '0' <= c <= '9'
  }

  predicate AllDigits(s: string)
  {
    forall k | 0 <= k < |s| :: IsDigit(s[k])
  }

  predicate NoDigit(s: string)
  {
    forall k | 0 <= k < |s| :: !IsDigit(s[k])
  }

  predicate AllSpace(s: string)
  {
    forall k | 0 <= k < |s| :: IsSpace(s[k])
  }

  predicate NoSpace(s: string)
  {
    forall k | 0 <= k < |s| :: !IsSpace(s[k])
  }

  lemma NoDigitConcat(a: string, b: string)
    ensures NoDigit(a + b) <==> NoDigit(a) && NoDigit(b)
  {
    if NoDigit(a) && NoDigit(b) {
      forall k | 0 <= k < |a + b| ensures !IsDigit((a + b)[k]) {
        if k >= |a| { assert (a + b)[k] == b[k - |a|]; }
      }
    }
    if NoDigit(a + b) {
      forall k | 0 <= k < |a| ensures !IsDigit(a[k]) {
        assert (a + b)[k] == a[k];
      }
      forall k | 0 <= k < |b| ensures !IsDigit(b[k]) {
        assert (a + b)[|a| + k] == b[k];
      }
    }
  }

  /** Python's `int(s)` for a string of ASCII digits (leading zeros allowed). */
  function DecimalValue(s: string): nat
    requires AllDigits(s)
  {
    if s == [] then 0 else 10 * DecimalValue(s[..|s| - 1]) + (s[|s| - 1] as int - '0' as int)
  }

  // ---------------------------------------------------------------------------------------
  // Greedy digit runs and the leftmost match of `(\d+)`
  // ---------------------------------------------------------------------------------------

  /** What a greedy `\d+` consumes at the start of `s`: the longest all-digit prefix. */
  function DigitRun(s: string): (r: string)
    ensures r <= s && AllDigits(r)
    ensures |r| == |s| || !IsDigit(s[|r|])
  {
    if s != [] && IsDigit(s[0]) then [s[0]] + DigitRun(s[1..]) else []
  }

  /** A match of `(\d+)` found by `re.search`: the text before the match, the digits, and the
      text after them. */
  datatype NumberMatch = NumberMatch(before: string, digits: string, after: string)

  /** `m` is the leftmost, longest match of `(\d+)` in `s`. */
  predicate IsNumberMatch(s: string, m: NumberMatch)
  {
    && s == m.before + m.digits + m.after
    && NoDigit(m.before)
    && m.digits != [] && AllDigits(m.digits)
    && (m.after == [] || !IsDigit(m.after[0]))
  }

  /** `re.search(r"(\d+)", s)`: `None` exactly when `s` has no digit. */
  function SearchNumber(s: string): (r: Option<NumberMatch>)
    ensures r.None? <==> NoDigit(s)
    ensures r.Some? ==> IsNumberMatch(s, r.value)
  {
    if s == [] then None
    else if IsDigit(s[0]) then
      var d := DigitRun(s);
      Some(NumberMatch([], d, s[|d|..]))
    else
      match SearchNumber(s[1..])
      case None =>
        NoDigitCons(s);
        None
      case Some(m) =>
        NumberMatchCons(s, m);
        Some(NumberMatch([s[0]] + m.before, m.digits, m.after))
  }

  lemma NoDigitCons(s: string)
    requires s != [] && !IsDigit(s[0]) && NoDigit(s[1..])
    ensures NoDigit(s)
  {
    forall k | 1 <= k < |s| ensures !IsDigit(s[k]) {
      assert s[k] == s[1..][k - 1];
    }
  }

  lemma NumberMatchCons(s: string, m: NumberMatch)
    requires s != [] && !IsDigit(s[0]) && IsNumberMatch(s[1..], m)
    ensures IsNumberMatch(s, NumberMatch([s[0]] + m.before, m.digits, m.after)) && !NoDigit(s)
  {
    assert s == [s[0]] + (m.before + m.digits + m.after);
    StringAssoc(m.before, m.digits, m.after);
    StringAssoc([s[0]], m.before, m.digits + m.after);
    StringAssoc([s[0]] + m.before, m.digits, m.after);
    assert s[1 + |m.before|] == m.digits[0];
  }

  /** A string has at most one leftmost-longest match of `(\d+)`, so `IsNumberMatch` pins down
      what `re.search` returns. */
  lemma NumberMatchUnique(s: string, m: NumberMatch, m': NumberMatch)
    requires IsNumberMatch(s, m) && IsNumberMatch(s, m')
    ensures m == m'
  {
    var i, i' := |m.before|, |m'.before|;
    assert s[i] == m.digits[0];
    assert i' <= i;
    assert s[i'] == m'.digits[0];
    assert i <= i';
    assert m.before == s[..i] == m'.before;
    var j, j' := i + |m.digits|, i + |m'.digits|;
    assert j == |s| || s[j] == m.after[0];
    assert j' <= j;
    assert j' == |s| || s[j'] == m'.after[0];
    assert j <= j';
    assert m.digits == s[i..j] == m'.digits;
    assert m.after == s[j..] == m'.after;
  }

  // ---------------------------------------------------------------------------------------
  // split, join, strip, replace, `in`
  // ---------------------------------------------------------------------------------------

  /** The longest prefix of `s` without whitespace. */
  function Word(s: string): (r: string)
    ensures r <= s && NoSpace(r)
    ensures |r| == |s| || IsSpace(s[|r|])
  {
    if s != [] && !IsSpace(s[0]) then [s[0]] + Word(s[1..]) else []
  }

  /** Python's `s.split()`: the maximal runs of non-whitespace characters, in order. */
  function Split(s: string): (r: seq<string>)
    ensures forall k | 0 <= k < |r| :: r[k] != [] && NoSpace(r[k])
    decreases |s|
  {
    if s == [] then []
    else if IsSpace(s[0]) then Split(s[1..])
    else
      var w := Word(s);
      [w] + Split(s[|w|..])
  }

  /** Python's `sep.join(parts)`. */
  function Join(sep: string, parts: seq<string>): string
  {
    if parts == [] then []
    else if |parts| == 1 then parts[0]
    else parts[0] + sep + Join(sep, parts[1..])
  }

  /** Python's `s.split(sep)` for a one-character separator: the pieces between separators,
      empty pieces included, so there is always at least one. */
  function SplitOn(s: string, sep: char): (r: seq<string>)
    ensures |r| >= 1
    ensures forall k | 0 <= k < |r| :: sep !in r[k]
  {
    if s == [] then [[]]
    else if s[0] == sep then [[]] + SplitOn(s[1..], sep)
    else
      var rest := SplitOn(s[1..], sep);
      [[s[0]] + rest[0]] + rest[1..]
  }

  /** Python's `s.replace(c, repl)` for a one-character pattern. */
  function Replace(s: string, c: char, repl: string): string
  {
    if s == [] then [] else (if s[0] == c then repl else [s[0]]) + Replace(s[1..], c, repl)
  }

  /** Python's `sub in s`. */
  predicate Contains(s: string, sub: string)
  {
    sub <= s || (s != [] && Contains(s[1..], sub))
  }

  /** Python's `s.lstrip()`: what is left after the leading whitespace. */
  function LStrip(s: string): (r: string)
    ensures |r| <= |s| && r == s[|s| - |r|..] && AllSpace(s[..|s| - |r|])
    ensures r == [] || !IsSpace(r[0])
  {
    if s != [] && IsSpace(s[0]) then
      var r := LStrip(s[1..]);
      LStripStep(s, r);
      r
    else s
  }

  lemma LStripStep(s: string, r: string)
    requires s != [] && IsSpace(s[0]) && |r| <= |s| - 1
    requires r == s[1..][|s| - 1 - |r|..] && AllSpace(s[1..][..|s| - 1 - |r|])
    ensures r == s[|s| - |r|..] && AllSpace(s[..|s| - |r|])
  {
    var n := |s| - |r|;
    assert s[1..][n - 1..] == s[n..];
    forall k | 0 <= k < n ensures IsSpace(s[..n][k]) {
      if k > 0 {
        assert s[..n][k] == s[1..][..n - 1][k - 1];
      }
    }
  }

  /** Python's `s.rstrip()`: what is left before the trailing whitespace. */
  function RStrip(s: string): (r: string)
    ensures r <= s && AllSpace(s[|r|..])
    ensures r == [] || !IsSpace(r[|r| - 1])
  {
    if s != [] && IsSpace(s[|s| - 1]) then RStrip(s[..|s| - 1]) else s
  }

  /** Python's `s.strip()`: the result neither starts nor ends with whitespace. */
  function Strip(s: string): (r: string)
    ensures |r| <= |s|
    ensures r == [] || (!IsSpace(r[0]) && !IsSpace(r[|r| - 1]))
  {
    RStrip(LStrip(s))
  }

  // ---------------------------------------------------------------------------------------
  // Lemmas
  // ---------------------------------------------------------------------------------------

  /** `sub in s` holds exactly when `sub` occurs at some position of `s`. */
  lemma {:induction false} ContainsAt(s: string, sub: string)
    ensures Contains(s, sub) <==> exists i | 0 <= i <= |s| :: sub <= s[i..]
  {
    if sub <= s {
      assert sub <= s[0..];
    } else if s == [] {
    } else {
      ContainsAt(s[1..], sub);
      if exists i | 0 <= i <= |s| :: sub <= s[i..] {
        var i :| 0 <= i <= |s| && sub <= s[i..];
        assert i != 0;
        assert s[1..][i - 1..] == s[i..];
      }
      if exists i | 0 <= i <= |s| - 1 :: sub <= s[1..][i..] {
        var i :| 0 <= i <= |s| - 1 && sub <= s[1..][i..];
        assert s[1..][i..] == s[i + 1..];
      }
    }
  }

  /** A digit run followed by a non-digit (or by nothing) is exactly what `DigitRun` takes. */
  lemma {:induction false} DigitRunOfConcat(d: string, s: string)
    requires AllDigits(d)
    requires s == [] || !IsDigit(s[0])
    ensures DigitRun(d + s) == d
  {
    if d != [] {
      assert (d + s)[1..] == d[1..] + s;
      DigitRunOfConcat(d[1..], s);
    } else {
      assert d + s == s;
    }
  }

  /** A word followed by whitespace (or by nothing) is exactly what `Word` takes. */
  lemma {:induction false} WordOfConcat(w: string, s: string)
    requires NoSpace(w)
    requires s == [] || IsSpace(s[0])
    ensures Word(w + s) == w
  {
    if w != [] {
      assert (w + s)[1..] == w[1..] + s;
      WordOfConcat(w[1..], s);
    }
  }

  /** Joining non-empty, whitespace-free tokens with single spaces and splitting the result on
      whitespace gives the tokens back. */
  lemma {:induction false} SplitJoin(parts: seq<string>)
    requires forall k | 0 <= k < |parts| :: parts[k] != [] && NoSpace(parts[k])
    ensures Split(Join(" ", parts)) == parts
  {
    if parts == [] {
    } else if |parts| == 1 {
      SplitWord(parts[0]);
    } else {
      var w, rest := parts[0], Join(" ", parts[1..]);
      StringAssoc(w, " ", rest);
      SplitAfterWord(w, " " + rest);
      SplitAfterSpace(' ', rest);
      SplitJoin(parts[1..]);
      assert parts == [w] + parts[1..];
    }
  }

  /** A non-empty string without whitespace is a single word. */
  lemma SplitWord(w: string)
    requires w != [] && NoSpace(w)
    ensures Split(w) == [w]
  {
    WordOfConcat(w, []);
    assert w + [] == w;
    assert w[|w|..] == [];
  }

  /** A string made only of whitespace has no words. */
  lemma {:induction false} SplitAllSpace(s: string)
    requires AllSpace(s)
    ensures Split(s) == []
  {
    if s != [] {
      SplitAllSpace(s[1..]);
    }
  }

  /** Splitting works piece by piece across a whitespace boundary: when `a` ends with whitespace
      or `b` starts with it, no word straddles the two. With `SplitWord` and `SplitAllSpace`
      this fixes `Split` on every string. */
  lemma {:induction false} SplitConcat(a: string, b: string)
    requires a == [] || b == [] || IsSpace(a[|a| - 1]) || IsSpace(b[0])
    ensures Split(a + b) == Split(a) + Split(b)
    decreases |a|
  {
    if a == [] {
      assert a + b == b;
    } else if IsSpace(a[0]) {
      SplitConcat(a[1..], b);
      SplitConcatSpace(a, b);
    } else {
      var w := Word(a);
      var rest := a[|w|..];
      assert a == w + rest;
      assert rest != [] ==> rest[0] == a[|w|] && rest[|rest| - 1] == a[|a| - 1];
      assert rest == [] ==> a[|a| - 1] == w[|w| - 1];
      SplitConcat(rest, b);
      SplitConcatWord(w, rest, b);
    }
  }

  /** The step of `SplitConcat` for a leading whitespace character. */
  lemma SplitConcatSpace(a: string, b: string)
    requires a != [] && IsSpace(a[0])
    requires Split(a[1..] + b) == Split(a[1..]) + Split(b)
    ensures Split(a + b) == Split(a) + Split(b)
  {
    HeadTail(a, b);
    SplitAfterSpace(a[0], a[1..]);
    SplitAfterSpace(a[0], a[1..] + b);
  }

  /** The step of `SplitConcat` for a leading word. */
  lemma SplitConcatWord(w: string, rest: string, b: string)
    requires w != [] && NoSpace(w) && (rest == [] || IsSpace(rest[0]))
    requires rest != [] || b == [] || IsSpace(b[0])
    requires Split(rest + b) == Split(rest) + Split(b)
    ensures Split(w + rest + b) == Split(w + rest) + Split(b)
  {
    var rb := rest + b;
    assert rb == [] || IsSpace(rb[0]);
    SplitAfterWord(w, rest);
    SplitAfterWord(w, rb);
    StringAssoc(w, rest, b);
    WordsAssoc([w], Split(rest), Split(b));
  }

  lemma HeadTail(a: string, b: string)
    requires a != []
    ensures a == [a[0]] + a[1..] && a + b == [a[0]] + (a[1..] + b)
  {
  }

  lemma StringAssoc(p: string, q: string, r: string)
    ensures p + q + r == p + (q + r)
  {
  }

  lemma WordsAssoc(p: seq<string>, q: seq<string>, r: seq<string>)
    ensures p + (q + r) == p + q + r
  {
  }

  /** Leading whitespace is skipped. */
  lemma SplitAfterSpace(c: char, t: string)
    requires IsSpace(c)
    ensures Split([c] + t) == Split(t)
  {
    assert ([c] + t)[1..] == t;
  }

  /** A word followed by whitespace (or by nothing) is the first word. */
  lemma SplitAfterWord(w: string, t: string)
    requires w != [] && NoSpace(w)
    requires t == [] || IsSpace(t[0])
    ensures Split(w + t) == [w] + Split(t)
  {
    WordOfConcat(w, t);
    assert (w + t)[0] == w[0];
    assert (w + t)[|w|..] == t;
  }

  /** A piece without the separator splits to itself. */
  lemma {:induction false} SplitOnPiece(a: string, sep: char)
    requires sep !in a
    ensures SplitOn(a, sep) == [a]
  {
    if a != [] {
      SplitOnPiece(a[1..], sep);
      assert a == [a[0]] + a[1..];
    }
  }

  /** Splitting `a + [sep] + b` on `sep` yields `a` followed by the pieces of `b`. */
  lemma {:induction false} SplitOnSeparated(a: string, sep: char, b: string)
    requires sep !in a
    ensures SplitOn(a + [sep] + b, sep) == [a] + SplitOn(b, sep)
  {
    var s := a + [sep] + b;
    if a == [] {
      assert s[0] == sep && s[1..] == b;
    } else {
      assert s[0] == a[0] && s[1..] == a[1..] + [sep] + b;
      SplitOnSeparated(a[1..], sep, b);
      assert a == [a[0]] + a[1..];
    }
  }

  /** Joining separator-free pieces with `sep` and splitting on `sep` gives the pieces back. */
  lemma {:induction false} SplitOnJoin(parts: seq<string>, sep: char)
    requires |parts| >= 1
    requires forall k | 0 <= k < |parts| :: sep !in parts[k]
    ensures SplitOn(Join([sep], parts), sep) == parts
  {
    if |parts| == 1 {
      SplitOnPiece(parts[0], sep);
    } else {
      SplitOnSeparated(parts[0], sep, Join([sep], parts[1..]));
      SplitOnJoin(parts[1..], sep);
      assert parts == [parts[0]] + parts[1..];
    }
  }

  /** `replace` works piece by piece. */
  lemma {:induction false} ReplaceConcat(a: string, b: string, c: char, repl: string)
    ensures Replace(a + b, c, repl) == Replace(a, c, repl) + Replace(b, c, repl)
  {
    if a != [] {
      assert (a + b)[0] == a[0] && (a + b)[1..] == a[1..] + b;
      ReplaceConcat(a[1..], b, c, repl);
      var head := if a[0] == c then repl else [a[0]];
      calc {
        Replace(a + b, c, repl);
        head + Replace(a[1..] + b, c, repl);
        head + (Replace(a[1..], c, repl) + Replace(b, c, repl));
        (head + Replace(a[1..], c, repl)) + Replace(b, c, repl);
      }
    } else {
      assert a + b == b;
    }
  }

  /** Replacing a non-separator character in a joined string replaces it in every piece. */
  lemma {:induction false} ReplaceJoin(parts: seq<string>, sep: char, c: char, repl: string)
    requires c != sep
    ensures Replace(Join([sep], parts), c, repl) == Join([sep], MapReplace(parts, c, repl))
  {
    if |parts| >= 2 {
      ReplaceConcat(parts[0] + [sep], Join([sep], parts[1..]), c, repl);
      ReplaceConcat(parts[0], [sep], c, repl);
      assert Replace([sep], c, repl) == [sep];
      ReplaceJoin(parts[1..], sep, c, repl);
    }
  }

  /** `[part.replace(c, repl) for part in parts]`. */
  function MapReplace(parts: seq<string>, c: char, repl: string): (r: seq<string>)
    ensures |r| == |parts|
    ensures forall k | 0 <= k < |parts| :: r[k] == Replace(parts[k], c, repl)
  {
    if parts == [] then [] else [Replace(parts[0], c, repl)] + MapReplace(parts[1..], c, repl)
  }

  /** A character absent from both the string and the replacement stays absent. */
  lemma {:induction false} ReplaceKeepsOut(s: string, c: char, repl: string, x: char)
    requires x !in s && x !in repl
    ensures x !in Replace(s, c, repl)
  {
    if s != [] {
      ReplaceKeepsOut(s[1..], c, repl, x);
    }
  }

  /** `strip()` removes exactly the surrounding whitespace: whatever sits between whitespace
      padding, and itself starts and ends with non-whitespace, is what `Strip` returns. */
  lemma {:induction false} StripPadded(pre: string, m: string, post: string)
    requires AllSpace(pre) && AllSpace(post)
    requires m == [] || (!IsSpace(m[0]) && !IsSpace(m[|m| - 1]))
    ensures Strip(pre + m + post) == m
  {
    if m == [] {
      var s := pre + post;
      assert AllSpace(s);
      var l := LStrip(s);
      assert l == s[|s| - |l|..];
      assert l == [];
      assert pre + m + post == s;
    } else {
      LStripPadded(pre, m + post);
      assert pre + m + post == pre + (m + post);
      RStripPadded(m, post);
    }
  }

  lemma {:induction false} LStripPadded(pre: string, s: string)
    requires AllSpace(pre)
    requires s == [] || !IsSpace(s[0])
    ensures LStrip(pre + s) == s
  {
    if pre != [] {
      assert (pre + s)[1..] == pre[1..] + s;
      LStripPadded(pre[1..], s);
    } else {
      assert pre + s == s;
    }
  }

  lemma {:induction false} RStripPadded(s: string, post: string)
    requires AllSpace(post)
    requires s == [] || !IsSpace(s[|s| - 1])
    ensures RStrip(s + post) == s
  {
    if post != [] {
      var t := s + post;
      assert t[..|t| - 1] == s + post[..|post| - 1];
      RStripPadded(s, post[..|post| - 1]);
    } else {
      assert s + post == s;
    }
  }

  /** Stripping twice is stripping once. */
  lemma StripIdempotent(s: string)
    ensures Strip(Strip(s)) == Strip(s)
  {
    var r := Strip(s);
    StripPadded([], r, []);
    assert [] + r + [] == r;
  }

  /** A joined sequence is its first part, a separator, and the join of the rest. */
  lemma JoinCons(w: string, rest: seq<string>)
    requires rest != []
    ensures Join(" ", [w] + rest) == w + " " + Join(" ", rest)
  {
    assert ([w] + rest)[1..] == rest;
  }

  /** A string contains its own prefix. */
  lemma ContainsPrefix(name: string, post: string)
    ensures Contains(name + post, name)
  {
    assert name <= name + post;
  }

  /** A string contains its own suffix. */
  lemma ContainsAfter(pre: string, name: string)
    ensures Contains(pre + name, name)
  {
    assert name <= (pre + name)[|pre|..];
    ContainsAt(pre + name, name);
  }

  /** Replacing a character that does not occur changes nothing. */
  lemma {:induction false} ReplaceAbsent(s: string, c: char, repl: string)
    requires c !in s
    ensures Replace(s, c, repl) == s
  {
    if s != [] {
      ReplaceAbsent(s[1..], c, repl);
    }
  }
}
