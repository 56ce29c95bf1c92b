/**
 * The two JavaScript string built-ins the status handler relies on:
 * `String.prototype.trim` and `String.prototype.split` with a one-character
 * separator. Strings are sequences of characters. The functions state what
 * holds of their result by itself; how the result sits inside the argument is
 * stated by the lemmas beside them.
 */
module JsString {

  /** ECMAScript WhiteSpace and LineTerminator code points: what `trim` removes. */
  predicate IsJsWhitespace(c: char) {
    c == '\t' || c == '\n' || c == '\U{B}' || c == '\U{C}' || c == '\r' || c == ' '
    || c == '\U{A0}' || c == '\U{1680}' || ('\U{2000}' <= c <= '\U{200A}')
    || c == '\U{2028}' || c == '\U{2029}' || c == '\U{202F}' || c == '\U{205F}'
    || c == '\U{3000}' || c == '\U{FEFF}'
  }

  predicate AllWhitespace(s: string) {
    forall i :: 0 <= i < |s| ==> IsJsWhitespace(s[i])
  }

  /** Drops the leading whitespace: what is kept is a suffix of `s` that does not start with whitespace. */
  function TrimStart(s: string): (r: string)
    ensures |r| <= |s|
    ensures r == [] || !IsJsWhitespace(r[0])
  {
    if s == [] || !IsJsWhitespace(s[0]) then s else TrimStart(s[1..])
  }

  /** Drops the trailing whitespace: what is kept is a prefix of `s` that does not end with whitespace. */
  function TrimEnd(s: string): (r: string)
    ensures |r| <= |s|
    ensures r == [] || !IsJsWhitespace(r[|r| - 1])
  {
    if s == [] || !IsJsWhitespace(s[|s| - 1]) then s else TrimEnd(s[..|s| - 1])
  }

  /** `s.trim()`: a part of `s` that neither starts nor ends with whitespace. */
  function Trim(s: string): (r: string)
    ensures |r| <= |s|
    ensures r == [] || (!IsJsWhitespace(r[0]) && !IsJsWhitespace(r[|r| - 1]))
  {
    var start := TrimStart(s);
    TrimEndPrefix(start);
    TrimEnd(start)
  }

  /** `TrimEnd` keeps the first character of a string that does not end up empty. */
  lemma {:induction false} TrimEndPrefix(s: string)
    ensures TrimEnd(s) == [] || TrimEnd(s)[0] == s[0]
  {
    if s != [] && IsJsWhitespace(s[|s| - 1]) {
      TrimEndPrefix(s[..|s| - 1]);
    }
  }

  /** Everything `TrimStart` removes is whitespace, so the kept suffix is the longest one not starting with whitespace. */
  lemma {:induction false} TrimStartSpec(s: string)
    ensures TrimStart(s) == s[|s| - |TrimStart(s)|..]
    ensures AllWhitespace(s[..|s| - |TrimStart(s)|])
  {
    if s != [] && IsJsWhitespace(s[0]) {
      var rest := s[1..];
      var r := TrimStart(rest);
      assert TrimStart(s) == r;
      TrimStartSpec(rest);
      assert rest[|rest| - |r|..] == s[|s| - |r|..];
      var lead := s[..|s| - |r|];
      assert lead == [s[0]] + rest[..|rest| - |r|];
      forall i | 0 <= i < |lead| ensures IsJsWhitespace(lead[i]) {
        if i > 0 {
          assert lead[i] == rest[..|rest| - |r|][i - 1];
        }
      }
    }
  }

  /** Everything `TrimEnd` removes is whitespace, so the kept prefix is the longest one not ending with whitespace. */
  lemma {:induction false} TrimEndSpec(s: string)
    ensures TrimEnd(s) == s[..|TrimEnd(s)|]
    ensures AllWhitespace(s[|TrimEnd(s)|..])
  {
    if s != [] && IsJsWhitespace(s[|s| - 1]) {
      var init := s[..|s| - 1];
      var r := TrimEnd(init);
      assert TrimEnd(s) == r;
      TrimEndSpec(init);
      assert init[..|r|] == s[..|r|];
      assert s[|r|..] == init[|r|..] + [s[|s| - 1]];
      var tail := s[|r|..];
      forall i | 0 <= i < |tail| ensures IsJsWhitespace(tail[i]) {
        if i < |init[|r|..]| {
          assert tail[i] == init[|r|..][i];
        }
      }
    }
  }

  /**
   * `s` is its trimmed text with whitespace on either side: the trimmed text
   * is a contiguous part of `s`, neither of its ends is whitespace, and what
   * was cut away is all whitespace.
   */
  lemma TrimSpec(s: string) returns (lead: string, tail: string)
    ensures s == lead + Trim(s) + tail
    ensures AllWhitespace(lead) && AllWhitespace(tail)
    ensures Trim(s) == [] || (!IsJsWhitespace(Trim(s)[0]) && !IsJsWhitespace(Trim(s)[|Trim(s)| - 1]))
  {
    var start := TrimStart(s);
    TrimStartSpec(s);
    TrimEndSpec(start);
    var t := TrimEnd(start);
    lead := s[..|s| - |start|];
    tail := start[|t|..];
    assert s == lead + start;
    assert start == t + tail;
  }

  /** The trimmed text is empty exactly when the whole string is whitespace. */
  lemma TrimEmpty(s: string)
    ensures Trim(s) == [] <==> AllWhitespace(s)
  {
    var lead, tail := TrimSpec(s);
    if Trim(s) == [] {
      assert s == lead + tail;
      WhitespaceAppend(lead, tail);
    } else {
      assert s[|lead|] == Trim(s)[0];
    }
  }

  /** Whitespace in front of a string that does not start with whitespace is exactly what `TrimStart` removes. */
  lemma {:induction false} TrimStartPadded(p: string, x: string)
    requires AllWhitespace(p)
    requires x == [] || !IsJsWhitespace(x[0])
    ensures TrimStart(p + x) == x
  {
    if p != [] {
      assert (p + x)[1..] == p[1..] + x;
      TrimStartPadded(p[1..], x);
    } else {
      assert p + x == x;
    }
  }

  /** Whitespace behind a string that does not end with whitespace is exactly what `TrimEnd` removes. */
  lemma {:induction false} TrimEndPadded(x: string, q: string)
    requires AllWhitespace(q)
    requires x == [] || !IsJsWhitespace(x[|x| - 1])
    ensures TrimEnd(x + q) == x
  {
    if q != [] {
      assert (x + q)[..|x + q| - 1] == x + q[..|q| - 1];
      TrimEndPadded(x, q[..|q| - 1]);
    } else {
      assert x + q == x;
    }
  }

  /** `trim` removes whitespace padding on both sides and nothing else. */
  lemma TrimPadded(p: string, x: string, q: string)
    requires AllWhitespace(p) && AllWhitespace(q)
    requires x == [] || (!IsJsWhitespace(x[0]) && !IsJsWhitespace(x[|x| - 1]))
    ensures Trim(p + x + q) == x
  {
    if x != [] {
      assert p + x + q == p + (x + q);
      TrimStartPadded(p, x + q);
      TrimEndPadded(x, q);
    } else {
      assert p + x + q == p + q;
      WhitespaceAppend(p, q);
      TrimEmpty(p + q);
    }
  }

  /** Extra whitespace around a string does not change what `trim` returns. */
  lemma TrimAbsorbsPadding(p: string, s: string, q: string)
    requires AllWhitespace(p) && AllWhitespace(q)
    ensures Trim(p + s + q) == Trim(s)
  {
    var lead, tail := TrimSpec(s);
    var t := Trim(s);
    WhitespaceAppend(p, lead);
    WhitespaceAppend(tail, q);
    if t == [] {
      assert p + s + q == (p + lead) + (tail + q) by {
        assert s == lead + tail;
      }
      WhitespaceAppend(p + lead, tail + q);
      TrimEmpty(p + s + q);
    } else {
      assert p + s + q == (p + lead) + t + (tail + q);
      TrimPadded(p + lead, t, tail + q);
    }
  }

  /** `trim` is idempotent. */
  lemma TrimIdempotent(s: string)
    ensures Trim(Trim(s)) == Trim(s)
  {
    var _, _ := TrimSpec(s);
    var t := Trim(s);
    assert [] + t + [] == t;
    TrimPadded([], t, []);
  }

  lemma WhitespaceAppend(a: string, b: string)
    requires AllWhitespace(a) && AllWhitespace(b)
    ensures AllWhitespace(a + b)
  {
    forall i | 0 <= i < |a + b| ensures IsJsWhitespace((a + b)[i]) {
      if i >= |a| { assert (a + b)[i] == b[i - |a|]; }
    }
  }

  /** Re-joins pieces with the separator between consecutive ones (JavaScript's `parts.join(sep)`). */
  function Join(parts: seq<string>, sep: char): string
    requires |parts| >= 1
  {
    if |parts| == 1 then parts[0] else parts[0] + [sep] + Join(parts[1..], sep)
  }

  /** `s.split(sep)` for a one-character separator. */
  function Split(s: string, sep: char): (r: seq<string>)
    ensures |r| >= 1
    decreases |s|
  {
    if s == [] then [[]]
    else
      var tail := Split(s[1..], sep);
      if s[0] == sep then [[]] + tail
      else [[s[0]] + tail[0]] + tail[1..]
  }

  /**
   * What `split` returns: at least one piece (the empty string splits into
   * one empty piece), no piece holds the separator, and joining the pieces
   * back gives the original string.
   */
  lemma {:induction false} SplitSpec(s: string, sep: char)
    ensures |Split(s, sep)| >= 1
    ensures forall i :: 0 <= i < |Split(s, sep)| ==> sep !in Split(s, sep)[i]
    ensures Join(Split(s, sep), sep) == s
    decreases |s|
  {
    if s != [] {
      var tail := Split(s[1..], sep);
      SplitSpec(s[1..], sep);
      var r := Split(s, sep);
      if s[0] == sep {
        assert r == [[]] + tail && r[1..] == tail;
      } else {
        assert r == [[s[0]] + tail[0]] + tail[1..];
        assert |tail| > 1 ==> r[1..] == tail[1..];
      }
    }
  }

  /** There is more than one piece exactly when the string holds the separator. */
  lemma SplitCount(s: string, sep: char)
    ensures |Split(s, sep)| >= 2 <==> sep in s
  {
    SplitSpec(s, sep);
    var parts := Split(s, sep);
    if |parts| == 1 {
      assert Join(parts, sep) == parts[0];
    } else {
      assert s == parts[0] + [sep] + Join(parts[1..], sep);
      assert s[|parts[0]|] == sep;
    }
  }

  /** Splitting a string whose first piece is `a`: `a` comes out first, and the rest is split on. */
  lemma {:induction false} SplitHead(a: string, t: string, sep: char)
    requires sep !in a
    requires t == [] || t[0] == sep
    ensures t == [] ==> Split(a + t, sep) == [a]
    ensures t != [] ==> Split(a + t, sep) == [a] + Split(t[1..], sep)
  {
    if a == [] {
      assert a + t == t;
      if t != [] { SplitSpec(t[1..], sep); }
    } else {
      assert (a + t)[1..] == a[1..] + t;
      SplitHead(a[1..], t, sep);
      assert [a[0]] + a[1..] == a;
    }
  }

  /** `split` undoes `join` on pieces that do not hold the separator. */
  lemma {:induction false} SplitJoin(parts: seq<string>, sep: char)
    requires |parts| >= 1
    requires forall i :: 0 <= i < |parts| ==> sep !in parts[i]
    ensures Split(Join(parts, sep), sep) == parts
    decreases |parts|
  {
    if |parts| == 1 {
      SplitHead(parts[0], [], sep);
      assert parts[0] + [] == parts[0];
    } else {
      var rest := Join(parts[1..], sep);
      assert parts[0] + [sep] + rest == parts[0] + ([sep] + rest);
      SplitHead(parts[0], [sep] + rest, sep);
      assert ([sep] + rest)[1..] == rest;
      SplitJoin(parts[1..], sep);
    }
  }
}
