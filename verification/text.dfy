/** String helpers with the semantics of the Python string operations the
    program relies on: `str.split` on one character, `str.join`,
    `str.replace` of one character, `str.rstrip()` and `str(int)`. */
module Text {
  import opened Optional

  // ---------------------------------------------------------------------
  // Joining and splitting
  // ---------------------------------------------------------------------

  /** `sep.join(parts)`; with `sep == ""` this is plain concatenation. */
  function Join(parts: seq<string>, sep: string): string
  {
    if |parts| == 0 then ""
    else if |parts| == 1 then parts[0]
    else parts[0] + sep + Join(parts[1..], sep)
  }

  lemma JoinCons(x: string, xs: seq<string>, sep: string)
    requires |xs| > 0
    ensures Join([x] + xs, sep) == x + sep + Join(xs, sep)
  {
    assert ([x] + xs)[1..] == xs;
  }

  lemma {:induction false} JoinSnoc(xs: seq<string>, x: string, sep: string)
    requires |xs| > 0
    ensures Join(xs + [x], sep) == Join(xs, sep) + sep + x
    decreases |xs|
  {
    if |xs| == 1 {
      assert xs + [x] == [xs[0]] + [x];
    } else {
      JoinSnoc(xs[1..], x, sep);
      assert xs + [x] == [xs[0]] + (xs[1..] + [x]);
      JoinCons(xs[0], xs[1..] + [x], sep);
      assert xs == [xs[0]] + xs[1..];
      JoinCons(xs[0], xs[1..], sep);
    }
  }

  /** The accumulator of a loop that appends each part and a newline. */
  function Lines(parts: seq<string>): string
  {
    if |parts| == 0 then "" else parts[0] + "\n" + Lines(parts[1..])
  }

  lemma {:induction false} LinesJoin(parts: seq<string>)
    requires |parts| >= 1
    ensures Lines(parts) == Join(parts, "\n") + "\n"
    decreases |parts|
  {
    if |parts| > 1 {
      LinesJoin(parts[1..]);
      assert parts == [parts[0]] + parts[1..];
      JoinCons(parts[0], parts[1..], "\n");
    }
  }

  lemma {:induction false} JoinEndsWithLast(parts: seq<string>, sep: string)
    requires |parts| >= 1
    ensures EndsWith(Join(parts, sep), parts[|parts| - 1])
    decreases |parts|
  {
    if |parts| > 1 {
      JoinEndsWithLast(parts[1..], sep);
    }
  }

  /** Stripping the accumulated lines removes exactly the final newline
      when the last part does not end in white space. */
  lemma StripLines(parts: seq<string>)
    requires |parts| >= 1
    requires var last := parts[|parts| - 1]; |last| > 0 && !IsSpace(last[|last| - 1])
    ensures RStrip(Lines(parts)) == Join(parts, "\n")
  {
    var body := Join(parts, "\n");
    var last := parts[|parts| - 1];
    LinesJoin(parts);
    JoinEndsWithLast(parts, "\n");
    assert body[|body| - 1] == last[|last| - 1];
    var lines := body + "\n";
    assert lines[..|lines| - 1] == body;
    assert RStrip(lines) == RStrip(body);
  }

  /** Concatenation distributes over appending the lists of pieces. */
  lemma {:induction false} ConcatAppend(a: seq<string>, b: seq<string>)
    ensures Join(a + b, "") == Join(a, "") + Join(b, "")
    decreases |a|
  {
    if |a| == 0 {
      assert a + b == b;
    } else if |b| == 0 {
      assert a + b == a;
    } else if |a| == 1 {
      assert a + b == [a[0]] + b;
      JoinCons(a[0], b, "");
    } else {
      ConcatAppend(a[1..], b);
      assert a + b == [a[0]] + (a[1..] + b);
      JoinCons(a[0], a[1..] + b, "");
      assert a == [a[0]] + a[1..];
      JoinCons(a[0], a[1..], "");
    }
  }

  /** Python's `s.split(sep)` for a one-character separator: the pieces
      between separators, always at least one (`"".split(",") == [""]`),
      none containing the separator. */
  function Split(s: string, sep: char): (pieces: seq<string>)
    ensures |pieces| >= 1
    ensures forall i :: 0 <= i < |pieces| ==> sep !in pieces[i]
    decreases |s|
  {
    if |s| == 0 then [""]
    else
      var rest := Split(s[1..], sep);
      if s[0] == sep then [""] + rest
      else [[s[0]] + rest[0]] + rest[1..]
  }

  /** Joining the pieces back with the separator gives the original string. */
  lemma {:induction false} JoinSplit(s: string, sep: char)
    ensures Join(Split(s, sep), [sep]) == s
    decreases |s|
  {
    if |s| > 0 {
      var rest := Split(s[1..], sep);
      JoinSplit(s[1..], sep);
      if s[0] == sep {
        JoinCons("", rest, [sep]);
      } else if |rest| == 1 {
        assert Split(s, sep) == [[s[0]] + rest[0]];
      } else {
        assert rest == [rest[0]] + rest[1..];
        JoinCons(rest[0], rest[1..], [sep]);
        JoinCons([s[0]] + rest[0], rest[1..], [sep]);
      }
    }
  }

  lemma {:induction false} SplitWithoutSeparator(s: string, sep: char)
    requires sep !in s
    ensures Split(s, sep) == [s]
    decreases |s|
  {
    if |s| > 0 {
      SplitWithoutSeparator(s[1..], sep);
      assert [s[0]] + s[1..] == s;
    }
  }

  lemma {:induction false} SplitAfterFirst(a: string, sep: char, b: string)
    requires sep !in a
    ensures Split(a + [sep] + b, sep) == [a] + Split(b, sep)
    decreases |a|
  {
    var s := a + [sep] + b;
    if |a| == 0 {
      assert s[1..] == b;
    } else {
      assert s[1..] == a[1..] + [sep] + b;
      SplitAfterFirst(a[1..], sep, b);
      assert [a[0]] + a[1..] == a;
    }
  }

  /** Splitting a join gives the pieces back when no piece holds the separator. */
  lemma {:induction false} SplitJoin(parts: seq<string>, sep: char)
    requires |parts| >= 1
    requires forall i :: 0 <= i < |parts| ==> sep !in parts[i]
    ensures Split(Join(parts, [sep]), sep) == parts
    decreases |parts|
  {
    if |parts| == 1 {
      SplitWithoutSeparator(parts[0], sep);
    } else {
      SplitJoin(parts[1..], sep);
      SplitAfterFirst(parts[0], sep, Join(parts[1..], [sep]));
      assert [parts[0]] + parts[1..] == parts;
    }
  }

  // ---------------------------------------------------------------------
  // Escaping one character
  // ---------------------------------------------------------------------

  /** Python's `s.replace(c, e + c)`: every occurrence of `c` gets the escape
      character `e` in front of it. Role names use `c = '`, `e = \`;
      string literals double the quote, `c = e = '`. */
  function Escape(s: string, c: char, e: char): (r: string)
    ensures |r| >= |s|
    ensures |s| > 0 ==> r[0] == (if s[0] == c then e else s[0])
    decreases |s|
  {
    if |s| == 0 then ""
    else
      var rest := Escape(s[1..], c, e);
      if s[0] == c then [e, c] + rest else [s[0]] + rest
  }

  /** Escaping adds exactly one character per occurrence of `c`. */
  lemma {:induction false} EscapeLength(s: string, c: char, e: char)
    ensures |Escape(s, c, e)| == |s| + multiset(s)[c]
    decreases |s|
  {
    if |s| > 0 {
      EscapeLength(s[1..], c, e);
      assert s == [s[0]] + s[1..];
    }
  }

  /** Text without the escaped character is left as it is. */
  lemma {:induction false} EscapeAbsent(s: string, c: char, e: char)
    requires c !in s
    ensures Escape(s, c, e) == s
    decreases |s|
  {
    if |s| > 0 {
      EscapeAbsent(s[1..], c, e);
      assert [s[0]] + s[1..] == s;
    }
  }

  /** With a distinct escape character, every occurrence of `c` in the
      escaped text is preceded by `e`. */
  lemma {:induction false} EscapeGuardsEveryOccurrence(s: string, c: char, e: char, i: nat)
    requires e != c
    requires i < |Escape(s, c, e)| && Escape(s, c, e)[i] == c
    ensures 0 < i && Escape(s, c, e)[i - 1] == e
    decreases |s|
  {
    var rest := Escape(s[1..], c, e);
    if s[0] == c {
      if i >= 2 {
        EscapeGuardsEveryOccurrence(s[1..], c, e, i - 2);
      }
    } else {
      assert i > 0;
      EscapeGuardsEveryOccurrence(s[1..], c, e, i - 1);
    }
  }

  /** Reads an escaped string back: `e` followed by `c` stands for `c`. */
  function Unescape(t: string, c: char, e: char): string
    decreases |t|
  {
    if |t| == 0 then ""
    else if |t| >= 2 && t[0] == e && t[1] == c then [c] + Unescape(t[2..], c, e)
    else [t[0]] + Unescape(t[1..], c, e)
  }

  /** Escaping loses nothing: two different names never escape alike. */
  lemma {:induction false} UnescapeEscape(s: string, c: char, e: char)
    ensures Unescape(Escape(s, c, e), c, e) == s
    decreases |s|
  {
    if |s| > 0 {
      var rest := Escape(s[1..], c, e);
      UnescapeEscape(s[1..], c, e);
      assert s == [s[0]] + s[1..];
      if s[0] == c {
        assert Escape(s, c, e) == [e, c] + rest;
        UnescapeGuarded(rest, c, e);
      } else {
        assert Escape(s, c, e) == [s[0]] + rest;
        if s[0] == e {
          EscapeNeverStartsBare(s[1..], c, e);
        }
        UnescapePlain(s[0], rest, c, e);
      }
    }
  }

  /** With a distinct escape character, escaped text never starts with a
      bare `c`. */
  lemma EscapeNeverStartsBare(s: string, c: char, e: char)
    requires e != c
    ensures |Escape(s, c, e)| == 0 || Escape(s, c, e)[0] != c
  {
  }

  /** An escaped occurrence reads back as the bare character. */
  lemma UnescapeGuarded(rest: string, c: char, e: char)
    ensures Unescape([e, c] + rest, c, e) == [c] + Unescape(rest, c, e)
  {
    assert ([e, c] + rest)[2..] == rest;
  }

  /** Any other character reads back as itself. */
  lemma UnescapePlain(x: char, rest: string, c: char, e: char)
    requires !(x == e && |rest| > 0 && rest[0] == c)
    ensures Unescape([x] + rest, c, e) == [x] + Unescape(rest, c, e)
  {
    assert ([x] + rest)[1..] == rest;
  }

  /** SQL string literal: single quotes around the value, embedded quotes
      doubled. It reads back as the value, and it is the value plus the two
      enclosing quotes plus one more quote per quote in the value, so every
      embedded quote is doubled. */
  function QuoteLiteral(v: string): (lit: string)
    ensures UnquoteLiteral(lit) == Some(v)
    ensures |lit| == |v| + multiset(v)['\''] + 2
  {
    var lit := "'" + Escape(v, '\'', '\'') + "'";
    assert lit[1..|lit| - 1] == Escape(v, '\'', '\'');
    UnescapeEscape(v, '\'', '\'');
    EscapeLength(v, '\'', '\'');
    lit
  }

  function UnquoteLiteral(lit: string): Option<string>
  {
    if |lit| >= 2 && lit[0] == '\'' && lit[|lit| - 1] == '\'' then
      Some(Unescape(lit[1..|lit| - 1], '\'', '\''))
    else None
  }

  // ---------------------------------------------------------------------
  // Trailing white space
  // ---------------------------------------------------------------------

  /** The characters Python's `str.isspace` accepts. */
  predicate IsSpace(ch: char)
  {
    || ch == ' ' || ch == '\t' || ch == '\n' || ch == '\r'
    || ch == '\U{B}' || ch == '\U{C}' || '\U{1C}' <= ch <= '\U{1F}'
    || ch == '\U{85}' || ch == '\U{A0}' || ch == '\U{1680}'
    || '\U{2000}' <= ch <= '\U{200A}' || ch == '\U{2028}' || ch == '\U{2029}'
    || ch == '\U{202F}' || ch == '\U{205F}' || ch == '\U{3000}'
  }

  /** Python's `s.rstrip()`: the longest prefix not ending in white space
      after which only white space follows. */
  function RStrip(s: string): (r: string)
    ensures |r| <= |s| && r == s[..|r|]
    ensures |r| == 0 || !IsSpace(r[|r| - 1])
    ensures forall i :: |r| <= i < |s| ==> IsSpace(s[i])
    decreases |s|
  {
    if |s| > 0 && IsSpace(s[|s| - 1]) then RStrip(s[..|s| - 1]) else s
  }

  // ---------------------------------------------------------------------
  // Decimal numbers
  // ---------------------------------------------------------------------

  predicate IsDigit(ch: char)
  {
    '0' <= ch <= '9'
  }

  function DigitChar(d: nat): (ch: char)
    requires d < 10
    ensures IsDigit(ch) && DigitValue(ch) == d
  {
    (('0' as int) + d) as char
  }

  function DigitValue(ch: char): int
  {
    (ch as int) - ('0' as int)
  }

  /** The value of a string of digits read most significant first. */
  function DecimalValue(s: string): int
    decreases |s|
  {
    if |s| == 0 then 0 else 10 * DecimalValue(s[..|s| - 1]) + DigitValue(s[|s| - 1])
  }

  /** `"%d" % n` for a natural number: digits only, no leading zero. */
  function NatToString(n: nat): (s: string)
    ensures |s| > 0
    ensures forall i :: 0 <= i < |s| ==> IsDigit(s[i])
    ensures |s| > 1 ==> s[0] != '0'
    decreases n
  {
    if n < 10 then [DigitChar(n)] else NatToString(n / 10) + [DigitChar(n % 10)]
  }

  lemma {:induction false} NatToStringValue(n: nat)
    ensures DecimalValue(NatToString(n)) == n
    decreases n
  {
    if n >= 10 {
      NatToStringValue(n / 10);
      var s := NatToString(n);
      assert s[..|s| - 1] == NatToString(n / 10);
    }
  }

  /** Python's `str(n)` for an integer: a minus sign in front of negatives. */
  function IntToString(n: int): (s: string)
    ensures ' ' !in s && '\'' !in s
  {
    if n < 0 then "-" + NatToString(-n) else NatToString(n)
  }

  /** Reads an optionally signed decimal integer as `str` writes it; `None`
      when malformed, including a leading zero and `-0`. */
  function ParseInt(s: string): Option<int>
  {
    if |s| > 0 && s[0] == '-' then
      match ParseNat(s[1..])
      case Some(n) => if n > 0 then Some(-n) else None
      case None => None
    else ParseNat(s)
  }

  /** Reads a decimal natural number as `%d` writes it: digits only, and no
      leading zero unless the number is zero. */
  predicate Canonical(s: string)
  {
    && |s| > 0
    && (forall i :: 0 <= i < |s| ==> IsDigit(s[i]))
    && (|s| > 1 ==> s[0] != '0')
  }

  function ParseNat(s: string): Option<int>
  {
    if Canonical(s) then Some(DecimalValue(s)) else None
  }

  lemma {:induction false} CanonicalPositive(s: string)
    requires Canonical(s) && s[0] != '0'
    ensures DecimalValue(s) >= 1
    decreases |s|
  {
    if |s| > 1 {
      CanonicalPositive(s[..|s| - 1]);
    }
  }

  /** Canonical digits are the text `%d` writes for their value. */
  lemma {:induction false} NatToStringCanonical(s: string)
    requires Canonical(s)
    ensures DecimalValue(s) >= 0 && NatToString(DecimalValue(s)) == s
    decreases |s|
  {
    if |s| > 1 {
      var init := s[..|s| - 1];
      assert Canonical(init);
      NatToStringCanonical(init);
      CanonicalPositive(init);
      var n := DecimalValue(s);
      var d := DigitValue(s[|s| - 1]);
      assert n / 10 == DecimalValue(init) && n % 10 == d;
      assert s == init + [DigitChar(d)];
    }
  }

  /** Whatever `ParseInt` accepts is exactly the text `str` writes for the
      value it reads, so each integer has one accepted spelling. */
  lemma ParseIntCanonical(s: string, n: int)
    requires ParseInt(s) == Some(n)
    ensures IntToString(n) == s
  {
    if |s| > 0 && s[0] == '-' {
      NatToStringCanonical(s[1..]);
      assert s == "-" + s[1..];
    } else {
      NatToStringCanonical(s);
    }
  }

  /** Writing an integer and reading it back gives the integer. */
  lemma IntToStringParse(n: int)
    ensures ParseInt(IntToString(n)) == Some(n)
  {
    if n < 0 {
      NatToStringValue(-n);
      assert ("-" + NatToString(-n))[1..] == NatToString(-n);
    } else {
      NatToStringValue(n);
    }
  }

  // ---------------------------------------------------------------------
  // Prefixes and suffixes
  // ---------------------------------------------------------------------

  predicate StartsWith(s: string, prefix: string)
  {
    |prefix| <= |s| && s[..|prefix|] == prefix
  }

  predicate EndsWith(s: string, suffix: string)
  {
    |suffix| <= |s| && s[|s| - |suffix|..] == suffix
  }

  lemma PrefixOfAppend(a: string, b: string)
    ensures StartsWith(a + b, a)
  {
    assert (a + b)[..|a|] == a;
  }

  lemma SuffixOfAppend(a: string, b: string)
    ensures EndsWith(a + b, b)
  {
    assert (a + b)[|a + b| - |b|..] == b;
  }

  lemma EndsWithLastChar(s: string, suffix: string)
    requires EndsWith(s, suffix) && |suffix| > 0
    ensures |s| > 0 && s[|s| - 1] == suffix[|suffix| - 1]
  {
    assert s[|s| - |suffix|..][|suffix| - 1] == s[|s| - 1];
  }

  lemma SuffixTransitive(s: string, t: string, u: string)
    requires EndsWith(s, t) && EndsWith(t, u)
    ensures EndsWith(s, u)
  {
    assert s[|s| - |u|..] == s[|s| - |t|..][|t| - |u|..];
  }

  /** A prefix of the middle part extends the first part to a prefix of the whole. */
  lemma PrefixInside(a: string, b: string, c: string, p: string)
    requires StartsWith(b, p)
    ensures StartsWith(a + b + c, a + p)
  {
    assert (a + b + c)[..|a + p|] == a + p;
  }

  lemma PrefixTransitive(s: string, t: string, u: string)
    requires StartsWith(s, t) && StartsWith(t, u)
    ensures StartsWith(s, u)
  {
    assert s[..|u|] == s[..|t|][..|u|];
  }
}
