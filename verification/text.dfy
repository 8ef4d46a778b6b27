/** The parts of Python's `str` behaviour the program relies on, over
    `string` (a sequence of `char`): substring tests, `replace`,
    `split(sep)` and `join`, `removesuffix`, `readlines`, and the decimal
    and two-digit hexadecimal formats it prints. */
module Text {

  /** `c` does not occur in `s`. */
  predicate NoChar(s: string, c: char) {
    forall i :: 0 <= i < |s| ==> s[i] != c
  }

  /** Python's `sub in s`, scanning from the left. */
  predicate Contains(s: string, sub: string)
    decreases |s|
  {
    if |sub| > |s| then false
    else if s[..|sub|] == sub then true
    else Contains(s[1..], sub)
  }

  /** `sub` occurs in `s` starting at position `i`. */
  predicate OccursAt(s: string, sub: string, i: int) {
    0 <= i && i + |sub| <= |s| && s[i..i + |sub|] == sub
  }

  /** `Contains` agrees with the positional definition of a substring. */
  lemma {:induction false} ContainsIff(s: string, sub: string)
    ensures Contains(s, sub) <==> exists i :: OccursAt(s, sub, i)
    decreases |s|
  {
    if |sub| > |s| {
    } else if s[..|sub|] == sub {
      assert OccursAt(s, sub, 0);
    } else {
      ContainsIff(s[1..], sub);
      if Contains(s[1..], sub) {
        var i :| OccursAt(s[1..], sub, i);
        assert s[i + 1..i + 1 + |sub|] == s[1..][i..i + |sub|];
        assert OccursAt(s, sub, i + 1);
      } else {
        forall i | OccursAt(s, sub, i)
          ensures false
        {
          if i > 0 {
            var t := s[1..];
            assert t[i - 1..i - 1 + |sub|] == s[i..i + |sub|];
            assert OccursAt(t, sub, i - 1);
          }
        }
      }
    }
  }

  /** A prefix free of `sub`'s first character cannot hold or start an occurrence of `sub`. */
  lemma {:induction false} ContainsSkip(a: string, b: string, sub: string)
    requires |sub| > 0 && NoChar(a, sub[0])
    ensures Contains(a + b, sub) == Contains(b, sub)
    decreases |a|
  {
    if |a| > 0 {
      assert (a + b)[1..] == a[1..] + b;
      if |sub| <= |a + b| {
        var head := (a + b)[..|sub|];
        assert head[0] == (a + b)[0] == a[0] != sub[0];
        assert head != sub;
      }
      ContainsSkip(a[1..], b, sub);
    } else {
      assert a + b == b;
    }
  }

  /** An occurrence inside `m` is an occurrence inside `a + m + b`. */
  lemma ContainsInside(a: string, m: string, b: string, sub: string)
    requires Contains(m, sub)
    ensures Contains(a + m + b, sub)
  {
    ContainsIff(m, sub);
    var i :| OccursAt(m, sub, i);
    var s := a + m + b;
    assert s[|a| + i..|a| + i + |sub|] == m[i..i + |sub|];
    assert OccursAt(s, sub, |a| + i);
    ContainsIff(s, sub);
  }

  /** When `b` starts with a character that only the first character of
      `sub` could match, no occurrence of `sub` straddles `a` and `b`: the
      occurrences in `a + b` are those in `a` and those in `b`. */
  lemma ContainsSplit(a: string, b: string, sub: string)
    requires |sub| > 0 && |b| > 0 && NoChar(sub[1..], b[0])
    ensures Contains(a + b, sub) <==> Contains(a, sub) || Contains(b, sub)
  {
    var s := a + b;
    forall i | 0 <= i < |a| < i + |sub|
      ensures !OccursAt(s, sub, i)
    {
      if i + |sub| <= |s| {
        var j := |a| - i;
        assert s[i..i + |sub|][j] == b[0];
        assert sub[1..][j - 1] == sub[j];
      }
    }
    ContainsIff(s, sub);
    ContainsIff(a, sub);
    ContainsIff(b, sub);
    if Contains(s, sub) {
      var i :| OccursAt(s, sub, i);
      if i >= |a| {
        assert b[i - |a|..i - |a| + |sub|] == s[i..i + |sub|];
        assert OccursAt(b, sub, i - |a|);
      } else {
        assert a[i..i + |sub|] == s[i..i + |sub|];
        assert OccursAt(a, sub, i);
      }
    }
    if Contains(a, sub) {
      var i :| OccursAt(a, sub, i);
      assert s[i..i + |sub|] == a[i..i + |sub|];
      assert OccursAt(s, sub, i);
    }
    if Contains(b, sub) {
      var i :| OccursAt(b, sub, i);
      assert s[|a| + i..|a| + i + |sub|] == b[i..i + |sub|];
      assert OccursAt(s, sub, |a| + i);
    }
  }

  /** Python's `s.replace(pat, rep)`: every non-overlapping occurrence of
      `pat`, found left to right, is replaced by `rep`. */
  function Replace(s: string, pat: string, rep: string): string
    requires |pat| > 0
    decreases |s|
  {
    if |s| < |pat| then s
    else if s[..|pat|] == pat then rep + Replace(s[|pat|..], pat, rep)
    else [s[0]] + Replace(s[1..], pat, rep)
  }

  /** Replacing passes over a prefix free of the pattern's first character unchanged. */
  lemma {:induction false} ReplaceSkip(a: string, b: string, pat: string, rep: string)
    requires |pat| > 0 && NoChar(a, pat[0])
    ensures Replace(a + b, pat, rep) == a + Replace(b, pat, rep)
    decreases |a|
  {
    if |a| == 0 {
      assert a + b == b;
    } else if |a + b| < |pat| {
      assert Replace(b, pat, rep) == b;
    } else {
      var s := a + b;
      assert s[..|pat|][0] == a[0];
      assert s[..|pat|] != pat;
      assert s[1..] == a[1..] + b;
      ReplaceSkip(a[1..], b, pat, rep);
      calc {
        Replace(s, pat, rep);
        [a[0]] + Replace(a[1..] + b, pat, rep);
        [a[0]] + (a[1..] + Replace(b, pat, rep));
        { assert [a[0]] + a[1..] == a; }
        a + Replace(b, pat, rep);
      }
    }
  }

  /** Replacing passes over a prefix that holds no occurrence of the
      pattern, when no occurrence can straddle the prefix and the rest. */
  lemma {:induction false} ReplaceSplit(a: string, b: string, pat: string, rep: string)
    requires |pat| > 0 && |b| > 0 && NoChar(pat[1..], b[0]) && !Contains(a, pat)
    ensures Replace(a + b, pat, rep) == a + Replace(b, pat, rep)
    decreases |a|
  {
    if |a| == 0 {
      assert a + b == b;
    } else {
      var s := a + b;
      if |s| >= |pat| {
        assert s[..|pat|] != pat by {
          if |pat| <= |a| {
            assert s[..|pat|] == a[..|pat|];
          } else {
            assert s[..|pat|][|a|] == b[0];
            assert pat[1..][|a| - 1] == pat[|a|];
          }
        }
        assert !Contains(a[1..], pat);
        assert s[1..] == a[1..] + b;
        ReplaceSplit(a[1..], b, pat, rep);
        assert [a[0]] + a[1..] == a;
      }
    }
  }

  /** A string without the pattern's first character is left as it is. */
  lemma ReplaceIdentity(s: string, pat: string, rep: string)
    requires |pat| > 0 && NoChar(s, pat[0])
    ensures Replace(s, pat, rep) == s
  {
    ReplaceSkip(s, [], pat, rep);
    assert s + [] == s;
  }

  /** Python's `s.removesuffix(suf)`. */
  function RemoveSuffix(s: string, suf: string): (r: string)
    ensures |suf| <= |s| && s[|s| - |suf|..] == suf ==> r + suf == s
    ensures !(|suf| <= |s| && s[|s| - |suf|..] == suf) ==> r == s
  {
    if |suf| <= |s| && s[|s| - |suf|..] == suf then s[..|s| - |suf|] else s
  }

  /** Python's `s.split(sep)` for a one-character separator: adjacent
      separators give empty parts, and the result is never empty. */
  function Split(s: string, sep: char): (parts: seq<string>)
    ensures |parts| >= 1
    ensures |parts| == 1 <==> NoChar(s, sep)
    ensures forall k :: 0 <= k < |parts| ==> NoChar(parts[k], sep)
    decreases |s|
  {
    if |s| == 0 then [""]
    else
      var rest := Split(s[1..], sep);
      if s[0] == sep then [""] + rest
      else [[s[0]] + rest[0]] + rest[1..]
  }

  /** Python's `sep.join(parts)`. */
  function Join(parts: seq<string>, sep: char): string
    decreases |parts|
  {
    if |parts| == 0 then ""
    else if |parts| == 1 then parts[0]
    else parts[0] + [sep] + Join(parts[1..], sep)
  }

  /** Joining the parts of a split gives back the original string. */
  lemma {:induction false} JoinSplit(s: string, sep: char)
    ensures Join(Split(s, sep), sep) == s
    decreases |s|
  {
    if |s| > 0 {
      var rest := Split(s[1..], sep);
      JoinSplit(s[1..], sep);
      if s[0] == sep {
        assert Split(s, sep) == [""] + rest;
        assert ([""] + rest)[1..] == rest;
        assert s == [sep] + s[1..];
      } else if |rest| == 1 {
        assert s == [s[0]] + s[1..];
      } else {
        var parts := Split(s, sep);
        assert parts[1..] == rest[1..];
        assert Join(rest, sep) == rest[0] + [sep] + Join(rest[1..], sep);
        assert s == [s[0]] + s[1..];
      }
    }
  }

  /** Splitting a join of separator-free parts gives back the parts. */
  lemma {:induction false} SplitJoin(parts: seq<string>, sep: char)
    requires |parts| >= 1
    requires forall k :: 0 <= k < |parts| ==> NoChar(parts[k], sep)
    ensures Split(Join(parts, sep), sep) == parts
    decreases |parts|
  {
    if |parts| == 1 {
      SplitNoSep(parts[0], sep);
    } else {
      SplitJoin(parts[1..], sep);
      SplitPrefix(parts[0], Join(parts[1..], sep), sep);
      assert [parts[0]] + parts[1..] == parts;
    }
  }

  /** A string without the separator splits into itself. */
  lemma SplitNoSep(s: string, sep: char)
    requires NoChar(s, sep)
    ensures Split(s, sep) == [s]
  {
    var parts := Split(s, sep);
    assert |parts| == 1;
    JoinSplit(s, sep);
  }

  /** Splitting `a + sep + b` with `a` free of the separator yields `a` first. */
  lemma {:induction false} SplitPrefix(a: string, b: string, sep: char)
    requires NoChar(a, sep)
    ensures Split(a + [sep] + b, sep) == [a] + Split(b, sep)
    decreases |a|
  {
    if |a| == 0 {
      assert a + [sep] + b == [sep] + b;
      assert ([sep] + b)[1..] == b;
    } else {
      var s := a + [sep] + b;
      assert s[1..] == a[1..] + [sep] + b;
      SplitPrefix(a[1..], b, sep);
      assert [a[0]] + a[1..] == a;
    }
  }

  /** Python's `file.readlines()` over the file's text: each line keeps
      its terminating newline; a final line without one is kept as is. */
  function ReadLines(s: string): (lines: seq<string>)
    decreases |s|
  {
    if |s| == 0 then []
    else
      var rest := ReadLines(s[1..]);
      if s[0] == '\n' then [['\n']] + rest
      else if |rest| == 0 then [[s[0]]]
      else [[s[0]] + rest[0]] + rest[1..]
  }

  /** The concatenation of a sequence of lines: the text a file holds. */
  function Concat(lines: seq<string>): string
    decreases |lines|
  {
    if |lines| == 0 then "" else lines[0] + Concat(lines[1..])
  }

  /** What `readlines` can return: non-empty lines, newlines only at line
      ends, and every line but the last terminated by one. */
  predicate WellFormedLines(lines: seq<string>) {
    && (forall k :: 0 <= k < |lines| ==> |lines[k]| > 0 && NoChar(lines[k][..|lines[k]| - 1], '\n'))
    && (forall k :: 0 <= k < |lines| - 1 ==> lines[k][|lines[k]| - 1] == '\n')
  }

  /** A newline-free body followed by a newline is read as one line. */
  lemma {:induction false} ReadLinesFirst(body: string, rest: string)
    requires NoChar(body, '\n')
    ensures ReadLines(body + ['\n'] + rest) == [body + ['\n']] + ReadLines(rest)
    decreases |body|
  {
    var s := body + ['\n'] + rest;
    if |body| == 0 {
      assert s == ['\n'] + rest;
      assert s[1..] == rest;
    } else {
      assert s[1..] == body[1..] + ['\n'] + rest;
      ReadLinesFirst(body[1..], rest);
      assert [body[0]] + (body[1..] + ['\n']) == body + ['\n'];
    }
  }

  /** A non-empty, newline-free final line is read as one line. */
  lemma {:induction false} ReadLinesLast(body: string)
    requires |body| > 0 && NoChar(body, '\n')
    ensures ReadLines(body) == [body]
    decreases |body|
  {
    if |body| > 1 {
      ReadLinesLast(body[1..]);
      assert [body[0]] + body[1..] == body;
    } else {
      assert body[1..] == [];
      assert body == [body[0]];
    }
  }

  /** Reading back the text of well-formed lines gives the same lines. */
  lemma {:induction false} ReadLinesConcat(lines: seq<string>)
    requires WellFormedLines(lines)
    ensures ReadLines(Concat(lines)) == lines
    decreases |lines|
  {
    if |lines| == 0 {
    } else {
      var l := lines[0];
      var body := l[..|l| - 1];
      assert WellFormedLines(lines[1..]) by {
        forall k | 0 <= k < |lines[1..]|
          ensures |lines[1..][k]| > 0 && NoChar(lines[1..][k][..|lines[1..][k]| - 1], '\n')
        {
          assert lines[1..][k] == lines[k + 1];
        }
        forall k | 0 <= k < |lines[1..]| - 1
          ensures lines[1..][k][|lines[1..][k]| - 1] == '\n'
        {
          assert lines[1..][k] == lines[k + 1];
        }
      }
      ReadLinesConcat(lines[1..]);
      if |lines| > 1 || l[|l| - 1] == '\n' {
        assert l[|l| - 1] == '\n';
        assert l == body + ['\n'];
        ReadLinesFirst(body, Concat(lines[1..]));
        assert Concat(lines) == body + ['\n'] + Concat(lines[1..]);
      } else {
        assert lines[1..] == [];
        assert NoChar(l, '\n') by {
          forall i | 0 <= i < |l| ensures l[i] != '\n' {
            if i < |l| - 1 { assert l[i] == body[i]; }
          }
        }
        ReadLinesLast(l);
        assert Concat(lines[1..]) == "";
        assert Concat(lines) == l;
        assert lines == [l];
      }
    }
  }

  // ---- Numbers as text ----

  predicate IsDigit(c: char) {
    '0' <= c <= '9'
  }

  predicate AllDigits(s: string) {
    forall i :: 0 <= i < |s| ==> IsDigit(s[i])
  }

  function DigitChar(d: nat): (c: char)
    requires d < 10
    ensures IsDigit(c)
  {
    ('0' as int + d) as char
  }

  function DigitValue(c: char): (d: nat)
    requires IsDigit(c)
    ensures d < 10
  {
    (c as int - '0' as int) as nat
  }

  lemma DigitRoundTrip(d: nat)
    requires d < 10
    ensures DigitValue(DigitChar(d)) == d
  {
  }

  /** Python's `str(n)` for a non-negative integer: no leading zeros. */
  function NatToDecimal(n: nat): (s: string)
    ensures |s| >= 1 && AllDigits(s)
    ensures |s| > 1 ==> s[0] != '0'
    decreases n
  {
    if n < 10 then [DigitChar(n)] else NatToDecimal(n / 10) + [DigitChar(n % 10)]
  }

  /** The value of a string of decimal digits (most significant first). */
  function DecimalValue(s: string): nat
    requires AllDigits(s)
    decreases |s|
  {
    if |s| == 0 then 0 else DecimalValue(s[..|s| - 1]) * 10 + DigitValue(s[|s| - 1])
  }

  /** Formatting then reading a natural number gives it back. */
  lemma {:induction false} DecimalRoundTrip(n: nat)
    ensures DecimalValue(NatToDecimal(n)) == n
    decreases n
  {
    var s := NatToDecimal(n);
    if n < 10 {
      assert s[..0] == "";
    } else {
      DecimalRoundTrip(n / 10);
      assert s[..|s| - 1] == NatToDecimal(n / 10);
    }
  }

  /** Leading zeros do not change a decimal value. */
  lemma {:induction false} LeadingZero(s: string)
    requires AllDigits(s)
    ensures AllDigits("0" + s) && DecimalValue("0" + s) == DecimalValue(s)
    decreases |s|
  {
    var z := "0" + s;
    if |s| > 0 {
      assert z[..|z| - 1] == "0" + s[..|s| - 1];
      LeadingZero(s[..|s| - 1]);
    } else {
      assert z[..0] == "";
    }
  }

  /** Python's `f"{n:02d}"` for a non-negative integer. */
  function ZeroPad2(n: nat): (s: string)
    ensures |s| >= 2 && AllDigits(s) && DecimalValue(s) == n
    ensures n < 100 ==> |s| == 2
  {
    DecimalRoundTrip(n);
    if n < 10 then
      LeadingZero(NatToDecimal(n));
      "0" + NatToDecimal(n)
    else
      NatToDecimal(n)
  }

  /** A lower-case hexadecimal digit, as Python's `x` format prints it. */
  function HexChar(d: nat): char
    requires d < 16
  {
    if d < 10 then ('0' as int + d) as char else ('a' as int + d - 10) as char
  }

  predicate IsHexChar(c: char) {
    '0' <= c <= '9' || 'a' <= c <= 'f'
  }

  function HexValue(c: char): (d: nat)
    requires IsHexChar(c)
    ensures d < 16
  {
    if '0' <= c <= '9' then (c as int - '0' as int) as nat else (c as int - 'a' as int + 10) as nat
  }

  /** Python's `f"{n:02x}"` for `0 <= n <= 255`: exactly two lower-case digits. */
  function Hex2(n: nat): (s: string)
    requires n < 256
    ensures |s| == 2 && IsHexChar(s[0]) && IsHexChar(s[1])
    ensures HexValue(s[0]) * 16 + HexValue(s[1]) == n
  {
    [HexChar(n / 16), HexChar(n % 16)]
  }

  /** Hex digits and their values correspond one to one. */
  lemma HexDigitRoundTrip(d: nat, c: char)
    ensures d < 16 ==> IsHexChar(HexChar(d)) && HexValue(HexChar(d)) == d
    ensures IsHexChar(c) ==> HexChar(HexValue(c)) == c
  {
  }

  /** Two lower-case hex digits are the `02x` form of their value. */
  lemma Hex2Parse(s: string)
    requires |s| == 2 && IsHexChar(s[0]) && IsHexChar(s[1])
    ensures HexValue(s[0]) * 16 + HexValue(s[1]) < 256
    ensures Hex2(HexValue(s[0]) * 16 + HexValue(s[1])) == s
  {
    var n := HexValue(s[0]) * 16 + HexValue(s[1]);
    assert n / 16 == HexValue(s[0]) && n % 16 == HexValue(s[1]);
    HexDigitRoundTrip(0, s[0]);
    HexDigitRoundTrip(0, s[1]);
  }
}
