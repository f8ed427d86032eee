/** String operations the chat endpoint relies on, each with the property
    that pins it down: `str.join` and its inverse `str.split`, `+=`
    accumulation, `os.path.split`'s tail, the `in` substring test and
    `str()` of an integer. */
module Text {

  /** `sep.join(parts)`. */
  function Join(parts: seq<string>, sep: string): (r: string)
    ensures |parts| == 1 ==> r == parts[0]
  {
    if |parts| == 0 then ""
    else if |parts| == 1 then parts[0]
    else parts[0] + sep + Join(parts[1..], sep)
  }

  /** `s.split(sep)` for a one-character separator: always at least one part. */
  function Split(s: string, sep: char): (parts: seq<string>)
    ensures |parts| >= 1
  {
    if |s| == 0 then [""]
    else
      var rest := Split(s[1..], sep);
      if s[0] == sep then [""] + rest
      else [[s[0]] + rest[0]] + rest[1..]
  }

  lemma {:induction false} SplitNoSep(p: string, sep: char)
    requires sep !in p
    ensures Split(p, sep) == [p]
  {
    if |p| > 0 {
      SplitNoSep(p[1..], sep);
      assert [p[0]] + p[1..] == p;
    }
  }

  lemma {:induction false} SplitAtFirstSep(p: string, sep: char, t: string)
    requires sep !in p
    ensures Split(p + [sep] + t, sep) == [p] + Split(t, sep)
  {
    if |p| == 0 {
      assert p + [sep] + t == [sep] + t;
      assert ([sep] + t)[1..] == t;
    } else {
      SplitAtFirstSep(p[1..], sep, t);
      assert (p + [sep] + t)[1..] == p[1..] + [sep] + t;
      assert [p[0]] + p[1..] == p;
    }
  }

  /** Splitting a join on the same separator gives the parts back, provided
      no part contains the separator. */
  lemma {:induction false} SplitJoin(parts: seq<string>, sep: char)
    requires |parts| >= 1
    requires forall i :: 0 <= i < |parts| ==> sep !in parts[i]
    ensures Split(Join(parts, [sep]), sep) == parts
  {
    if |parts| == 1 {
      SplitNoSep(parts[0], sep);
    } else {
      SplitJoin(parts[1..], sep);
      SplitAtFirstSep(parts[0], sep, Join(parts[1..], [sep]));
      assert [parts[0]] + parts[1..] == parts;
    }
  }

  /** The length of a join: all parts plus one separator between each pair. */
  lemma {:induction false} JoinLength(parts: seq<string>, sep: string)
    requires |parts| >= 1
    ensures |Join(parts, sep)| == TotalLength(parts) + (|parts| - 1) * |sep|
  {
    if |parts| > 1 {
      JoinLength(parts[1..], sep);
      TotalLengthCons(parts);
    }
  }

  /** Where part `i` starts in `Join(parts, sep)`: after the parts before
      it and one separator for each of them. */
  function JoinOffset(parts: seq<string>, sep: string, i: nat): nat
    requires i <= |parts|
  {
    TotalLength(parts[..i]) + i * |sep|
  }

  /** Every part sits in the join at its offset, and every part but the
      last is followed by the separator. */
  lemma {:induction false} JoinAt(parts: seq<string>, sep: string, i: nat)
    requires i < |parts|
    ensures var r, off := Join(parts, sep), JoinOffset(parts, sep, i);
      && off + |parts[i]| <= |r|
      && r[off..off + |parts[i]|] == parts[i]
      && (i < |parts| - 1 ==>
            off + |parts[i]| + |sep| <= |r| && r[off + |parts[i]|..off + |parts[i]| + |sep|] == sep)
  {
    if i == 0 {
      JoinAtFirst(parts, sep);
    } else {
      var head, rest := parts[0] + sep, Join(parts[1..], sep);
      JoinAt(parts[1..], sep, i - 1);
      assert Join(parts, sep) == head + rest;
      assert parts[1..][i - 1] == parts[i];
      JoinOffsetStep(parts, sep, i);
      ShiftPlacement(head, rest, JoinOffset(parts[1..], sep, i - 1), parts[i], sep, i < |parts| - 1);
    }
  }

  /** The first part opens the join, followed by the separator when more
      parts come. */
  lemma JoinAtFirst(parts: seq<string>, sep: string)
    requires |parts| >= 1
    ensures var r := Join(parts, sep);
      && |parts[0]| <= |r| && r[..|parts[0]|] == parts[0]
      && (|parts| > 1 ==> |parts[0]| + |sep| <= |r| && r[|parts[0]|..|parts[0]| + |sep|] == sep)
  {
    if |parts| > 1 {
      var r := Join(parts, sep);
      assert r == parts[0] + sep + Join(parts[1..], sep);
      assert r[..|parts[0]|] == parts[0];
      assert r[|parts[0]|..|parts[0]| + |sep|] == sep;
    }
  }

  /** The offset of part `i` is the first part and a separator more than
      its offset among the other parts. */
  lemma JoinOffsetStep(parts: seq<string>, sep: string, i: nat)
    requires 0 < i < |parts|
    ensures JoinOffset(parts, sep, i) == |parts[0] + sep| + JoinOffset(parts[1..], sep, i - 1)
  {
    var front := parts[..i];
    TotalLengthCons(front);
    assert front[0] == parts[0];
    assert front[1..] == parts[1..][..i - 1];
  }

  /** A part placed in `rest` at `off`, and the separator after it when
      `more` holds, are placed `|head|` further on in `head + rest`. */
  lemma ShiftPlacement(head: string, rest: string, off: nat, part: string, sep: string, more: bool)
    requires off + |part| <= |rest| && rest[off..off + |part|] == part
    requires more ==> off + |part| + |sep| <= |rest| && rest[off + |part|..off + |part| + |sep|] == sep
    ensures var r, o := head + rest, |head| + off;
      && o + |part| <= |r| && r[o..o + |part|] == part
      && (more ==> o + |part| + |sep| <= |r| && r[o + |part|..o + |part| + |sep|] == sep)
  {
    assert (head + rest)[|head|..] == rest;
  }

  /** Sum of the lengths of a sequence of strings. */
  function TotalLength(parts: seq<string>): nat
  {
    if |parts| == 0 then 0 else TotalLength(parts[..|parts| - 1]) + |parts[|parts| - 1]|
  }

  lemma {:induction false} TotalLengthCons(parts: seq<string>)
    requires |parts| >= 1
    ensures TotalLength(parts) == |parts[0]| + TotalLength(parts[1..])
  {
    if |parts| > 1 {
      TotalLengthCons(parts[..|parts| - 1]);
      assert parts[..|parts| - 1][1..] == parts[1..][..|parts| - 2];
    }
  }

  /** The result of `answer += token` over every token, starting from "". */
  function Concat(tokens: seq<string>): string
  {
    if |tokens| == 0 then "" else Concat(tokens[..|tokens| - 1]) + tokens[|tokens| - 1]
  }

  lemma {:induction false} ConcatAppend(a: seq<string>, b: seq<string>)
    ensures Concat(a + b) == Concat(a) + Concat(b)
  {
    if |b| > 0 {
      ConcatAppend(a, b[..|b| - 1]);
      assert (a + b)[..|a + b| - 1] == a + b[..|b| - 1];
    } else {
      assert a + b == a;
    }
  }

  lemma {:induction false} ConcatLength(tokens: seq<string>)
    ensures |Concat(tokens)| == TotalLength(tokens)
  {
    if |tokens| > 0 {
      ConcatLength(tokens[..|tokens| - 1]);
    }
  }

  /** Iterating a Python string: one one-character string per character. */
  function Chars(s: string): (r: seq<string>)
    ensures |r| == |s|
    ensures forall i :: 0 <= i < |s| ==> r[i] == [s[i]]
  {
    seq(|s|, i requires 0 <= i < |s| => [s[i]])
  }

  /** Concatenating the characters of a string one by one rebuilds it. */
  lemma {:induction false} ConcatChars(s: string)
    ensures Concat(Chars(s)) == s
  {
    if |s| > 0 {
      var n := |s| - 1;
      assert Chars(s)[..n] == Chars(s[..n]);
      ConcatChars(s[..n]);
      assert s[..n] + [s[n]] == s;
    }
  }

  /** The tail of `os.path.split(path)`. */
  function LastSegment(path: string): string
  {
    if |path| == 0 then ""
    else if path[|path| - 1] == '/' then ""
    else LastSegment(path[..|path| - 1]) + [path[|path| - 1]]
  }

  /** The tail is what follows the last '/': a suffix of `path` with no '/'
      in it, preceded in `path` by a '/' unless it is all of `path`. */
  lemma {:induction false} LastSegmentIsTail(path: string)
    ensures var name := LastSegment(path);
      && |name| <= |path| && name == path[|path| - |name|..]
      && (forall i :: 0 <= i < |name| ==> name[i] != '/')
      && (|name| == |path| || path[|path| - |name| - 1] == '/')
  {
    if |path| > 0 && path[|path| - 1] != '/' {
      var n := |path| - 1;
      LastSegmentIsTail(path[..n]);
      var name := LastSegment(path[..n]);
      assert path[..n][n - |name|..] + [path[n]] == path[n - |name|..];
    }
  }

  /** `sub` occurs in `s` starting at index `i`. */
  predicate OccursAt(s: string, sub: string, i: int)
  {
    0 <= i <= |s| - |sub| && s[i..i + |sub|] == sub
  }

  /** `sub in s`. */
  function Contains(s: string, sub: string): (b: bool)
    ensures b <==> exists i :: OccursAt(s, sub, i)
  {
    if |sub| > |s| then false
    else if s[..|sub|] == sub then assert OccursAt(s, sub, 0); true
    else
      var b := Contains(s[1..], sub);
      assert b ==> exists i :: OccursAt(s, sub, i) by {
        if b {
          var j :| OccursAt(s[1..], sub, j);
          assert s[j + 1..j + 1 + |sub|] == s[1..][j..j + |sub|];
          assert OccursAt(s, sub, j + 1);
        }
      }
      assert (exists i :: OccursAt(s, sub, i)) ==> b by {
        if exists i :: OccursAt(s, sub, i) {
          var i :| OccursAt(s, sub, i);
          assert i != 0;
          assert s[1..][i - 1..i - 1 + |sub|] == s[i..i + |sub|];
          assert OccursAt(s[1..], sub, i - 1);
        }
      }
      b
  }

  predicate IsDigit(c: char) { '0' <= c <= '9' }

  predicate AllDigits(s: string) { forall i :: 0 <= i < |s| ==> IsDigit(s[i]) }

  function DigitChar(d: nat): (c: char)
    requires d < 10
    ensures IsDigit(c) && c as int - '0' as int == d
  {
    ('0' as int + d) as char
  }

  /** `str(n)` for a non-negative integer: decimal digits, no leading zero. */
  function NatToString(n: nat): (s: string)
    ensures |s| >= 1 && AllDigits(s)
    ensures s[0] == '0' ==> n == 0
  {
    if n < 10 then [DigitChar(n)] else NatToString(n / 10) + [DigitChar(n % 10)]
  }

  /** The value of a string of decimal digits. */
  function DigitsValue(s: string): nat
    requires AllDigits(s)
  {
    if |s| == 0 then 0
    else DigitsValue(s[..|s| - 1]) * 10 + (s[|s| - 1] as int - '0' as int)
  }

  /** Reading back the decimal text of `n` gives `n`. */
  lemma {:induction false} DigitsValueOfNatToString(n: nat)
    ensures DigitsValue(NatToString(n)) == n
  {
    if n >= 10 {
      DigitsValueOfNatToString(n / 10);
      var s := NatToString(n);
      assert s[..|s| - 1] == NatToString(n / 10);
    }
  }

  /** `str(i)` for any integer. */
  function IntToString(i: int): string
  {
    if i < 0 then "-" + NatToString(-i) else NatToString(i)
  }

  /** `str(i)` opens with '-' exactly when `i` is negative, and the digits
      after the sign read back as the magnitude of `i`. */
  lemma IntToStringReadBack(i: int)
    ensures var s := IntToString(i);
      && |s| >= 1
      && (s[0] == '-' <==> i < 0)
      && var digits := if s[0] == '-' then s[1..] else s;
         |digits| >= 1 && AllDigits(digits) && DigitsValue(digits) == (if i < 0 then -i else i)
  {
    var n := if i < 0 then -i else i;
    DigitsValueOfNatToString(n);
    if i < 0 {
      assert ("-" + NatToString(n))[1..] == NatToString(n);
    }
  }

  /** The longest prefix of `s` made of decimal digits. */
  function LeadingDigits(s: string): (d: string)
    ensures AllDigits(d) && |d| <= |s| && d == s[..|d|]
    ensures |d| == |s| || !IsDigit(s[|d|])
  {
    if |s| == 0 || !IsDigit(s[0]) then "" else [s[0]] + LeadingDigits(s[1..])
  }

  lemma {:induction false} LeadingDigitsOf(d: string, rest: string)
    requires AllDigits(d)
    requires |rest| == 0 || !IsDigit(rest[0])
    ensures LeadingDigits(d + rest) == d
  {
    if |d| > 0 {
      LeadingDigitsOf(d[1..], rest);
      assert (d + rest)[1..] == d[1..] + rest;
      assert [d[0]] + d[1..] == d;
    } else {
      assert d + rest == rest;
    }
  }
}
