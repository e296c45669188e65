/**
 * Character and string helpers shared by the backend and frontend models.
 * Case mapping is ASCII only: `toUpperCase`, `toLowerCase` and Python's `lower()`
 * are modelled on the letters a-z and A-Z. Digits and whitespace follow Python's
 * Unicode classes `\d` and `\s`.
 */
module Text {

  predicate IsUpper(c: char) { 'A' <= c <= 'Z' }
  predicate IsLower(c: char) { 'a' <= c <= 'z' }

  /** A decimal digit of any script (Unicode general category Nd), what Python's `\d` matches
      in a `str` pattern. */
  predicate IsDigit(c: char) { DigitZero(0, c as int) >= 0 }

  /** How many blocks of ten decimal digits lie beyond ASCII (Unicode 15.0). */
  const WIDE_DIGIT_BLOCKS := 67

  /** The zero of the `k`-th block of ten decimal digits beyond ASCII, in increasing order. Every
      such block is ten consecutive code points valued 0 to 9. */
  function WideDigitBlock(k: nat): int
    requires k < WIDE_DIGIT_BLOCKS
  {
    if k == 0 then 0x660 else if k == 1 then 0x6F0 else if k == 2 then 0x7C0 else
    if k == 3 then 0x966 else if k == 4 then 0x9E6 else if k == 5 then 0xA66 else
    if k == 6 then 0xAE6 else if k == 7 then 0xB66 else if k == 8 then 0xBE6 else
    if k == 9 then 0xC66 else if k == 10 then 0xCE6 else if k == 11 then 0xD66 else
    if k == 12 then 0xDE6 else if k == 13 then 0xE50 else if k == 14 then 0xED0 else
    if k == 15 then 0xF20 else if k == 16 then 0x1040 else if k == 17 then 0x1090 else
    if k == 18 then 0x17E0 else if k == 19 then 0x1810 else if k == 20 then 0x1946 else
    if k == 21 then 0x19D0 else if k == 22 then 0x1A80 else if k == 23 then 0x1A90 else
    if k == 24 then 0x1B50 else if k == 25 then 0x1BB0 else if k == 26 then 0x1C40 else
    if k == 27 then 0x1C50 else if k == 28 then 0xA620 else if k == 29 then 0xA8D0 else
    if k == 30 then 0xA900 else if k == 31 then 0xA9D0 else if k == 32 then 0xA9F0 else
    if k == 33 then 0xAA50 else if k == 34 then 0xABF0 else if k == 35 then 0xFF10 else
    if k == 36 then 0x104A0 else if k == 37 then 0x10D30 else if k == 38 then 0x11066 else
    if k == 39 then 0x110F0 else if k == 40 then 0x11136 else if k == 41 then 0x111D0 else
    if k == 42 then 0x112F0 else if k == 43 then 0x11450 else if k == 44 then 0x114D0 else
    if k == 45 then 0x11650 else if k == 46 then 0x116C0 else if k == 47 then 0x11730 else
    if k == 48 then 0x118E0 else if k == 49 then 0x11950 else if k == 50 then 0x11C50 else
    if k == 51 then 0x11D50 else if k == 52 then 0x11DA0 else if k == 53 then 0x11F50 else
    if k == 54 then 0x16A60 else if k == 55 then 0x16AC0 else if k == 56 then 0x16B50 else
    if k == 57 then 0x1D7CE else if k == 58 then 0x1D7D8 else if k == 59 then 0x1D7E2 else
    if k == 60 then 0x1D7EC else if k == 61 then 0x1D7F6 else if k == 62 then 0x1E140 else
    if k == 63 then 0x1E2F0 else if k == 64 then 0x1E4F0 else if k == 65 then 0x1E950 else 0x1FBF0
  }

  /** The zero of the block of ten decimal digits that holds the code point `n`, looking at the
      ASCII block `0`-`9` when `k` is 0 and at the wide blocks from the `k`-th on, or -1 when
      none of them holds it. */
  function DigitZero(k: nat, n: int): (z: int)
    requires k <= WIDE_DIGIT_BLOCKS
    ensures z == -1 || z <= n < z + 10
    decreases WIDE_DIGIT_BLOCKS - k
  {
    var zero := if k == 0 then '0' as int else WideDigitBlock(k - 1);
    if n < zero then -1
    else if n < zero + 10 then zero
    else if k == WIDE_DIGIT_BLOCKS then -1
    else DigitZero(k + 1, n)
  }

  /** The value of a decimal digit, as Python's `int()` reads it: its offset from its block's zero. */
  function DigitValue(c: char): (v: nat)
    requires IsDigit(c)
    ensures v < 10
  {
    c as int - DigitZero(0, c as int)
  }

  /** Among ASCII characters only `0`-`9` are digits, and each is worth its offset from `0`. */
  lemma AsciiDigit(c: char)
    requires c as int < 0x80
    ensures IsDigit(c) <==> '0' <= c <= '9'
    ensures IsDigit(c) ==> DigitValue(c) == c as int - '0' as int
  {
    assert DigitZero(1, c as int) == -1;
  }

  /** Lower-casing never makes or unmakes a digit. */
  lemma LowerCharDigit(c: char)
    ensures IsDigit(LowerChar(c)) == IsDigit(c)
    ensures IsDigit(c) ==> LowerChar(c) == c
  {
    if IsUpper(c) {
      AsciiDigit(c);
      AsciiDigit(LowerChar(c));
    }
  }

  /** What Python's `str.isspace()`, and so `\s` in a `str` pattern, accepts: the characters
      of Unicode bidirectional class WS, B or S or general category Zs. */
  predicate IsSpace(c: char) {
    if c as int < 0x80 then 0x09 <= c as int <= 0x0D || 0x1C <= c as int <= 0x20
    else c as int in WIDE_SPACES
  }

  /** The whitespace characters beyond ASCII (Unicode 15.0). */
  const WIDE_SPACES: seq<int> :=
    [0x85, 0xA0, 0x1680, 0x2000, 0x2001, 0x2002, 0x2003, 0x2004, 0x2005, 0x2006, 0x2007, 0x2008,
     0x2009, 0x200A, 0x2028, 0x2029, 0x202F, 0x205F, 0x3000]

  function UpperChar(c: char): (r: char)
    ensures !IsLower(r)
    ensures IsLower(c) ==> IsUpper(r)
    ensures !IsLower(c) ==> r == c
  {
    if IsLower(c) then (c as int - 32) as char else c
  }

  function LowerChar(c: char): (r: char)
    ensures !IsUpper(r)
    ensures IsUpper(c) ==> IsLower(r)
    ensures !IsUpper(c) ==> r == c
  {
    if IsUpper(c) then (c as int + 32) as char else c
  }

  /** `s.toLowerCase()` / `s.lower()` on ASCII. */
  function Lower(s: string): (r: string)
    ensures |r| == |s|
    ensures forall i :: 0 <= i < |s| ==> r[i] == LowerChar(s[i])
  {
    if s == [] then [] else [LowerChar(s[0])] + Lower(s[1..])
  }

  lemma LowerIdempotent(s: string)
    ensures Lower(Lower(s)) == Lower(s)
  {
  }

  function Occurrences(s: string, c: char): (n: nat)
    ensures n <= |s|
  {
    if s == [] then 0 else (if s[0] == c then 1 else 0) + Occurrences(s[1..], c)
  }

  /** `s.split(sep)` for a one-character separator: always at least one piece. */
  function Split(s: string, sep: char): (r: seq<string>)
    ensures |r| >= 1
  {
    if s == [] then [""]
    else if s[0] == sep then [""] + Split(s[1..], sep)
    else
      var rest := Split(s[1..], sep);
      [[s[0]] + rest[0]] + rest[1..]
  }

  /** `pieces.join(sep)`. */
  function Join(pieces: seq<string>, sep: string): string
  {
    if pieces == [] then ""
    else if |pieces| == 1 then pieces[0]
    else pieces[0] + sep + Join(pieces[1..], sep)
  }

  /** No piece of a split contains the separator. */
  lemma {:induction false} SplitPiecesFree(s: string, sep: char)
    ensures forall i :: 0 <= i < |Split(s, sep)| ==> sep !in Split(s, sep)[i]
  {
    if s != [] {
      SplitPiecesFree(s[1..], sep);
      if s[0] != sep {
        var rest := Split(s[1..], sep);
        assert sep !in rest[0];
        assert Split(s, sep) == [[s[0]] + rest[0]] + rest[1..];
      }
    }
  }

  /** A string without the separator splits into itself alone. */
  lemma {:induction false} SplitWithoutSeparator(s: string, sep: char)
    requires sep !in s
    ensures Split(s, sep) == [s]
  {
    if s != [] {
      assert s[0] in s;
      SplitWithoutSeparator(s[1..], sep);
      assert [s[0]] + s[1..] == s;
    }
  }

  /** Splitting at the first separator: the text before it is the first piece. */
  lemma {:induction false} SplitAtFirstSeparator(a: string, sep: char, b: string)
    requires sep !in a
    ensures Split(a + [sep] + b, sep) == [a] + Split(b, sep)
  {
    if a == [] {
      assert [] + [sep] + b == [sep] + b;
      assert ([sep] + b)[1..] == b;
    } else {
      assert a[0] in a;
      SplitAtFirstSeparator(a[1..], sep, b);
      assert (a + [sep] + b)[1..] == a[1..] + [sep] + b;
      assert [a[0]] + a[1..] == a;
    }
  }

  /** A trailing separator adds one empty last piece. */
  lemma {:induction false} SplitTrailingSeparator(s: string, sep: char)
    ensures Split(s + [sep], sep) == Split(s, sep) + [""]
  {
    if s == [] {
      assert Split([sep], sep) == [""] + Split([], sep);
    } else {
      SplitTrailingSeparator(s[1..], sep);
      assert (s + [sep])[1..] == s[1..] + [sep];
    }
  }

  /** Joining the pieces of a split with the separator gives back the string. */
  lemma {:induction false} SplitJoin(s: string, sep: char)
    ensures Join(Split(s, sep), [sep]) == s
  {
    if s != [] {
      SplitJoin(s[1..], sep);
      var rest := Split(s[1..], sep);
      if s[0] == sep {
        assert Split(s, sep) == [""] + rest;
      } else {
        var r := Split(s, sep);
        assert r == [[s[0]] + rest[0]] + rest[1..];
        if |rest| == 1 {
          assert Join(r, [sep]) == [s[0]] + rest[0];
        } else {
          assert r[1..] == rest[1..];
          assert Join(rest, [sep]) == rest[0] + [sep] + Join(rest[1..], [sep]);
          assert Join(r, [sep]) == ([s[0]] + rest[0]) + [sep] + Join(rest[1..], [sep]);
        }
      }
    }
  }

  /** A split has one more piece than the string has separators. */
  lemma {:induction false} SplitCount(s: string, sep: char)
    ensures |Split(s, sep)| == Occurrences(s, sep) + 1
  {
    if s != [] {
      SplitCount(s[1..], sep);
    }
  }

  /** Joining a non-empty list splits off its last piece after the last separator. */
  lemma {:induction false} JoinLast(pieces: seq<string>, sep: string)
    requires |pieces| >= 2
    ensures Join(pieces, sep) == Join(pieces[..|pieces| - 1], sep) + sep + pieces[|pieces| - 1]
  {
    if |pieces| > 2 {
      JoinLast(pieces[1..], sep);
      assert pieces[1..][..|pieces| - 2] == pieces[1..|pieces| - 1];
      assert pieces[..|pieces| - 1][1..] == pieces[1..|pieces| - 1];
    } else {
      assert pieces[..1] == [pieces[0]];
    }
  }

  /** The decimal digits of a natural number, as `str(n)` and `${n}` write them. */
  function NatToString(n: nat): (r: string)
    ensures |r| >= 1
    ensures forall i :: 0 <= i < |r| ==> '0' <= r[i] <= '9'
  {
    if n < 10 then [DigitChar(n)] else NatToString(n / 10) + [DigitChar(n % 10)]
  }

  function DigitChar(d: nat): (c: char)
    requires d < 10
    ensures '0' <= c <= '9' && IsDigit(c) && DigitValue(c) == d
  {
    ('0' as int + d) as char
  }

  /** The value of a run of decimal digits, as Python's `int(text)` reads it. */
  function DigitsValue(s: string): nat
    requires forall i :: 0 <= i < |s| ==> IsDigit(s[i])
  {
    if s == [] then 0
    else
      assert IsDigit(s[|s| - 1]);
      DigitsValue(s[..|s| - 1]) * 10 + DigitValue(s[|s| - 1])
  }

  /** `str(n)` read back with `int(...)` gives `n`. */
  lemma {:induction false} NatToStringValue(n: nat)
    ensures DigitsValue(NatToString(n)) == n
  {
    if n >= 10 {
      NatToStringValue(n / 10);
      var s := NatToString(n);
      assert s[..|s| - 1] == NatToString(n / 10);
    }
  }

  /** `s.replace(from, to)` for single characters: every occurrence is replaced. */
  function ReplaceChar(s: string, from: char, to: char): (r: string)
    ensures |r| == |s|
    ensures forall i :: 0 <= i < |s| ==> r[i] == (if s[i] == from then to else s[i])
  {
    if s == [] then [] else [if s[0] == from then to else s[0]] + ReplaceChar(s[1..], from, to)
  }

  /** Replacing a character commutes with concatenation. */
  lemma {:induction false} ReplaceCharConcat(a: string, b: string, from: char, to: char)
    ensures ReplaceChar(a + b, from, to) == ReplaceChar(a, from, to) + ReplaceChar(b, from, to)
  {
    if a != [] {
      assert (a + b)[0] == a[0];
      assert (a + b)[1..] == a[1..] + b;
      ReplaceCharConcat(a[1..], b, from, to);
    } else {
      assert a + b == b;
    }
  }

  /** A string without the character is left as it is. */
  lemma {:induction false} ReplaceCharAbsent(s: string, from: char, to: char)
    requires from !in s
    ensures ReplaceChar(s, from, to) == s
  {
  }

  /** `s.endswith(suffix)`. */
  predicate EndsWith(s: string, suffix: string)
  {
    |suffix| <= |s| && s[|s| - |suffix|..] == suffix
  }

  predicate IsPrefix(p: string, s: string) { |p| <= |s| && s[..|p|] == p }

  predicate OccursAt(s: string, pat: string, i: nat) { i + |pat| <= |s| && s[i..i + |pat|] == pat }

  /** `s.replace(pat, rep, 1)`: only the first occurrence is replaced (`pat` non-empty). */
  function ReplaceFirst(s: string, pat: string, rep: string): string
    requires pat != []
  {
    if |s| < |pat| then s
    else if IsPrefix(pat, s) then rep + s[|pat|..]
    else [s[0]] + ReplaceFirst(s[1..], pat, rep)
  }

  /** With no occurrence of `pat`, `ReplaceFirst` leaves the string alone. */
  lemma {:induction false} ReplaceFirstNone(s: string, pat: string, rep: string)
    requires pat != []
    requires forall i :: 0 <= i <= |s| ==> !OccursAt(s, pat, i)
    ensures ReplaceFirst(s, pat, rep) == s
  {
    if |s| >= |pat| {
      assert !OccursAt(s, pat, 0);
      forall j | 0 <= j <= |s| - 1 ensures !OccursAt(s[1..], pat, j) {
        assert !OccursAt(s, pat, j + 1);
        if j + |pat| <= |s| - 1 { assert s[1..][j..j + |pat|] == s[j + 1..j + 1 + |pat|]; }
      }
      ReplaceFirstNone(s[1..], pat, rep);
    }
  }

  /** An occurrence at `i > 0` is one at `i - 1` in the tail, and so is the absence of one. */
  lemma {:induction false} OccursInTail(s: string, pat: string, i: nat)
    requires 0 < i && OccursAt(s, pat, i)
    requires forall j :: 0 <= j < i ==> !OccursAt(s, pat, j)
    ensures OccursAt(s[1..], pat, i - 1)
    ensures forall j :: 0 <= j < i - 1 ==> !OccursAt(s[1..], pat, j)
  {
    assert s[1..][i - 1..i - 1 + |pat|] == s[i..i + |pat|];
    forall j | 0 <= j < i - 1 ensures !OccursAt(s[1..], pat, j) {
      assert !OccursAt(s, pat, j + 1);
      assert s[1..][j..j + |pat|] == s[j + 1..j + 1 + |pat|];
    }
  }

  lemma {:induction false} SpliceInTail(s: string, rep: string, i: nat, k: nat)
    requires 0 < i <= k <= |s|
    ensures [s[0]] + (s[1..][..i - 1] + rep + s[1..][k - 1..]) == s[..i] + rep + s[k..]
  {
    assert s[1..][..i - 1] == s[1..i];
    assert s[1..][k - 1..] == s[k..];
    assert [s[0]] + s[1..i] == s[..i];
  }

  /** `ReplaceFirst` replaces the leftmost occurrence of `pat` and keeps everything after it. */
  lemma {:induction false} ReplaceFirstAt(s: string, pat: string, rep: string, i: nat)
    requires pat != []
    requires OccursAt(s, pat, i)
    requires forall j :: 0 <= j < i ==> !OccursAt(s, pat, j)
    ensures ReplaceFirst(s, pat, rep) == s[..i] + rep + s[i + |pat|..]
  {
    if i == 0 {
      assert IsPrefix(pat, s);
    } else {
      assert ReplaceFirst(s, pat, rep) == [s[0]] + ReplaceFirst(s[1..], pat, rep) by {
        assert !OccursAt(s, pat, 0);
        assert |s| >= |pat| && !IsPrefix(pat, s);
      }
      OccursInTail(s, pat, i);
      ReplaceFirstAt(s[1..], pat, rep, i - 1);
      SpliceInTail(s, rep, i, i + |pat|);
    }
  }

  /** A character found neither in `s` nor in `rep` is not in the result either. */
  lemma {:induction false} ReplaceFirstKeepsOut(s: string, pat: string, rep: string, c: char)
    requires pat != []
    requires c !in s && c !in rep
    ensures c !in ReplaceFirst(s, pat, rep)
  {
    if |s| >= |pat| && !IsPrefix(pat, s) {
      assert s == [s[0]] + s[1..];
      ReplaceFirstKeepsOut(s[1..], pat, rep, c);
    }
  }

  /** The index of the last `ch` in `s`, or -1 when there is none (`s.rfind(ch)`). */
  function LastIndexOf(s: string, ch: char): (i: int)
    ensures -1 <= i < |s|
    ensures i >= 0 ==> s[i] == ch
    ensures forall j :: i < j < |s| ==> s[j] != ch
  {
    if s == [] then -1
    else if s[|s| - 1] == ch then |s| - 1
    else LastIndexOf(s[..|s| - 1], ch)
  }

  /** `os.path.splitext(p)[0]` on POSIX paths: the text before the last `.` of the final
      component, unless that component consists of dots up to it (`.bashrc`). */
  function SplitextRoot(p: string): string
  {
    var sep := LastIndexOf(p, '/');
    var dot := LastIndexOf(p, '.');
    if dot > sep && exists j :: sep < j < dot && p[j] != '.' then p[..dot] else p
  }

  /** A name without dots or slashes is its own root, and so is the name with an extension added. */
  lemma {:induction false} SplitextRootOfName(stem: string, ext: string)
    requires stem != [] && '.' !in stem && '/' !in stem && '.' !in ext && '/' !in ext
    ensures SplitextRoot(stem) == stem
    ensures SplitextRoot(stem + "." + ext) == stem
  {
    var p := stem + "." + ext;
    assert forall j :: 0 <= j < |stem| ==> p[j] == stem[j];
    assert p[|stem|] == '.';
    assert forall j :: |stem| < j < |p| ==> p[j] == ext[j - |stem| - 1];
    assert p[0] == stem[0] && stem[0] != '.';
    assert p[..|stem|] == stem;
  }
}
