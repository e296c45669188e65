/**
 * `natural_sort_key` (services/backend/app/helper/helper.py): a string is split around its
 * runs of decimal digits, text pieces are lower-cased and digit runs read as integers, and
 * the resulting lists are compared the way Python compares lists. The controller sorts the
 * frame files with this key.
 */
module NaturalSort {
  import opened Text

  predicate NoDigits(s: string) { forall i :: 0 <= i < |s| ==> !IsDigit(s[i]) }
  predicate AllDigits(s: string) { forall i :: 0 <= i < |s| ==> IsDigit(s[i]) }

  /** Length of the longest prefix without digits. */
  function NonDigitRun(s: string): (n: nat)
    ensures n <= |s|
    ensures n < |s| ==> IsDigit(s[n])
  {
    if s == [] || IsDigit(s[0]) then 0 else 1 + NonDigitRun(s[1..])
  }

  /** The prefix `NonDigitRun` measures holds no digit, so it is the longest such prefix. */
  lemma {:induction false} NonDigitRunMeans(s: string)
    ensures forall i :: 0 <= i < NonDigitRun(s) ==> !IsDigit(s[i])
    ensures s != [] && !IsDigit(s[0]) ==> NonDigitRun(s) >= 1
  {
    if s != [] && !IsDigit(s[0]) {
      NonDigitRunMeans(s[1..]);
      forall i | 1 <= i < NonDigitRun(s) ensures !IsDigit(s[i]) {
        assert s[i] == s[1..][i - 1];
      }
    }
  }

  /** Length of the longest prefix made of digits. */
  function DigitRun(s: string): (n: nat)
    ensures n <= |s|
    ensures s != [] && IsDigit(s[0]) ==> n >= 1
  {
    if s == [] || !IsDigit(s[0]) then 0 else 1 + DigitRun(s[1..])
  }

  /** The prefix `DigitRun` measures is all digits and the character after it is none. */
  lemma {:induction false} DigitRunMeans(s: string)
    ensures forall i :: 0 <= i < DigitRun(s) ==> IsDigit(s[i])
    ensures DigitRun(s) < |s| ==> !IsDigit(s[DigitRun(s)])
  {
    if s != [] && IsDigit(s[0]) {
      DigitRunMeans(s[1..]);
      forall i | 1 <= i < DigitRun(s) ensures IsDigit(s[i]) {
        assert s[i] == s[1..][i - 1];
      }
      assert DigitRun(s) < |s| ==> s[DigitRun(s)] == s[1..][DigitRun(s[1..])];
    }
  }

  function Concat(pieces: seq<string>): string
  {
    if pieces == [] then [] else pieces[0] + Concat(pieces[1..])
  }

  /** `re.split('(\d+)', s)`: text, digit run, text, ..., text. */
  function SplitDigitRuns(s: string): (pieces: seq<string>)
    ensures |pieces| % 2 == 1
    decreases |s|
  {
    var t := NonDigitRun(s);
    if t == |s| then
      [s]
    else
      var d := t + DigitRun(s[t..]);
      [s[..t], s[t..d]] + SplitDigitRuns(s[d..])
  }

  lemma {:induction false} SplitStep(s: string)
    requires NonDigitRun(s) < |s|
    ensures var t := NonDigitRun(s); var d := t + DigitRun(s[t..]);
      d <= |s| && SplitDigitRuns(s) == [s[..t], s[t..d]] + SplitDigitRuns(s[d..])
  {
  }

  /** The first piece is the longest digit-free prefix. */
  lemma {:induction false} SplitFirst(s: string)
    ensures SplitDigitRuns(s)[0] == s[..NonDigitRun(s)]
  {
    if NonDigitRun(s) == |s| {
      assert s[..|s|] == s;
    }
  }

  /** The text pieces hold no digit and only the first and the last may be empty; the
      digit runs are never empty, so each is a maximal run of digits. */
  predicate PiecesShaped(pieces: seq<string>)
  {
    && (forall i :: 0 <= i < |pieces| && i % 2 == 0 ==> NoDigits(pieces[i]))
    && (forall i :: 0 <= i < |pieces| && i % 2 == 1 ==> pieces[i] != [] && AllDigits(pieces[i]))
    && (forall i :: 0 < i < |pieces| - 1 && i % 2 == 0 ==> pieces[i] != [])
  }

  lemma {:induction false} PiecesShapedCons(a: string, b: string, rest: seq<string>)
    requires NoDigits(a) && b != [] && AllDigits(b)
    requires PiecesShaped(rest) && (|rest| > 1 ==> rest[0] != [])
    ensures PiecesShaped([a, b] + rest)
  {
    var p := [a, b] + rest;
    forall i | 2 <= i < |p| ensures p[i] == rest[i - 2] && (i - 2) % 2 == i % 2 {
    }
  }

  lemma {:induction false} SplitDigitRunsShape(s: string)
    ensures PiecesShaped(SplitDigitRuns(s))
    decreases |s|
  {
    var t := NonDigitRun(s);
    NonDigitRunMeans(s);
    if t < |s| {
      var run := DigitRun(s[t..]);
      var d := t + run;
      var rest := SplitDigitRuns(s[d..]);
      SplitStep(s);
      DigitRunMeans(s[t..]);
      assert NoDigits(s[..t]);
      assert s[t..d] != [] && AllDigits(s[t..d]) by {
        forall i | 0 <= i < d - t ensures IsDigit(s[t..d][i]) {
          assert s[t..d][i] == s[t..][i];
        }
      }
      assert |rest| > 1 ==> rest[0] != [] by {
        if d < |s| {
          assert s[d..][0] == s[t..][run];
          NonDigitRunMeans(s[d..]);
          SplitFirst(s[d..]);
        }
      }
      SplitDigitRunsShape(s[d..]);
      PiecesShapedCons(s[..t], s[t..d], rest);
    } else {
      assert s[..t] == s;
    }
  }

  lemma {:induction false} ConcatCons(a: string, b: string, rest: seq<string>)
    ensures Concat([a, b] + rest) == a + (b + Concat(rest))
  {
    var p := [a, b] + rest;
    assert p[1..] == [b] + rest;
    assert p[1..][1..] == rest;
  }

  lemma {:induction false} SliceThree(s: string, t: nat, d: nat)
    requires t <= d <= |s|
    ensures s[..t] + (s[t..d] + s[d..]) == s
  {
  }

  /** Gluing the pieces back together gives the string that was split. */
  lemma {:induction false} SplitDigitRunsConcat(s: string)
    ensures Concat(SplitDigitRuns(s)) == s
    decreases |s|
  {
    var t := NonDigitRun(s);
    if t < |s| {
      var d := t + DigitRun(s[t..]);
      var rest := SplitDigitRuns(s[d..]);
      SplitDigitRunsConcat(s[d..]);
      SplitStep(s);
      ConcatCons(s[..t], s[t..d], rest);
      SliceThree(s, t, d);
    }
  }

  /** One element of the key: a lower-cased text piece or the value of a digit run. */
  datatype KeyPart = Text(text: string) | Number(value: nat)

  /** `[int(text) if text.isdigit() else text.lower() for text in re.split('(\d+)', s)]`. */
  function NaturalSortKey(s: string): seq<KeyPart>
  {
    var pieces := SplitDigitRuns(s);
    seq(|pieces|, i requires 0 <= i < |pieces| =>
      if pieces[i] != [] && AllDigits(pieces[i]) then Number(DigitsValue(pieces[i])) else Text(Lower(pieces[i])))
  }

  /** The key alternates text and numbers, starts and ends with text, and its text parts
      are lower-case and free of digits. */
  lemma {:induction false} KeyShape(s: string)
    ensures |NaturalSortKey(s)| == |SplitDigitRuns(s)| && |NaturalSortKey(s)| % 2 == 1
    ensures forall i :: 0 <= i < |NaturalSortKey(s)| && i % 2 == 0 ==>
              NaturalSortKey(s)[i] == Text(Lower(SplitDigitRuns(s)[i]))
    ensures forall i :: 0 <= i < |NaturalSortKey(s)| && i % 2 == 1 ==>
              && SplitDigitRuns(s)[i] != [] && AllDigits(SplitDigitRuns(s)[i])
              && NaturalSortKey(s)[i] == Number(DigitsValue(SplitDigitRuns(s)[i]))
    ensures forall i :: 0 <= i < |NaturalSortKey(s)| && i % 2 == 0 ==>
              NoDigits(NaturalSortKey(s)[i].text) && NoUpper(NaturalSortKey(s)[i].text)
  {
    var pieces := SplitDigitRuns(s);
    var key := NaturalSortKey(s);
    SplitDigitRunsShape(s);
    forall i | 0 <= i < |pieces| && i % 2 == 0
      ensures key[i] == Text(Lower(pieces[i]))
      ensures NoDigits(Lower(pieces[i])) && NoUpper(Lower(pieces[i]))
    {
      if pieces[i] != [] {
        assert !IsDigit(pieces[i][0]);
      }
    }
  }

  predicate NoUpper(s: string) { forall i :: 0 <= i < |s| ==> !IsUpper(s[i]) }

  // ---------------------------------------------------------------------------
  // Case does not matter

  lemma {:induction false} NonDigitRunLower(s: string)
    ensures NonDigitRun(Lower(s)) == NonDigitRun(s)
  {
    if s != [] {
      LowerCharDigit(s[0]);
      assert Lower(s)[1..] == Lower(s[1..]);
      NonDigitRunLower(s[1..]);
    }
  }

  lemma {:induction false} DigitRunLower(s: string)
    ensures DigitRun(Lower(s)) == DigitRun(s)
  {
    if s != [] {
      LowerCharDigit(s[0]);
      assert Lower(s)[1..] == Lower(s[1..]);
      DigitRunLower(s[1..]);
    }
  }

  /** Every piece lower-cased. */
  function LowerAll(pieces: seq<string>): seq<string>
  {
    if pieces == [] then [] else [Lower(pieces[0])] + LowerAll(pieces[1..])
  }

  lemma {:induction false} LowerAllMeans(pieces: seq<string>)
    ensures |LowerAll(pieces)| == |pieces|
    ensures forall i :: 0 <= i < |pieces| ==> LowerAll(pieces)[i] == Lower(pieces[i])
  {
    if pieces != [] {
      LowerAllMeans(pieces[1..]);
    }
  }

  lemma {:induction false} LowerAllCons(a: string, b: string, rest: seq<string>)
    ensures LowerAll([a, b] + rest) == [Lower(a), Lower(b)] + LowerAll(rest)
  {
    var p := [a, b] + rest;
    assert p[1..] == [b] + rest;
    assert p[1..][1..] == rest;
  }

  /** Splitting the lower-cased string gives the lower-cased pieces. */
  lemma {:induction false} SplitDigitRunsLowerAll(s: string)
    ensures SplitDigitRuns(Lower(s)) == LowerAll(SplitDigitRuns(s))
    decreases |s|
  {
    var t := NonDigitRun(s);
    if t < |s| {
      assert s[t..][0] == s[t];
      var d := t + DigitRun(s[t..]);
      assert |s[d..]| < |s|;
      var rest := SplitDigitRuns(s[d..]);
      calc {
        SplitDigitRuns(Lower(s));
        { SplitLowerStep(s, t, d); }
        [Lower(s[..t]), Lower(s[t..d])] + SplitDigitRuns(Lower(s[d..]));
        { SplitDigitRunsLowerAll(s[d..]); }
        [Lower(s[..t]), Lower(s[t..d])] + LowerAll(rest);
        { LowerAllCons(s[..t], s[t..d], rest); }
        LowerAll([s[..t], s[t..d]] + rest);
        { SplitStep(s); }
        LowerAll(SplitDigitRuns(s));
      }
    } else {
      SplitLowerWhole(s);
    }
  }

  lemma {:induction false} SplitDigitRunsLower(s: string)
    ensures |SplitDigitRuns(Lower(s))| == |SplitDigitRuns(s)|
    ensures forall i :: 0 <= i < |SplitDigitRuns(s)| ==> SplitDigitRuns(Lower(s))[i] == Lower(SplitDigitRuns(s)[i])
  {
    SplitDigitRunsLowerAll(s);
    LowerAllMeans(SplitDigitRuns(s));
  }

  lemma {:induction false} SplitLowerStep(s: string, t: nat, d: nat)
    requires t == NonDigitRun(s) < |s| && d == t + DigitRun(s[t..])
    ensures d <= |s| && SplitDigitRuns(Lower(s)) == [Lower(s[..t]), Lower(s[t..d])] + SplitDigitRuns(Lower(s[d..]))
  {
    LowerRuns(s);
    LowerPrefix(s, t);
    LowerSlice(s, t, d);
    LowerSuffix(s, d);
    SplitAt(Lower(s), t, d, Lower(s[..t]), Lower(s[t..d]), Lower(s[d..]));
  }

  /** `SplitStep` with the three parts named. */
  lemma SplitAt(l: string, t: nat, d: nat, a: string, b: string, c: string)
    requires t == NonDigitRun(l) < |l| && d == t + DigitRun(l[t..])
    requires l[..t] == a && l[t..d] == b && l[d..] == c
    ensures SplitDigitRuns(l) == [a, b] + SplitDigitRuns(c)
  {
    SplitStep(l);
    assert [l[..t], l[t..d]] == [a, b];
  }

  /** The lower-cased string has its first text piece and digit run where the string has them. */
  lemma LowerRuns(s: string)
    requires NonDigitRun(s) < |s|
    ensures var t := NonDigitRun(s);
      NonDigitRun(Lower(s)) == t && DigitRun(Lower(s)[t..]) == DigitRun(s[t..])
  {
    var t := NonDigitRun(s);
    NonDigitRunLower(s);
    LowerSuffix(s, t);
    DigitRunLower(s[t..]);
  }

  lemma {:induction false} SplitLowerWhole(s: string)
    requires NonDigitRun(s) == |s|
    ensures SplitDigitRuns(s) == [s] && SplitDigitRuns(Lower(s)) == [Lower(s)]
  {
    NonDigitRunLower(s);
  }

  lemma LowerPrefix(s: string, t: nat)
    requires t <= |s|
    ensures Lower(s)[..t] == Lower(s[..t])
  {
  }

  lemma LowerSlice(s: string, t: nat, d: nat)
    requires t <= d <= |s|
    ensures Lower(s)[t..d] == Lower(s[t..d])
  {
  }

  lemma LowerSuffix(s: string, t: nat)
    requires t <= |s|
    ensures Lower(s)[t..] == Lower(s[t..])
  {
  }

  /** A run of digits is its own lower-case form. */
  lemma {:induction false} LowerOfDigits(s: string)
    requires AllDigits(s)
    ensures Lower(s) == s
  {
    forall i | 0 <= i < |s| ensures LowerChar(s[i]) == s[i] {
      LowerCharDigit(s[i]);
    }
  }

  /** `natural_sort_key` ignores case: a string and its lower-cased form get the same key. */
  lemma {:induction false} CaseInsensitive(s: string)
    ensures NaturalSortKey(Lower(s)) == NaturalSortKey(s)
  {
    var p := SplitDigitRuns(s);
    var q := SplitDigitRuns(Lower(s));
    SplitDigitRunsLower(s);
    KeyShape(s);
    KeyShape(Lower(s));
    forall i | 0 <= i < |p| ensures NaturalSortKey(Lower(s))[i] == NaturalSortKey(s)[i] {
      if i % 2 == 0 {
        LowerIdempotent(p[i]);
      } else {
        LowerOfDigits(p[i]);
      }
    }
  }

  // ---------------------------------------------------------------------------
  // Python's ordering of keys

  /** Python's `<` on `str`: lexicographic by code point, a proper prefix first. */
  predicate StrLess(a: string, b: string)
  {
    if a == [] then b != []
    else if b == [] then false
    else if a[0] == b[0] then StrLess(a[1..], b[1..])
    else a[0] < b[0]
  }

  /** `<` on two key elements; a string never compares with an integer (Python raises). */
  predicate PartLess(x: KeyPart, y: KeyPart)
  {
    match (x, y)
    case (Text(a), Text(b)) => StrLess(a, b)
    case (Number(m), Number(n)) => m < n
    case _ => false
  }

  /** Python's `<` on lists: the first differing element decides, a proper prefix first. */
  predicate KeyLess(a: seq<KeyPart>, b: seq<KeyPart>)
  {
    if a == [] then b != []
    else if b == [] then false
    else if a[0] == b[0] then KeyLess(a[1..], b[1..])
    else PartLess(a[0], b[0])
  }

  lemma {:induction false} StrLessIrreflexive(a: string)
    ensures !StrLess(a, a)
  {
    if a != [] {
      StrLessIrreflexive(a[1..]);
    }
  }

  lemma {:induction false} StrLessTransitive(a: string, b: string, c: string)
    requires StrLess(a, b) && StrLess(b, c)
    ensures StrLess(a, c)
  {
    if a != [] && b != [] && c != [] && a[0] == b[0] && b[0] == c[0] {
      StrLessTransitive(a[1..], b[1..], c[1..]);
    }
  }

  lemma {:induction false} KeyLessIrreflexive(a: seq<KeyPart>)
    ensures !KeyLess(a, a)
  {
    if a != [] {
      KeyLessIrreflexive(a[1..]);
    }
  }

  lemma {:induction false} PartLessTransitive(x: KeyPart, y: KeyPart, z: KeyPart)
    requires PartLess(x, y) && PartLess(y, z)
    ensures PartLess(x, z)
  {
    if x.Text? {
      StrLessTransitive(x.text, y.text, z.text);
    }
  }

  lemma {:induction false} KeyLessTransitive(a: seq<KeyPart>, b: seq<KeyPart>, c: seq<KeyPart>)
    requires KeyLess(a, b) && KeyLess(b, c)
    ensures KeyLess(a, c)
  {
    if a != [] && b != [] && c != [] {
      if a[0] == b[0] && b[0] == c[0] {
        KeyLessTransitive(a[1..], b[1..], c[1..]);
      } else if a[0] != b[0] && b[0] != c[0] {
        PartLessTransitive(a[0], b[0], c[0]);
        if a[0] == c[0] {
          PartLessTransitive(b[0], c[0], b[0]);
          PartLessIrreflexive(b[0]);
        }
      }
    }
  }

  lemma {:induction false} PartLessIrreflexive(x: KeyPart)
    ensures !PartLess(x, x)
  {
    if x.Text? {
      StrLessIrreflexive(x.text);
    }
  }

  /** Two keys never hold a string and an integer at the same position, so comparing them
      never raises. */
  lemma {:induction false} KeysComparable(s: string, t: string)
    ensures forall i :: 0 <= i < |NaturalSortKey(s)| && i < |NaturalSortKey(t)| ==>
              NaturalSortKey(s)[i].Text? == NaturalSortKey(t)[i].Text?
  {
    KeyShape(s);
    KeyShape(t);
  }

  // ---------------------------------------------------------------------------
  // Numbered names

  lemma {:induction false} NonDigitRunOfText(t: string, d: string)
    requires NoDigits(t)
    requires d != [] && IsDigit(d[0])
    ensures NonDigitRun(t + d) == |t|
  {
    if t != [] {
      assert (t + d)[1..] == t[1..] + d;
      NonDigitRunOfText(t[1..], d);
    }
  }

  lemma {:induction false} DigitRunOfDigits(d: string)
    requires AllDigits(d)
    ensures DigitRun(d) == |d|
  {
    if d != [] {
      DigitRunOfDigits(d[1..]);
    }
  }

  /** A digit-free prefix followed by one digit run splits into exactly those two pieces
      and an empty tail. */
  lemma {:induction false} SplitTextThenNumber(t: string, d: string)
    requires NoDigits(t)
    requires d != [] && AllDigits(d)
    ensures SplitDigitRuns(t + d) == [t, d, ""]
  {
    NonDigitRunOfText(t, d);
    var s := t + d;
    assert s[|t|..] == d;
    DigitRunOfDigits(d);
    assert s[..|t|] == t && s[|t|..|t| + |d|] == d;
    assert s[|s|..] == "";
    assert SplitDigitRuns("") == [""];
    assert SplitDigitRuns(s) == [t, d] + SplitDigitRuns(s[|s|..]);
  }

  /** The key of a digit-free prefix followed by a number. */
  lemma {:induction false} KeyOfNumberedName(t: string, n: nat)
    requires NoDigits(t)
    ensures NaturalSortKey(t + NatToString(n)) == [Text(Lower(t)), Number(n), Text("")]
  {
    var d := NatToString(n);
    SplitTextThenNumber(t, d);
    NatToStringValue(n);
    var key := NaturalSortKey(t + d);
    assert |key| == 3;
    assert key[0] == Text(Lower(t)) by {
      if t != [] {
        assert !IsDigit(t[0]);
      }
    }
    assert key[1] == Number(n);
    assert key[2] == Text("");
  }

  /** Names that share a digit-free prefix and end in a number are ordered by that number,
      so `img2` comes before `img10` although the plain strings order the other way. */
  lemma {:induction false} NumberedNamesInNumericOrder(t: string, m: nat, n: nat)
    requires NoDigits(t)
    ensures KeyLess(NaturalSortKey(t + NatToString(m)), NaturalSortKey(t + NatToString(n))) <==> m < n
  {
    KeyOfNumberedName(t, m);
    KeyOfNumberedName(t, n);
    NumberedKeysInNumericOrder(Lower(t), m, n);
  }

  lemma {:induction false} NumberedKeysInNumericOrder(l: string, m: nat, n: nat)
    ensures KeyLess([Text(l), Number(m), Text("")], [Text(l), Number(n), Text("")]) <==> m < n
  {
    var a := [Text(l), Number(m), Text("")];
    var b := [Text(l), Number(n), Text("")];
    assert a[1..] == [Number(m), Text("")] && b[1..] == [Number(n), Text("")];
    assert a[1..][1..] == [Text("")] && b[1..][1..] == [Text("")];
    KeyLessIrreflexive([Text("")]);
  }

  lemma {:induction false} Img2BeforeImg10()
    ensures KeyLess(NaturalSortKey("img2"), NaturalSortKey("img10"))
    ensures StrLess("img10", "img2")
  {
    ImgNames();
    NumberedNamesInNumericOrder("img", 2, 10);
    Img10BeforeImg2AsStrings();
  }

  lemma ImgNames()
    ensures "img" + NatToString(2) == "img2" && "img" + NatToString(10) == "img10"
    ensures NoDigits("img")
  {
    assert NatToString(2) == "2";
    assert NatToString(10) == "10";
  }

  lemma Img10BeforeImg2AsStrings()
    ensures StrLess("img10", "img2")
  {
    assert "img10"[1..] == "mg10" && "mg10"[1..] == "g10" && "g10"[1..] == "10";
    assert "img2"[1..] == "mg2" && "mg2"[1..] == "g2" && "g2"[1..] == "2";
  }

  // ---------------------------------------------------------------------------
  // sorted(files, key=natural_sort_key)

  /** No later element has a strictly smaller key than an earlier one. */
  predicate SortedBy<T>(key: T -> seq<KeyPart>, r: seq<T>)
  {
    forall i, j :: 0 <= i < j < |r| ==> !KeyLess(key(r[j]), key(r[i]))
  }

  /** Inserts `x` before the first element with a strictly larger key, so elements with
      equal keys keep their order. */
  function InsertBy<T>(key: T -> seq<KeyPart>, x: T, r: seq<T>): (r': seq<T>)
    requires SortedBy(key, r)
    ensures multiset(r') == multiset(r) + multiset{x}
    ensures SortedBy(key, r')
  {
    if r == [] then [x]
    else if KeyLess(key(x), key(r[0])) then
      InsertInFront(key, x, r);
      [x] + r
    else
      var rest := InsertBy(key, x, r[1..]);
      assert r == [r[0]] + r[1..];
      InsertBehind(key, x, r, rest);
      [r[0]] + rest
  }

  lemma {:induction false} InsertInFront<T>(key: T -> seq<KeyPart>, x: T, r: seq<T>)
    requires SortedBy(key, r) && r != []
    requires KeyLess(key(x), key(r[0]))
    ensures SortedBy(key, [x] + r)
  {
    var r' := [x] + r;
    forall i, j | 0 <= i < j < |r'| ensures !KeyLess(key(r'[j]), key(r'[i])) {
      if i == 0 {
        assert r'[j] == r[j - 1];
        if KeyLess(key(r[j - 1]), key(x)) {
          KeyLessTransitive(key(r[j - 1]), key(x), key(r[0]));
          if j - 1 == 0 {
            KeyLessIrreflexive(key(r[0]));
          }
        }
      } else {
        assert r'[i] == r[i - 1] && r'[j] == r[j - 1];
      }
    }
  }

  lemma {:induction false} InsertBehind<T>(key: T -> seq<KeyPart>, x: T, r: seq<T>, rest: seq<T>)
    requires SortedBy(key, r) && r != []
    requires !KeyLess(key(x), key(r[0]))
    requires multiset(rest) == multiset(r[1..]) + multiset{x}
    requires SortedBy(key, rest)
    ensures SortedBy(key, [r[0]] + rest)
  {
    var r' := [r[0]] + rest;
    forall i, j | 0 <= i < j < |r'| ensures !KeyLess(key(r'[j]), key(r'[i])) {
      if i == 0 {
        var y := rest[j - 1];
        assert r'[j] == y;
        assert y in multiset(rest);
        if y != x {
          assert y in multiset(r[1..]);
          var k :| 0 <= k < |r[1..]| && r[1..][k] == y;
          assert r[k + 1] == y;
        }
      } else {
        assert r'[i] == rest[i - 1] && r'[j] == rest[j - 1];
      }
    }
  }

  /** `sorted(xs, key=key)`: the same elements, ordered by key, equal keys in input order. */
  function SortBy<T>(key: T -> seq<KeyPart>, xs: seq<T>): (r: seq<T>)
    ensures multiset(r) == multiset(xs)
    ensures SortedBy(key, r)
  {
    if xs == [] then []
    else
      assert xs == xs[..|xs| - 1] + [xs[|xs| - 1]];
      InsertBy(key, xs[|xs| - 1], SortBy(key, xs[..|xs| - 1]))
  }

  // ---------------------------------------------------------------------------
  // Stability

  /** The elements of `s` whose key is `k`, in their order in `s`. */
  function WithKey<T>(key: T -> seq<KeyPart>, s: seq<T>, k: seq<KeyPart>): seq<T>
  {
    if s == [] then [] else (if key(s[0]) == k then [s[0]] else []) + WithKey(key, s[1..], k)
  }

  lemma {:induction false} WithKeyConcat<T>(key: T -> seq<KeyPart>, a: seq<T>, b: seq<T>, k: seq<KeyPart>)
    ensures WithKey(key, a + b, k) == WithKey(key, a, k) + WithKey(key, b, k)
  {
    if a == [] {
      assert a + b == b;
    } else {
      var x := if key(a[0]) == k then [a[0]] else [];
      assert (a + b)[0] == a[0] && (a + b)[1..] == a[1..] + b;
      assert WithKey(key, a + b, k) == x + WithKey(key, a[1..] + b, k);
      WithKeyConcat(key, a[1..], b, k);
      var p, q := WithKey(key, a[1..], k), WithKey(key, b, k);
      ConcatAssoc(x, p, q);
    }
  }

  lemma {:induction false} WithKeyNone<T>(key: T -> seq<KeyPart>, s: seq<T>, k: seq<KeyPart>)
    requires forall i :: 0 <= i < |s| ==> key(s[i]) != k
    ensures WithKey(key, s, k) == []
  {
    if s != [] {
      WithKeyNone(key, s[1..], k);
    }
  }

  lemma ConcatAssoc<T>(a: seq<T>, b: seq<T>, c: seq<T>)
    ensures a + (b + c) == (a + b) + c
  {
  }

  /** In a sorted list that starts above `x`'s key, no element has `x`'s key. */
  lemma {:induction false} NoneWithKeyBelowFront<T>(key: T -> seq<KeyPart>, x: T, r: seq<T>)
    requires SortedBy(key, r) && r != []
    requires KeyLess(key(x), key(r[0]))
    ensures WithKey(key, r, key(x)) == []
  {
    forall i | 0 <= i < |r| ensures key(r[i]) != key(x) {
      if i == 0 {
        KeyLessIrreflexive(key(x));
      }
    }
    WithKeyNone(key, r, key(x));
  }

  /** `InsertBy` puts `x` behind every element with the same key. */
  lemma {:induction false} InsertByStable<T>(key: T -> seq<KeyPart>, x: T, r: seq<T>, k: seq<KeyPart>)
    requires SortedBy(key, r)
    ensures WithKey(key, InsertBy(key, x, r), k) == WithKey(key, r, k) + (if key(x) == k then [x] else [])
  {
    if r == [] {
      assert InsertBy(key, x, r) == [x];
      assert WithKey(key, [x], k) == (if key(x) == k then [x] else []) + WithKey(key, [x][1..], k);
    } else if KeyLess(key(x), key(r[0])) {
      InsertInFrontStable(key, x, r, k);
    } else {
      InsertByStable(key, x, r[1..], k);
      InsertBehindStable(key, x, r, k);
    }
  }

  lemma InsertInFrontStable<T>(key: T -> seq<KeyPart>, x: T, r: seq<T>, k: seq<KeyPart>)
    requires SortedBy(key, r) && r != [] && KeyLess(key(x), key(r[0]))
    ensures WithKey(key, InsertBy(key, x, r), k) == WithKey(key, r, k) + (if key(x) == k then [x] else [])
  {
    var own := if key(x) == k then [x] else [];
    assert InsertBy(key, x, r) == [x] + r;
    assert ([x] + r)[0] == x && ([x] + r)[1..] == r;
    assert WithKey(key, [x] + r, k) == own + WithKey(key, r, k);
    if key(x) == k {
      NoneWithKeyBelowFront(key, x, r);
      assert own + [] == [] + own;
    } else {
      assert [] + WithKey(key, r, k) == WithKey(key, r, k) + [];
    }
  }

  lemma InsertBehindStable<T>(key: T -> seq<KeyPart>, x: T, r: seq<T>, k: seq<KeyPart>)
    requires SortedBy(key, r) && r != [] && !KeyLess(key(x), key(r[0]))
    requires WithKey(key, InsertBy(key, x, r[1..]), k) == WithKey(key, r[1..], k) + (if key(x) == k then [x] else [])
    ensures WithKey(key, InsertBy(key, x, r), k) == WithKey(key, r, k) + (if key(x) == k then [x] else [])
  {
    var own := if key(x) == k then [x] else [];
    var y := if key(r[0]) == k then [r[0]] else [];
    var rest := InsertBy(key, x, r[1..]);
    assert InsertBy(key, x, r) == [r[0]] + rest;
    assert ([r[0]] + rest)[0] == r[0] && ([r[0]] + rest)[1..] == rest;
    assert WithKey(key, [r[0]] + rest, k) == y + WithKey(key, rest, k);
    var p := WithKey(key, r[1..], k);
    assert WithKey(key, r, k) == y + p;
    ConcatAssoc(y, p, own);
  }

  /** `sorted` is stable: the elements with any one key come out in their input order. */
  lemma {:induction false} SortByStable<T>(key: T -> seq<KeyPart>, xs: seq<T>, k: seq<KeyPart>)
    ensures WithKey(key, SortBy(key, xs), k) == WithKey(key, xs, k)
  {
    if xs != [] {
      var init := xs[..|xs| - 1];
      var last := xs[|xs| - 1];
      var sorted := SortBy(key, init);
      assert SortBy(key, xs) == InsertBy(key, last, sorted);
      SortByStable(key, init, k);
      InsertByStable(key, last, sorted, k);
      WithKeySnoc(key, xs, k);
    }
  }

  lemma WithKeySnoc<T>(key: T -> seq<KeyPart>, xs: seq<T>, k: seq<KeyPart>)
    requires xs != []
    ensures WithKey(key, xs, k) == WithKey(key, xs[..|xs| - 1], k) + (if key(xs[|xs| - 1]) == k then [xs[|xs| - 1]] else [])
  {
    var last := xs[|xs| - 1];
    assert xs == xs[..|xs| - 1] + [last];
    WithKeyConcat(key, xs[..|xs| - 1], [last], k);
    assert WithKey(key, [last], k) == (if key(last) == k then [last] else []);
  }

  /** `sorted(files, key=natural_sort_key)`: the same names in natural order, and names with
      the same key in their listing order. */
  function SortByNaturalKey(files: seq<string>): (r: seq<string>)
    ensures multiset(r) == multiset(files)
    ensures forall i, j :: 0 <= i < j < |r| ==> !KeyLess(NaturalSortKey(r[j]), NaturalSortKey(r[i]))
    ensures forall k :: WithKey(NaturalSortKey, r, k) == WithKey(NaturalSortKey, files, k)
  {
    forall k ensures WithKey(NaturalSortKey, SortBy(NaturalSortKey, files), k) == WithKey(NaturalSortKey, files, k) {
      SortByStable(NaturalSortKey, files, k);
    }
    SortBy(NaturalSortKey, files)
  }
}
