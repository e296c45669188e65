/**
 * The backend's helper functions (services/backend/app/helper/helper.py): tallying the
 * per-frame predictions of one model, the mode of an array, snake-casing a string and
 * turning numpy arrays inside a JSON-like value into lists.
 */
module BackendHelper {
  import opened Wrappers
  import opened Text
  import opened OrderedDict

  // ---------------------------------------------------------------------------
  // Counting

  /** How many times `x` occurs in `s`. */
  function Count<T(==)>(s: seq<T>, x: T): (n: nat)
    ensures n <= |s|
  {
    if s == [] then 0 else Count(s[..|s| - 1], x) + (if s[|s| - 1] == x then 1 else 0)
  }

  /** `Count` is the multiplicity of `x` in the multiset of `s`, what `Counter` tallies. */
  lemma {:induction false} CountIsMultiplicity<T>(s: seq<T>, x: T)
    ensures Count(s, x) == multiset(s)[x]
  {
    if s != [] {
      CountIsMultiplicity(s[..|s| - 1], x);
      assert s == s[..|s| - 1] + [s[|s| - 1]];
    }
  }

  /** The distinct elements of `s`, in the order of their first occurrence. */
  function Distinct<T(==)>(s: seq<T>): (d: seq<T>)
  {
    if s == [] then [] else
      var front := Distinct(s[..|s| - 1]);
      if s[|s| - 1] in front then front else front + [s[|s| - 1]]
  }

  lemma {:induction false} CountAppend<T>(s: seq<T>, y: T, x: T)
    ensures Count(s + [y], x) == Count(s, x) + (if y == x then 1 else 0)
  {
    assert (s + [y])[..|s|] == s;
  }

  lemma {:induction false} CountPositiveIffIn<T>(s: seq<T>, x: T)
    ensures Count(s, x) > 0 <==> x in s
  {
    if s != [] {
      CountPositiveIffIn(s[..|s| - 1], x);
      assert s == s[..|s| - 1] + [s[|s| - 1]];
    }
  }

  /** `Distinct(s)` lists each element of `s` exactly once. */
  lemma {:induction false} DistinctSpec<T>(s: seq<T>)
    ensures forall x :: x in Distinct(s) <==> x in s
    ensures forall i, j :: 0 <= i < j < |Distinct(s)| ==> Distinct(s)[i] != Distinct(s)[j]
  {
    if s != [] {
      DistinctSpec(s[..|s| - 1]);
      assert s == s[..|s| - 1] + [s[|s| - 1]];
    }
  }

  /** `Counter(s)`: one entry per distinct element, in first-occurrence order, with its count. */
  function CountLabels(s: seq<string>): (counts: Dict<nat>)
    ensures Keys(counts) == Distinct(s)
    ensures forall i :: 0 <= i < |counts| ==> counts[i].1 == Count(s, counts[i].0)
  {
    var labels := Distinct(s);
    seq(|labels|, i requires 0 <= i < |labels| => (labels[i], Count(s, labels[i])))
  }

  // ---------------------------------------------------------------------------
  // get_calculate_from_predict

  /** One row of `list_predictions`: a label, how often it was predicted, and its share in
      percent (exact; the two-decimal rounding is not modelled). */
  datatype PredictionCount = PredictionCount(name: string, count: nat, percentage: real)

  function Names(list: seq<PredictionCount>): (names: seq<string>)
    ensures |names| == |list|
    ensures forall i :: 0 <= i < |list| ==> names[i] == list[i].name
  {
    if list == [] then [] else [list[0].name] + Names(list[1..])
  }

  /** Entry `k` has the largest count, and every entry before it has a strictly smaller one. */
  predicate IsEarliestMax(list: seq<PredictionCount>, k: int) {
    && 0 <= k < |list|
    && (forall j :: 0 <= j < |list| ==> list[j].count <= list[k].count)
    && (forall j :: 0 <= j < k ==> list[j].count < list[k].count)
  }

  /** `count / total * 100`, before rounding. */
  function Percentage(count: nat, total: nat): real
    requires total > 0
  {
    count as real / total as real * 100.0
  }

  /** The majority label and one count per distinct label. The list follows the first
      occurrence of each label; the majority is the earliest label with the largest count
      (the comparison is a strict `>`), and no result exists for an empty input, where
      nothing is divided by the zero total. */
  method GetCalculateFromPredict(predictions: seq<string>) returns (result: Option<string>, list: seq<PredictionCount>)
    ensures Names(list) == Distinct(predictions)
    ensures forall j :: 0 <= j < |list| ==> list[j].count == Count(predictions, list[j].name)
    ensures forall j :: 0 <= j < |list| ==>
              |predictions| > 0 && list[j].percentage == Percentage(list[j].count, |predictions|)
    ensures result.None? <==> predictions == []
    ensures result.Some? ==> exists k :: IsEarliestMax(list, k) && list[k].name == result.value
  {
    var counts := CountLabels(predictions);
    var total := |predictions|;
    result := None;
    var mostCommonCount := 0;
    list := [];
    ghost var best := 0;
    CountsArePositive(predictions, counts);
    for i := 0 to |counts|
      invariant |list| == i
      invariant total > 0 || i == 0
      invariant forall j :: 0 <= j < i ==> list[j] == Tallied(counts[j], total)
      invariant result.None? <==> i == 0
      invariant i > 0 ==> best < i && IsEarliestMax(list, best) && list[best].name == result.value
      invariant i > 0 ==> mostCommonCount == list[best].count
      invariant i == 0 ==> mostCommonCount == 0
    {
      var (category, count) := counts[i];
      var percentage := Percentage(count, total);
      var entry := PredictionCount(category, count, percentage);
      if i > 0 {
        EarliestMaxSnoc(list, best, entry);
      }
      TalliedSnoc(list, counts, total, entry);
      list := list + [entry];
      if count > mostCommonCount {
        mostCommonCount := count;
        result := Some(category);
        best := i;
      }
    }
    TallyMatchesCounter(predictions, counts, list);
  }

  /** The row of one counter entry. */
  function Tallied(c: (string, nat), total: nat): (p: PredictionCount)
  {
    PredictionCount(c.0, c.1, if total > 0 then Percentage(c.1, total) else 0.0)
  }

  lemma TalliedSnoc(list: seq<PredictionCount>, counts: Dict<nat>, total: nat, e: PredictionCount)
    requires |list| < |counts| && total > 0
    requires forall j :: 0 <= j < |list| ==> list[j] == Tallied(counts[j], total)
    requires e == PredictionCount(counts[|list|].0, counts[|list|].1, Percentage(counts[|list|].1, total))
    ensures forall j :: 0 <= j <= |list| ==> (list + [e])[j] == Tallied(counts[j], total)
  {
  }

  /** Appending an entry moves the earliest maximum to it exactly when its count is larger. */
  lemma EarliestMaxSnoc(list: seq<PredictionCount>, best: int, e: PredictionCount)
    requires IsEarliestMax(list, best)
    ensures e.count > list[best].count ==> IsEarliestMax(list + [e], |list|)
    ensures e.count <= list[best].count ==> IsEarliestMax(list + [e], best)
  {
  }

  /** A list that copies the counter entry by entry names the distinct labels with their counts. */
  lemma TallyMatchesCounter(predictions: seq<string>, counts: Dict<nat>, list: seq<PredictionCount>)
    requires counts == CountLabels(predictions)
    requires |list| == |counts|
    requires forall j :: 0 <= j < |list| ==> list[j].name == counts[j].0 && list[j].count == counts[j].1
    ensures Names(list) == Distinct(predictions)
    ensures forall j :: 0 <= j < |list| ==> list[j].count == Count(predictions, list[j].name)
    ensures predictions != [] <==> |list| > 0
  {
    assert Names(list) == Keys(counts);
    if predictions != [] {
      DistinctSpec(predictions);
      assert predictions[0] in Distinct(predictions);
    }
  }

  /** Every label the counter lists occurs at least once, so the total is positive. */
  lemma CountsArePositive(predictions: seq<string>, counts: Dict<nat>)
    requires Keys(counts) == Distinct(predictions)
    requires forall i :: 0 <= i < |counts| ==> counts[i].1 == Count(predictions, counts[i].0)
    ensures forall i :: 0 <= i < |counts| ==> counts[i].1 >= 1 && |predictions| > 0
  {
    DistinctSpec(predictions);
    forall i | 0 <= i < |counts| ensures counts[i].1 >= 1 {
      assert Keys(counts)[i] in predictions;
      CountPositiveIffIn(predictions, counts[i].0);
    }
  }

  /** Sum of the counts of a list. */
  function TotalCount(list: seq<PredictionCount>): nat
  {
    if list == [] then 0 else list[0].count + TotalCount(list[1..])
  }

  /** Summing, over a list of distinct labels, how often each occurs in `s`. */
  function CountOver(s: seq<string>, labels: seq<string>): nat
  {
    if labels == [] then 0 else Count(s, labels[0]) + CountOver(s, labels[1..])
  }

  lemma {:induction false} CountOverAppend(s: seq<string>, x: string, labels: seq<string>)
    requires forall i, j :: 0 <= i < j < |labels| ==> labels[i] != labels[j]
    ensures CountOver(s + [x], labels) == CountOver(s, labels) + (if x in labels then 1 else 0)
  {
    if labels != [] {
      CountAppend(s, x, labels[0]);
      CountOverAppend(s, x, labels[1..]);
      assert x in labels <==> x == labels[0] || x in labels[1..];
      if x == labels[0] {
        assert x !in labels[1..] by {
          forall j | 0 <= j < |labels| - 1 ensures labels[1..][j] != x {
            assert labels[0] != labels[j + 1];
          }
        }
      }
    }
  }

  /** Counting every distinct label accounts for every element exactly once. */
  lemma {:induction false} CountOverDistinct(s: seq<string>)
    ensures CountOver(s, Distinct(s)) == |s|
  {
    if s != [] {
      var front := s[..|s| - 1];
      var x := s[|s| - 1];
      assert s == front + [x];
      CountOverDistinct(front);
      DistinctSpec(front);
      CountOverAppend(front, x, Distinct(front));
      assert s[..|s| - 1] == front;
      CountAppend(front, x, x);
      if x !in Distinct(front) {
        assert Distinct(s) == Distinct(front) + [x];
        CountOverSnoc(s, Distinct(front), x);
        CountPositiveIffIn(front, x);
      } else {
        assert Distinct(s) == Distinct(front);
      }
    }
  }

  lemma {:induction false} CountOverSnoc(s: seq<string>, labels: seq<string>, x: string)
    ensures CountOver(s, labels + [x]) == CountOver(s, labels) + Count(s, x)
  {
    if labels != [] {
      CountOverSnoc(s, labels[1..], x);
      assert (labels + [x])[1..] == labels[1..] + [x];
    }
  }

  lemma {:induction false} TotalCountIsCountOver(s: seq<string>, list: seq<PredictionCount>)
    requires forall j :: 0 <= j < |list| ==> list[j].count == Count(s, list[j].name)
    ensures TotalCount(list) == CountOver(s, Names(list))
  {
    if list != [] {
      TotalCountIsCountOver(s, list[1..]);
      assert Names(list)[1..] == Names(list[1..]);
    }
  }

  /** The tally's counts are all at least one, its labels are distinct, and the counts add
      up to the number of predictions. */
  lemma TallyCountsSum(predictions: seq<string>, list: seq<PredictionCount>)
    requires Names(list) == Distinct(predictions)
    requires forall j :: 0 <= j < |list| ==> list[j].count == Count(predictions, list[j].name)
    ensures forall j :: 0 <= j < |list| ==> list[j].count >= 1
    ensures forall i, j :: 0 <= i < j < |list| ==> list[i].name != list[j].name
    ensures TotalCount(list) == |predictions|
  {
    DistinctSpec(predictions);
    forall j | 0 <= j < |list| ensures list[j].count >= 1 {
      assert Names(list)[j] in predictions;
      CountPositiveIffIn(predictions, list[j].name);
    }
    forall i, j | 0 <= i < j < |list| ensures list[i].name != list[j].name {
      assert Names(list)[i] == Distinct(predictions)[i];
    }
    TotalCountIsCountOver(predictions, list);
    CountOverDistinct(predictions);
  }

  // ---------------------------------------------------------------------------
  // average

  /** `x` is at least as good a mode as `y`: more frequent, or as frequent and not larger. */
  predicate ModeBeats(arr: seq<int>, x: int, y: int) {
    Count(arr, x) > Count(arr, y) || (Count(arr, x) == Count(arr, y) && x <= y)
  }

  /** The best mode among `candidates`. */
  function BestMode(arr: seq<int>, candidates: seq<int>): (m: int)
    requires candidates != []
    ensures m in candidates
    ensures forall y :: y in candidates ==> ModeBeats(arr, m, y)
  {
    if |candidates| == 1 then candidates[0]
    else
      var rest := BestMode(arr, candidates[1..]);
      assert forall y :: y in candidates ==> y == candidates[0] || y in candidates[1..];
      if ModeBeats(arr, candidates[0], rest) then candidates[0] else rest
  }

  /** `average`: the most frequent value; `np.unique` sorts, so ties go to the smallest
      value. An empty array makes `np.argmax` raise. */
  function Average(arr: seq<int>): (r: Result<int>)
    ensures r.Err? <==> arr == []
    ensures r.Ok? ==> r.value in arr
    ensures r.Ok? ==> forall y :: y in arr ==>
              Count(arr, y) < Count(arr, r.value) || (Count(arr, y) == Count(arr, r.value) && r.value <= y)
  {
    if arr == [] then Err("attempt to get argmax of an empty sequence")
    else Ok(BestMode(arr, arr))
  }

  // ---------------------------------------------------------------------------
  // to_snake_case

  /** The whitespace at the front of `s`, dropped. */
  function DropSpaces(s: string): (r: string)
    ensures |r| <= |s| && r == s[|s| - |r|..]
    ensures r == [] || !IsSpace(r[0])
  {
    if s != [] && IsSpace(s[0]) then DropSpaces(s[1..]) else s
  }

  /** `re.sub(r'\s+', '_', s)`: each run of whitespace becomes one `_`. */
  function CollapseSpaces(s: string): (r: string)
    ensures forall i :: 0 <= i < |r| ==> !IsSpace(r[i])
    ensures (forall i :: 0 <= i < |s| ==> !IsUpper(s[i])) ==> forall i :: 0 <= i < |r| ==> !IsUpper(r[i])
    decreases |s|
  {
    if s == [] then []
    else if IsSpace(s[0]) then
      var rest := DropSpaces(s[1..]);
      assert forall i :: 0 <= i < |rest| ==> rest[i] == s[|s| - |rest| + i];
      "_" + CollapseSpaces(rest)
    else [s[0]] + CollapseSpaces(s[1..])
  }

  /** `to_snake_case`: lower-case, then one `_` per whitespace run. */
  function ToSnakeCase(s: string): string
  {
    CollapseSpaces(Lower(s))
  }

  lemma {:induction false} DropSpacesOfRun(w: string, b: string)
    requires forall i :: 0 <= i < |w| ==> IsSpace(w[i])
    requires b == [] || !IsSpace(b[0])
    ensures DropSpaces(w + b) == b
  {
    if w != [] {
      assert (w + b)[1..] == w[1..] + b;
      DropSpacesOfRun(w[1..], b);
    }
  }

  /** Text without whitespace is kept as it is. */
  lemma {:induction false} CollapseSpacesKeeps(a: string)
    requires forall i :: 0 <= i < |a| ==> !IsSpace(a[i])
    ensures CollapseSpaces(a) == a
  {
    if a != [] {
      CollapseSpacesKeeps(a[1..]);
    }
  }

  /** A whitespace run between text without whitespace and text that does not start with
      whitespace is replaced by exactly one `_`. */
  lemma {:induction false} CollapseSpacesRun(a: string, w: string, b: string)
    requires forall i :: 0 <= i < |a| ==> !IsSpace(a[i])
    requires w != [] && forall i :: 0 <= i < |w| ==> IsSpace(w[i])
    requires b == [] || !IsSpace(b[0])
    ensures CollapseSpaces(a + w + b) == a + "_" + CollapseSpaces(b)
  {
    var s := a + w + b;
    if a == [] {
      assert s == w + b;
      CollapseLeadingSpaces(w, b);
    } else {
      var tail := a[1..] + w + b;
      assert s[0] == a[0] && !IsSpace(s[0]);
      assert s[1..] == tail;
      CollapseSpacesRun(a[1..], w, b);
      var c := CollapseSpaces(b);
      calc {
        CollapseSpaces(s);
        [a[0]] + CollapseSpaces(tail);
        [a[0]] + (a[1..] + "_" + c);
        { assert [a[0]] + a[1..] == a; }
        a + "_" + c;
      }
    }
  }

  lemma {:induction false} CollapseLeadingSpaces(w: string, b: string)
    requires w != [] && forall i :: 0 <= i < |w| ==> IsSpace(w[i])
    requires b == [] || !IsSpace(b[0])
    ensures CollapseSpaces(w + b) == "_" + CollapseSpaces(b)
  {
    var s := w + b;
    assert s[0] == w[0];
    assert s[1..] == w[1..] + b;
    DropSpacesOfRun(w[1..], b);
  }

  /** The result is lower-case and has no whitespace. */
  lemma SnakeCaseShape(s: string)
    ensures forall i :: 0 <= i < |ToSnakeCase(s)| ==> !IsUpper(ToSnakeCase(s)[i]) && !IsSpace(ToSnakeCase(s)[i])
  {
  }

  /** Snake-casing twice is snake-casing once. */
  lemma SnakeCaseIdempotent(s: string)
    ensures ToSnakeCase(ToSnakeCase(s)) == ToSnakeCase(s)
  {
    var r := ToSnakeCase(s);
    SnakeCaseShape(s);
    assert Lower(r) == r;
    CollapseSpacesKeeps(r);
  }

  // ---------------------------------------------------------------------------
  // convert_ndarray_to_list

  /** The Python values that reach `convert_ndarray_to_list`: scalars, numpy arrays, lists
      and string-keyed dictionaries (in insertion order). */
  datatype PyValue =
    | PyNone
    | PyBool(b: bool)
    | PyInt(i: int)
    | PyFloat(f: real)
    | PyStr(s: string)
    | NdArray(elems: seq<PyValue>)
    | PyList(items: seq<PyValue>)
    | PyDict(entries: seq<(string, PyValue)>)

  predicate IsContainer(v: PyValue) { v.NdArray? || v.PyList? || v.PyDict? }

  /** `ndarray.tolist()`: nested arrays become nested lists; other elements are returned as they are. */
  function ArrayToList(v: PyValue): PyValue
    decreases v
  {
    match v
    case NdArray(elems) => PyList(seq(|elems|, i requires 0 <= i < |elems| => ArrayToList(elems[i])))
    case _ => v
  }

  function ConvertNdarrayToList(v: PyValue): (r: PyValue)
    decreases v
  {
    match v
    case NdArray(_) => ArrayToList(v)
    case PyList(items) => PyList(seq(|items|, i requires 0 <= i < |items| => ConvertNdarrayToList(items[i])))
    case PyDict(entries) =>
      PyDict(seq(|entries|, i requires 0 <= i < |entries| => (entries[i].0, ConvertNdarrayToList(entries[i].1))))
    case _ => v
  }

  /** Lists keep their length, dictionaries keep their keys in order, and values that are
      not containers are returned unchanged. */
  lemma ConvertShape(v: PyValue)
    ensures !IsContainer(v) ==> ConvertNdarrayToList(v) == v
    ensures v.PyList? ==> ConvertNdarrayToList(v).PyList? && |ConvertNdarrayToList(v).items| == |v.items|
    ensures v.NdArray? ==> ConvertNdarrayToList(v).PyList? && |ConvertNdarrayToList(v).items| == |v.elems|
    ensures v.PyDict? ==> ConvertNdarrayToList(v).PyDict? && Keys(ConvertNdarrayToList(v).entries) == Keys(v.entries)
  {
  }

  /** Arrays as numpy builds them from numbers: every element is a number or an array. */
  predicate NumericArrays(v: PyValue)
    decreases v
  {
    match v
    case NdArray(elems) => forall i :: 0 <= i < |elems| ==> (elems[i].PyInt? || elems[i].PyFloat? || elems[i].PyBool? || elems[i].NdArray?) && NumericArrays(elems[i])
    case PyList(items) => forall i :: 0 <= i < |items| ==> NumericArrays(items[i])
    case PyDict(entries) => forall i :: 0 <= i < |entries| ==> NumericArrays(entries[i].1)
    case _ => true
  }

  predicate NoArrays(v: PyValue)
    decreases v
  {
    match v
    case NdArray(_) => false
    case PyList(items) => forall i :: 0 <= i < |items| ==> NoArrays(items[i])
    case PyDict(entries) => forall i :: 0 <= i < |entries| ==> NoArrays(entries[i].1)
    case _ => true
  }

  lemma {:induction false} ArrayToListRemovesArrays(v: PyValue)
    requires NumericArrays(v) && (v.NdArray? || !IsContainer(v))
    ensures NoArrays(ArrayToList(v))
    decreases v
  {
    if v.NdArray? {
      forall i | 0 <= i < |v.elems| ensures NoArrays(ArrayToList(v.elems[i])) {
        ArrayToListRemovesArrays(v.elems[i]);
      }
    }
  }

  /** Once numeric arrays are converted, no numpy array is left anywhere in the value. */
  lemma {:induction false} ConvertRemovesArrays(v: PyValue)
    requires NumericArrays(v)
    ensures NoArrays(ConvertNdarrayToList(v))
    decreases v
  {
    match v
    case NdArray(_) => ArrayToListRemovesArrays(v);
    case PyList(items) =>
      forall i | 0 <= i < |items| ensures NoArrays(ConvertNdarrayToList(items[i])) {
        ConvertRemovesArrays(items[i]);
      }
    case PyDict(entries) =>
      forall i | 0 <= i < |entries| ensures NoArrays(ConvertNdarrayToList(entries[i].1)) {
        assert entries[i].1 < v by { assert entries[i] in entries; }
        ConvertRemovesArrays(entries[i].1);
      }
    case _ =>
  }

  /** A value without arrays is returned unchanged. */
  lemma {:induction false} ConvertKeepsArrayFree(v: PyValue)
    requires NoArrays(v)
    ensures ConvertNdarrayToList(v) == v
    decreases v
  {
    match v
    case PyList(items) =>
      forall i | 0 <= i < |items| ensures ConvertNdarrayToList(items[i]) == items[i] {
        ConvertKeepsArrayFree(items[i]);
      }
      assert ConvertNdarrayToList(v).items == items;
    case PyDict(entries) =>
      forall i | 0 <= i < |entries| ensures ConvertNdarrayToList(entries[i].1) == entries[i].1 {
        assert entries[i].1 < v by { assert entries[i] in entries; }
        ConvertKeepsArrayFree(entries[i].1);
      }
      assert ConvertNdarrayToList(v).entries == entries;
    case _ =>
  }

  /** For numeric arrays, converting twice is converting once. */
  lemma ConvertIdempotent(v: PyValue)
    requires NumericArrays(v)
    ensures ConvertNdarrayToList(ConvertNdarrayToList(v)) == ConvertNdarrayToList(v)
  {
    ConvertRemovesArrays(v);
    ConvertKeepsArrayFree(ConvertNdarrayToList(v));
  }
}
