/**
 * The per-component feature bookkeeping of `_extract_features_from_frames`
 * (services/backend/app/controller/DataModelController.py): every motion vector of a
 * component adds four `{component}-X{i}`-style columns to the feature row, and the vectors
 * are summed and counted per quadrant into the twenty `{component}_{feature}_{Q}` columns
 * of the quadrant row.
 */
module Quadrants {
  import opened Text
  import opened OrderedDict
  import opened Constants

  /** One row of `Quadran.getQuadran()` as the controller reads it: `quad[1]` to `quad[4]`
      are x, y, theta and magnitude, `quad[5]` the quadrant label (`quad[0]` is unused). */
  datatype QuadVector = QuadVector(x: real, y: real, theta: real, magnitude: real, quadrant: string)

  /** The five aggregates of one quadrant: `sumX`, `sumY`, `Tetha`, `Magnitude` and
      `JumlahQuadran` (the number of vectors). The sums are exact reals: float rounding is
      not modelled, and an empty quadrant's int `0` is the real `0.0`. */
  datatype QuadrantTotals = QuadrantTotals(sumX: real, sumY: real, tetha: real, magnitude: real, count: nat)

  const ZERO: QuadrantTotals := QuadrantTotals(0.0, 0.0, 0.0, 0.0, 0)

  /** A value of a feature row: a text, a measurement or a count. */
  datatype Cell = CStr(s: string) | CNum(r: real) | CCount(n: nat)

  /** A row under construction: a dict from column name to value. */
  type Row = Dict<Cell>

  // ---------------------------------------------------------------------------
  // Specification of the sums

  /** The vectors labelled `q`, in order. */
  function Labelled(vs: seq<QuadVector>, q: string): (r: seq<QuadVector>)
    ensures |r| <= |vs|
    ensures forall i :: 0 <= i < |r| ==> r[i].quadrant == q
  {
    if vs == [] then []
    else
      var front := Labelled(vs[..|vs| - 1], q);
      if vs[|vs| - 1].quadrant == q then front + [vs[|vs| - 1]] else front
  }

  function Add(t: QuadrantTotals, v: QuadVector): QuadrantTotals
  {
    QuadrantTotals(t.sumX + v.x, t.sumY + v.y, t.tetha + v.theta, t.magnitude + v.magnitude, t.count + 1)
  }

  /** The field sums and the number of `vs`. */
  function Totals(vs: seq<QuadVector>): (t: QuadrantTotals)
    ensures t.count == |vs|
  {
    if vs == [] then ZERO else Add(Totals(vs[..|vs| - 1]), vs[|vs| - 1])
  }

  lemma {:induction false} LabelledSnoc(vs: seq<QuadVector>, v: QuadVector, q: string)
    ensures Labelled(vs + [v], q) == Labelled(vs, q) + (if v.quadrant == q then [v] else [])
  {
    assert (vs + [v])[..|vs|] == vs;
  }

  lemma {:induction false} TotalsSnoc(vs: seq<QuadVector>, v: QuadVector)
    ensures Totals(vs + [v]) == Add(Totals(vs), v)
  {
    assert (vs + [v])[..|vs|] == vs;
  }

  /** The position of a quadrant label in `QUADRAN_DIMENSIONS`, or -1 when it is not one. */
  function QuadrantIndex(name: string): (q: int)
    ensures -1 <= q < 4
    ensures q >= 0 <==> name in QUADRAN_DIMENSIONS
    ensures q >= 0 ==> QUADRAN_DIMENSIONS[q] == name
  {
    if name == "Q1" then 0 else if name == "Q2" then 1 else if name == "Q3" then 2 else if name == "Q4" then 3 else -1
  }

  /** A quadrant without vectors keeps all five aggregates at zero. */
  lemma {:induction false} EmptyQuadrantIsZero(vs: seq<QuadVector>, q: string)
    requires forall i :: 0 <= i < |vs| ==> vs[i].quadrant != q
    ensures Totals(Labelled(vs, q)) == ZERO
  {
    if vs != [] {
      EmptyQuadrantIsZero(vs[..|vs| - 1], q);
    }
  }

  /** A vector whose label is not a quadrant name changes no quadrant's aggregates. */
  lemma {:induction false} OtherLabelsIgnored(vs: seq<QuadVector>, v: QuadVector)
    requires v.quadrant !in QUADRAN_DIMENSIONS
    ensures forall q :: 0 <= q < 4 ==>
      Totals(Labelled(vs + [v], QUADRAN_DIMENSIONS[q])) == Totals(Labelled(vs, QUADRAN_DIMENSIONS[q]))
  {
    forall q | 0 <= q < 4
      ensures Totals(Labelled(vs + [v], QUADRAN_DIMENSIONS[q])) == Totals(Labelled(vs, QUADRAN_DIMENSIONS[q]))
    {
      LabelledSnoc(vs, v, QUADRAN_DIMENSIONS[q]);
      assert Labelled(vs + [v], QUADRAN_DIMENSIONS[q]) == Labelled(vs, QUADRAN_DIMENSIONS[q]);
    }
  }

  /** The vectors whose label is a quadrant name. */
  function InQuadrants(vs: seq<QuadVector>): (r: seq<QuadVector>)
    ensures |r| <= |vs|
  {
    if vs == [] then []
    else
      var front := InQuadrants(vs[..|vs| - 1]);
      if vs[|vs| - 1].quadrant in QUADRAN_DIMENSIONS then front + [vs[|vs| - 1]] else front
  }

  function CountSum(vs: seq<QuadVector>): nat
  {
    Totals(Labelled(vs, "Q1")).count + Totals(Labelled(vs, "Q2")).count
      + Totals(Labelled(vs, "Q3")).count + Totals(Labelled(vs, "Q4")).count
  }

  /** The four `JumlahQuadran` counts add up to the number of vectors with a quadrant label:
      every such vector is counted exactly once. */
  lemma {:induction false} CountsAddUp(vs: seq<QuadVector>)
    ensures CountSum(vs) == |InQuadrants(vs)|
  {
    if vs != [] {
      var front := vs[..|vs| - 1];
      var v := vs[|vs| - 1];
      assert vs == front + [v];
      CountsAddUp(front);
      LabelledSnoc(front, v, "Q1");
      LabelledSnoc(front, v, "Q2");
      LabelledSnoc(front, v, "Q3");
      LabelledSnoc(front, v, "Q4");
    }
  }

  // ---------------------------------------------------------------------------
  // Column names

  /** `f'{component}-X{i+1}'` and its siblings: the four columns of vector `i`. */
  function VectorEntries(component: string, i: nat, v: QuadVector): (es: Row)
    ensures |es| == 4
  {
    var n := NatToString(i + 1);
    [(component + "-X" + n, CNum(v.x)), (component + "-Y" + n, CNum(v.y)),
     (component + "-Tetha" + n, CNum(v.theta)), (component + "-Magnitude" + n, CNum(v.magnitude))]
  }

  /** The feature-row writes of a component, in the order the loop makes them. */
  function FeatureEntries(component: string, vs: seq<QuadVector>): (es: Row)
    ensures |es| == 4 * |vs|
  {
    if vs == [] then []
    else FeatureEntries(component, vs[..|vs| - 1]) + VectorEntries(component, |vs| - 1, vs[|vs| - 1])
  }

  /** `f"{component_name}_{feature}_{quadran_dim}"`. */
  function ColumnName(component: string, feature: string, quadrant: string): string
  {
    component + "_" + feature + "_" + quadrant
  }

  /** The value written for aggregate number `f` of `FRAMES_DATA_QUADRAN_COMPONENTS`. */
  function TotalsField(t: QuadrantTotals, f: nat): Cell
    requires f < 5
  {
    if f == 0 then CNum(t.sumX)
    else if f == 1 then CNum(t.sumY)
    else if f == 2 then CNum(t.tetha)
    else if f == 3 then CNum(t.magnitude)
    else CCount(t.count)
  }

  /** The twenty quadrant-row writes of a component: quadrant by quadrant, and within a
      quadrant aggregate by aggregate. */
  function QuadrantEntries(component: string, totals: seq<QuadrantTotals>): (es: Row)
    requires |totals| == 4
    ensures |es| == 20
    ensures forall j :: 0 <= j < 20 ==>
      es[j] == (ColumnName(component, FRAMES_DATA_QUADRAN_COMPONENTS[j % 5], QUADRAN_DIMENSIONS[j / 5]), TotalsField(totals[j / 5], j % 5))
  {
    seq(20, j requires 0 <= j < 20 =>
      (ColumnName(component, FRAMES_DATA_QUADRAN_COMPONENTS[j % 5], QUADRAN_DIMENSIONS[j / 5]), TotalsField(totals[j / 5], j % 5)))
  }

  // ---------------------------------------------------------------------------
  // The loops

  /** `for i, quad in enumerate(quadran)`: the feature columns of every vector are written
      into `row`, and the vectors are summed per quadrant (lines 316-328). */
  method AggregateQuadrants(component: string, quadran: seq<QuadVector>, row: Row)
    returns (row': Row, totals: seq<QuadrantTotals>)
    ensures row' == PutAll(row, FeatureEntries(component, quadran))
    ensures |totals| == 4
    ensures forall q :: 0 <= q < 4 ==> totals[q] == Totals(Labelled(quadran, QUADRAN_DIMENSIONS[q]))
  {
    totals := [ZERO, ZERO, ZERO, ZERO];
    row' := row;
    for i := 0 to |quadran|
      invariant row' == PutAll(row, FeatureEntries(component, quadran[..i]))
      invariant |totals| == 4
      invariant forall q :: 0 <= q < 4 ==> totals[q] == Totals(Labelled(quadran[..i], QUADRAN_DIMENSIONS[q]))
    {
      var quad := quadran[i];
      var n := NatToString(i + 1);
      ghost var before := row';
      row' := Put(row', component + "-X" + n, CNum(quad.x));
      row' := Put(row', component + "-Y" + n, CNum(quad.y));
      row' := Put(row', component + "-Tetha" + n, CNum(quad.theta));
      row' := Put(row', component + "-Magnitude" + n, CNum(quad.magnitude));
      FeatureStep(row, component, quadran, i, before, row');
      var q := QuadrantIndex(quad.quadrant);
      if q >= 0 {
        totals := totals[q := Add(totals[q], quad)];
      }
      TotalsStep(quadran, i, q, totals);
    }
    assert quadran[..|quadran|] == quadran;
  }

  lemma {:induction false} FeatureStep(row: Row, component: string, quadran: seq<QuadVector>, i: nat, before: Row, after: Row)
    requires i < |quadran|
    requires before == PutAll(row, FeatureEntries(component, quadran[..i]))
    requires var es := VectorEntries(component, i, quadran[i]);
      after == Put(Put(Put(Put(before, es[0].0, es[0].1), es[1].0, es[1].1), es[2].0, es[2].1), es[3].0, es[3].1)
    ensures after == PutAll(row, FeatureEntries(component, quadran[..i + 1]))
  {
    var es := VectorEntries(component, i, quadran[i]);
    PutAllFour(before, es);
    assert quadran[..i + 1][..i] == quadran[..i];
    PutAllAppend(row, FeatureEntries(component, quadran[..i]), es);
  }

  lemma {:induction false} TotalsStep(quadran: seq<QuadVector>, i: nat, q: int, totals: seq<QuadrantTotals>)
    requires i < |quadran| && q == QuadrantIndex(quadran[i].quadrant) && |totals| == 4
    requires forall p :: 0 <= p < 4 ==>
      totals[p] == (if p == q then Add(Totals(Labelled(quadran[..i], QUADRAN_DIMENSIONS[p])), quadran[i])
                    else Totals(Labelled(quadran[..i], QUADRAN_DIMENSIONS[p])))
    ensures forall p :: 0 <= p < 4 ==> totals[p] == Totals(Labelled(quadran[..i + 1], QUADRAN_DIMENSIONS[p]))
  {
    assert quadran[..i + 1] == quadran[..i] + [quadran[i]];
    forall p | 0 <= p < 4 ensures totals[p] == Totals(Labelled(quadran[..i + 1], QUADRAN_DIMENSIONS[p])) {
      LabelledSnoc(quadran[..i], quadran[i], QUADRAN_DIMENSIONS[p]);
      if p == q {
        TotalsSnoc(Labelled(quadran[..i], QUADRAN_DIMENSIONS[p]), quadran[i]);
      }
    }
  }

  /** `for quadran_dim in QUADRAN_DIMENSIONS: for feature in FRAMES_DATA_QUADRAN_COMPONENTS`:
      the twenty aggregates of a component are written into the quadrant row (lines 330-333). */
  method WriteQuadrantColumns(component: string, totals: seq<QuadrantTotals>, row: Row) returns (row': Row)
    requires |totals| == 4
    ensures row' == PutAll(row, QuadrantEntries(component, totals))
  {
    ghost var es := QuadrantEntries(component, totals);
    row' := row;
    for q := 0 to 4
      invariant row' == PutAll(row, es[..5 * q])
    {
      for f := 0 to 5
        invariant row' == PutAll(row, es[..5 * q + f])
      {
        var columnName := ColumnName(component, FRAMES_DATA_QUADRAN_COMPONENTS[f], QUADRAN_DIMENSIONS[q]);
        ghost var before := row';
        row' := Put(row', columnName, TotalsField(totals[q], f));
        ColumnStep(component, totals, q, f, row, before, row');
      }
    }
    assert es[..20] == es;
  }

  lemma {:induction false} ColumnStep(component: string, totals: seq<QuadrantTotals>, q: nat, f: nat,
                                      row: Row, before: Row, after: Row)
    requires |totals| == 4 && q < 4 && f < 5
    requires before == PutAll(row, QuadrantEntries(component, totals)[..5 * q + f])
    requires after == Put(before, ColumnName(component, FRAMES_DATA_QUADRAN_COMPONENTS[f], QUADRAN_DIMENSIONS[q]), TotalsField(totals[q], f))
    ensures after == PutAll(row, QuadrantEntries(component, totals)[..5 * q + f + 1])
  {
    var es := QuadrantEntries(component, totals);
    var j := 5 * q + f;
    assert j / 5 == q && j % 5 == f;
    assert es[..j] + [es[j]] == es[..j + 1];
    PutAllSnoc(row, es[..j], es[j].0, es[j].1);
  }

  lemma {:induction false} MiddleEqual(a: string, x: string, y: string, b: string)
    requires a + x + b == a + y + b
    ensures x == y
  {
    assert |x| == |y|;
    assert x == (a + x + b)[|a|..|a| + |x|];
    assert y == (a + y + b)[|a|..|a| + |y|];
  }

  /** Different (aggregate, quadrant) pairs give different column names. */
  lemma {:induction false} ColumnNameInjective(component: string, f1: nat, q1: nat, f2: nat, q2: nat)
    requires f1 < 5 && f2 < 5 && q1 < 4 && q2 < 4
    requires ColumnName(component, FRAMES_DATA_QUADRAN_COMPONENTS[f1], QUADRAN_DIMENSIONS[q1])
          == ColumnName(component, FRAMES_DATA_QUADRAN_COMPONENTS[f2], QUADRAN_DIMENSIONS[q2])
    ensures f1 == f2 && q1 == q2
  {
    var n1 := ColumnName(component, FRAMES_DATA_QUADRAN_COMPONENTS[f1], QUADRAN_DIMENSIONS[q1]);
    var n2 := ColumnName(component, FRAMES_DATA_QUADRAN_COMPONENTS[f2], QUADRAN_DIMENSIONS[q2]);
    assert n1[|n1| - 2..] == QUADRAN_DIMENSIONS[q1];
    assert n2[|n2| - 2..] == QUADRAN_DIMENSIONS[q2];
    assert n1[..|n1| - 2] == component + "_" + FRAMES_DATA_QUADRAN_COMPONENTS[f1] + "_";
    assert n2[..|n2| - 2] == component + "_" + FRAMES_DATA_QUADRAN_COMPONENTS[f2] + "_";
    MiddleEqual(component + "_", FRAMES_DATA_QUADRAN_COMPONENTS[f1], FRAMES_DATA_QUADRAN_COMPONENTS[f2], "_");
  }

  lemma {:induction false} QuadrantEntriesDistinct(component: string, totals: seq<QuadrantTotals>)
    requires |totals| == 4
    ensures DistinctKeys(QuadrantEntries(component, totals))
  {
    var es := QuadrantEntries(component, totals);
    forall i, j | 0 <= i < j < 20 ensures es[i].0 != es[j].0 {
      if es[i].0 == es[j].0 {
        ColumnNameInjective(component, i % 5, i / 5, j % 5, j / 5);
      }
    }
  }

  /** After the quadrant loop every one of the twenty columns of the component holds its
      aggregate, whatever the row held before. */
  lemma {:induction false} QuadrantColumnsWritten(component: string, totals: seq<QuadrantTotals>, row: Row, q: nat, f: nat)
    requires |totals| == 4 && q < 4 && f < 5
    ensures var r := PutAll(row, QuadrantEntries(component, totals));
      var name := ColumnName(component, FRAMES_DATA_QUADRAN_COMPONENTS[f], QUADRAN_DIMENSIONS[q]);
      name in Keys(r) && Get(r, name) == TotalsField(totals[q], f)
  {
    QuadrantEntriesDistinct(component, totals);
    var j := 5 * q + f;
    assert j / 5 == q && j % 5 == f;
    PutAllInside(row, QuadrantEntries(component, totals), j);
  }

  /** Every column a component writes starts with the component's name. */
  lemma {:induction false} FeatureKeysStartWith(component: string, vs: seq<QuadVector>)
    ensures forall j :: 0 <= j < |FeatureEntries(component, vs)| ==> IsPrefix(component, FeatureEntries(component, vs)[j].0)
  {
    if vs != [] {
      var front: Row := FeatureEntries(component, vs[..|vs| - 1]);
      var last: Row := VectorEntries(component, |vs| - 1, vs[|vs| - 1]);
      var all: Row := front + last;
      FeatureKeysStartWith(component, vs[..|vs| - 1]);
      forall j | 0 <= j < |all| ensures IsPrefix(component, all[j].0) {
        if j >= |front| {
          assert all[j] == last[j - |front|];
        } else {
          assert all[j] == front[j];
        }
      }
    }
  }

  /** A column whose first character differs from the component's (such as `Frame`,
      `Folder Path` and `Label` for `mulut` and `alis`) is not written by the component. */
  lemma {:induction false} OtherColumnsUntouched(component: string, vs: seq<QuadVector>, totals: seq<QuadrantTotals>, k: string)
    requires |totals| == 4 && |component| > 0 && |k| > 0 && k[0] != component[0]
    ensures k !in Keys(FeatureEntries(component, vs))
    ensures k !in Keys(QuadrantEntries(component, totals))
  {
    FeatureKeysStartWith(component, vs);
    var qs := QuadrantEntries(component, totals);
    forall j | 0 <= j < 20 ensures qs[j].0[0] == component[0] {
      assert qs[j].0 == component + "_" + FRAMES_DATA_QUADRAN_COMPONENTS[j % 5] + "_" + QUADRAN_DIMENSIONS[j / 5];
    }
  }
}
