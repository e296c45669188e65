/**
 * The frame loop of `_extract_features_from_frames`
 * (services/backend/app/controller/DataModelController.py): the frames are read in natural
 * order, the first block seen of every face component becomes its reference, and every
 * later block adds its motion features to the frame's two rows. Face detection, landmark
 * extraction, the image reader and the POC/Vektor/Quadran chain are given as functions.
 */
module FrameFeatures {
  import opened Wrappers
  import opened Text
  import opened OrderedDict
  import opened Constants
  import opened Quadrants
  import NaturalSort
  import Preprocessing

  /** A grayscale component block, as `extract_component_by_images` returns it. */
  type Block = seq<seq<int>>

  /** The computer-vision side of the loop, keyed by the frame's file name:
      whether `cv2.imread` can read it, how many faces dlib finds in it, the block of
      component `c` of face `r`, whether writing that block's image succeeds, and the
      motion vectors POC, Vektor and Quadran derive from a reference and a current block. */
  datatype Vision = Vision(
    readable: string -> bool,
    faces: string -> nat,
    block: (string, nat, nat) -> Block,
    written: (string, nat, nat) -> bool,
    quadran: (Block, Block) -> seq<QuadVector>)

  /** `{"url_source": ..., "url_result": ...}` of one component; `urlResult` is `None`
      while the key is absent. */
  datatype ComponentPreview = ComponentPreview(urlSource: Option<string>, urlResult: Option<string>)

  /** One entry of `preview_data_list`. */
  datatype FramePreview = FramePreview(name: string, url: Option<string>, components: Dict<ComponentPreview>)

  /** The two row lists and the preview list the function returns. */
  datatype Extraction = Extraction(featureRows: seq<Row>, quadrantRows: seq<Row>, previews: seq<FramePreview>)

  /** The message of the `UnboundLocalError` raised when a row is written before it exists. */
  function UnboundMessage(variable: string): string
  {
    "cannot access local variable '" + variable + "' where it is not associated with a value"
  }

  /** `filename.split('.')[0]`. */
  function Stem(filename: string): string
  {
    Split(filename, '.')[0]
  }

  /** `f"{frame_counter + 1}({filename.split('.')[0]})"`. */
  function FrameLabel(frameCounter: nat, filename: string): string
  {
    NatToString(frameCounter + 1) + "(" + Stem(filename) + ")"
  }

  function ComponentName(c: nat): string
    requires c < 2
  {
    COMPONENTS_SETUP[c].0
  }

  function ObjectName(c: nat): string
    requires c < 2
  {
    COMPONENTS_SETUP[c].1.objectName
  }

  // ---------------------------------------------------------------------------
  // One frame: `for rect in rects: for component_name, component_info in COMPONENTS_SETUP.items()`
  // Step `k` of a frame handles face `FaceOf(k)` = k / 2 and component `ComponentOf(k)` = k % 2.

  function ComponentOf(k: nat): (c: nat)
    ensures c < 2
  {
    if k < 2 then k else ComponentOf(k - 2)
  }

  function FaceOf(k: nat): nat
  {
    if k < 2 then 0 else FaceOf(k - 2) + 1
  }

  /** The references after the first `n` steps of the frame `filename`. */
  function RefsAfter(env: Vision, filename: string, refs: seq<Option<Block>>, n: nat): (rs: seq<Option<Block>>)
    requires |refs| == 2
    ensures |rs| == 2
  {
    if n == 0 then refs
    else
      var prev := RefsAfter(env, filename, refs, n - 1);
      var c := ComponentOf(n - 1);
      if prev[c].None? then prev[c := Some(env.block(filename, FaceOf(n - 1), c))] else prev
  }

  /** Step `k` computes features: its component already has a reference. */
  predicate Computes(env: Vision, filename: string, refs: seq<Option<Block>>, k: nat)
    requires |refs| == 2
  {
    RefsAfter(env, filename, refs, k)[ComponentOf(k)].Some?
  }

  /** The vectors of a computing step. */
  function StepQuadran(env: Vision, filename: string, refs: seq<Option<Block>>, k: nat): seq<QuadVector>
    requires |refs| == 2 && Computes(env, filename, refs, k)
  {
    env.quadran(RefsAfter(env, filename, refs, k)[ComponentOf(k)].value, env.block(filename, FaceOf(k), ComponentOf(k)))
  }

  /** The four quadrant aggregates of a list of vectors. */
  function TotalsOf(vs: seq<QuadVector>): (ts: seq<QuadrantTotals>)
    ensures |ts| == 4
  {
    seq(4, q requires 0 <= q < 4 => Totals(Labelled(vs, QUADRAN_DIMENSIONS[q])))
  }

  /** The feature row after the first `n` steps, each computing step writing the
      `<component>-X<i>`, `-Y<i>`, `-Tetha<i>` and `-Magnitude<i>` columns of its vectors. */
  function FeaturesAfter(env: Vision, filename: string, refs: seq<Option<Block>>, row: Row, n: nat): Row
    requires |refs| == 2
  {
    if n == 0 then row
    else
      var prev := FeaturesAfter(env, filename, refs, row, n - 1);
      if Computes(env, filename, refs, n - 1)
      then PutAll(prev, FeatureEntries(ComponentName(ComponentOf(n - 1)), StepQuadran(env, filename, refs, n - 1)))
      else prev
  }

  /** The quadrant row after the first `n` steps, each computing step writing the twenty
      `<component>_<feature>_<quadrant>` columns of its vectors' totals. */
  function QuadrantsAfter(env: Vision, filename: string, refs: seq<Option<Block>>, row: Row, n: nat): Row
    requires |refs| == 2
  {
    if n == 0 then row
    else
      var prev := QuadrantsAfter(env, filename, refs, row, n - 1);
      if Computes(env, filename, refs, n - 1)
      then PutAll(prev, QuadrantEntries(ComponentName(ComponentOf(n - 1)), TotalsOf(StepQuadran(env, filename, refs, n - 1))))
      else prev
  }

  /** The preview record of step `k`: the saved block's URL, and the quiver plot's URL when
      the step computes features. */
  function StepPreview(env: Vision, urlRoot: string, framesDir: string, filename: string, refs: seq<Option<Block>>, k: nat): ComponentPreview
    requires |refs| == 2
  {
    var c := ComponentOf(k);
    ComponentPreview(
      Preprocessing.ComponentImageUrl(urlRoot, true, env.written(filename, FaceOf(k), c), framesDir, ObjectName(c), Stem(filename)),
      if Computes(env, filename, refs, k) then Some(Preprocessing.QuiverImageUrl(urlRoot, framesDir, ObjectName(c), Stem(filename))) else None)
  }

  /** The preview components after the first `n` steps: every step replaces its component's record. */
  function PreviewsAfter(env: Vision, urlRoot: string, framesDir: string, filename: string, refs: seq<Option<Block>>,
                         components: Dict<ComponentPreview>, n: nat): Dict<ComponentPreview>
    requires |refs| == 2
  {
    if n == 0 then components
    else Put(PreviewsAfter(env, urlRoot, framesDir, filename, refs, components, n - 1),
             ComponentName(ComponentOf(n - 1)), StepPreview(env, urlRoot, framesDir, filename, refs, n - 1))
  }

  /** Some step of the frame computes features. */
  predicate AnyComputes(env: Vision, filename: string, refs: seq<Option<Block>>)
    requires |refs| == 2
  {
    exists k :: 0 <= k < 2 * env.faces(filename) && Computes(env, filename, refs, k)
  }

  /** None of the first `n` steps computes features. */
  predicate NoneComputes(env: Vision, filename: string, refs: seq<Option<Block>>, n: nat)
    requires |refs| == 2
  {
    n == 0 || (NoneComputes(env, filename, refs, n - 1) && !Computes(env, filename, refs, n - 1))
  }

  lemma {:induction false} NoneComputesMeans(env: Vision, filename: string, refs: seq<Option<Block>>, n: nat)
    requires |refs| == 2
    ensures NoneComputes(env, filename, refs, n) <==> forall k :: 0 <= k < n ==> !Computes(env, filename, refs, k)
  {
    if n > 0 {
      NoneComputesMeans(env, filename, refs, n - 1);
    }
  }

  /** The faces of one frame. `featureRow` and `quadrantRow` are `None` while the
      variables `current_frame_all_features` and `current_frame_quadran_data` are unbound;
      writing to them then raises. */
  method ProcessFaces(env: Vision, urlRoot: string, framesDir: string, filename: string, withPreview: bool,
                      refs: seq<Option<Block>>, featureRow: Option<Row>, quadrantRow: Option<Row>,
                      components: Dict<ComponentPreview>)
    returns (error: Option<string>, refs': seq<Option<Block>>, featureRow': Option<Row>, quadrantRow': Option<Row>,
             components': Dict<ComponentPreview>)
    requires |refs| == 2 && (featureRow.Some? <==> quadrantRow.Some?)
    ensures error.Some? <==> featureRow.None? && AnyComputes(env, filename, refs)
    ensures error.Some? ==> error.value in {UnboundMessage("current_frame_all_features"), UnboundMessage("current_frame_quadran_data")}
    ensures error.None? ==> refs' == RefsAfter(env, filename, refs, 2 * env.faces(filename))
    ensures error.None? ==> featureRow'.Some? == featureRow.Some? && quadrantRow'.Some? == quadrantRow.Some?
    ensures error.None? && featureRow.Some? ==>
      && featureRow'.value == FeaturesAfter(env, filename, refs, featureRow.value, 2 * env.faces(filename))
      && quadrantRow'.value == QuadrantsAfter(env, filename, refs, quadrantRow.value, 2 * env.faces(filename))
    ensures error.None? ==>
      components' == if withPreview then PreviewsAfter(env, urlRoot, framesDir, filename, refs, components, 2 * env.faces(filename)) else components
  {
    error := None;
    refs', featureRow', quadrantRow', components' := refs, featureRow, quadrantRow, components;
    var faces := env.faces(filename);
    for r := 0 to faces
      invariant refs' == RefsAfter(env, filename, refs, 2 * r)
      invariant error.None?
      invariant featureRow.None? ==> NoneComputes(env, filename, refs, 2 * r)
      invariant featureRow'.Some? == featureRow.Some? && quadrantRow'.Some? == quadrantRow.Some?
      invariant featureRow.Some? ==> featureRow'.value == FeaturesAfter(env, filename, refs, featureRow.value, 2 * r)
      invariant quadrantRow.Some? ==> quadrantRow'.value == QuadrantsAfter(env, filename, refs, quadrantRow.value, 2 * r)
      invariant components' == if withPreview then PreviewsAfter(env, urlRoot, framesDir, filename, refs, components, 2 * r) else components
    {
      ghost var failedAt;
      error, refs', featureRow', quadrantRow', components', failedAt :=
        ProcessFace(env, urlRoot, framesDir, filename, withPreview, refs, featureRow, quadrantRow, components, r,
                    refs', featureRow', quadrantRow', components');
      if error.Some? {
        return;
      }
    }
    NoneComputesMeans(env, filename, refs, 2 * faces);
  }

  /** Face `r`: both components in the order of `COMPONENTS_SETUP`. */
  method ProcessFace(env: Vision, urlRoot: string, framesDir: string, filename: string, withPreview: bool,
                     refs: seq<Option<Block>>, featureRow: Option<Row>, quadrantRow: Option<Row>,
                     components: Dict<ComponentPreview>, r: nat,
                     refs0: seq<Option<Block>>, featureRow0: Option<Row>, quadrantRow0: Option<Row>, components0: Dict<ComponentPreview>)
    returns (error: Option<string>, refs': seq<Option<Block>>, featureRow': Option<Row>, quadrantRow': Option<Row>,
             components': Dict<ComponentPreview>, ghost failedAt: nat)
    requires |refs| == 2 && (featureRow.Some? <==> quadrantRow.Some?)
    requires refs0 == RefsAfter(env, filename, refs, 2 * r)
    requires featureRow.None? ==> NoneComputes(env, filename, refs, 2 * r)
    requires featureRow0.Some? == featureRow.Some? && quadrantRow0.Some? == quadrantRow.Some?
    requires featureRow.Some? ==> featureRow0.value == FeaturesAfter(env, filename, refs, featureRow.value, 2 * r)
    requires quadrantRow.Some? ==> quadrantRow0.value == QuadrantsAfter(env, filename, refs, quadrantRow.value, 2 * r)
    requires components0 == if withPreview then PreviewsAfter(env, urlRoot, framesDir, filename, refs, components, 2 * r) else components
    ensures error.Some? ==> featureRow.None? && 2 * r <= failedAt < 2 * r + 2 && Computes(env, filename, refs, failedAt)
    ensures error.Some? ==> error.value in {UnboundMessage("current_frame_all_features"), UnboundMessage("current_frame_quadran_data")}
    ensures error.None? ==> refs' == RefsAfter(env, filename, refs, 2 * r + 2)
    ensures error.None? ==> featureRow.None? ==> NoneComputes(env, filename, refs, 2 * r + 2)
    ensures error.None? ==> featureRow'.Some? == featureRow.Some? && quadrantRow'.Some? == quadrantRow.Some?
    ensures error.None? && featureRow.Some? ==>
      && featureRow'.value == FeaturesAfter(env, filename, refs, featureRow.value, 2 * r + 2)
      && quadrantRow'.value == QuadrantsAfter(env, filename, refs, quadrantRow.value, 2 * r + 2)
    ensures error.None? ==>
      components' == if withPreview then PreviewsAfter(env, urlRoot, framesDir, filename, refs, components, 2 * r + 2) else components
  {
    error := None;
    failedAt := 0;
    refs', featureRow', quadrantRow', components' := refs0, featureRow0, quadrantRow0, components0;
    for c := 0 to 2
      invariant error.None?
      invariant refs' == RefsAfter(env, filename, refs, 2 * r + c)
      invariant featureRow.None? ==> NoneComputes(env, filename, refs, 2 * r + c)
      invariant featureRow'.Some? == featureRow.Some? && quadrantRow'.Some? == quadrantRow.Some?
      invariant featureRow.Some? ==> featureRow'.value == FeaturesAfter(env, filename, refs, featureRow.value, 2 * r + c)
      invariant quadrantRow.Some? ==> quadrantRow'.value == QuadrantsAfter(env, filename, refs, quadrantRow.value, 2 * r + c)
      invariant components' == if withPreview then PreviewsAfter(env, urlRoot, framesDir, filename, refs, components, 2 * r + c) else components
    {
      ghost var k := 2 * r + c;
      error, refs', featureRow', quadrantRow', components' :=
        ProcessComponent(env, urlRoot, framesDir, filename, withPreview, refs, featureRow, quadrantRow, components, r, c, k,
                         refs', featureRow', quadrantRow', components');
      if error.Some? {
        failedAt := k;
        assert featureRow.None? && Computes(env, filename, refs, failedAt);
        return;
      }
      assert featureRow.None? ==> !Computes(env, filename, refs, k);
      assert featureRow.None? ==> NoneComputes(env, filename, refs, k + 1);
    }
  }

  /** Component `c` of face `r`: its block becomes the reference when the component has
      none, and otherwise its vectors against the reference fill both rows. */
  method ProcessComponent(env: Vision, urlRoot: string, framesDir: string, filename: string, withPreview: bool,
                          refs: seq<Option<Block>>, featureRow: Option<Row>, quadrantRow: Option<Row>,
                          components: Dict<ComponentPreview>, r: nat, c: nat, ghost n: nat,
                          refs0: seq<Option<Block>>, featureRow0: Option<Row>, quadrantRow0: Option<Row>, components0: Dict<ComponentPreview>)
    returns (error: Option<string>, refs': seq<Option<Block>>, featureRow': Option<Row>, quadrantRow': Option<Row>,
             components': Dict<ComponentPreview>)
    requires |refs| == 2 && c < 2 && n == 2 * r + c && (featureRow.Some? <==> quadrantRow.Some?)
    requires refs0 == RefsAfter(env, filename, refs, n)
    requires featureRow0.Some? == featureRow.Some? && quadrantRow0.Some? == quadrantRow.Some?
    requires featureRow.Some? ==> featureRow0.value == FeaturesAfter(env, filename, refs, featureRow.value, n)
    requires quadrantRow.Some? ==> quadrantRow0.value == QuadrantsAfter(env, filename, refs, quadrantRow.value, n)
    requires components0 == if withPreview then PreviewsAfter(env, urlRoot, framesDir, filename, refs, components, n) else components
    ensures error.Some? <==> featureRow.None? && Computes(env, filename, refs, n)
    ensures error.Some? ==> error.value in {UnboundMessage("current_frame_all_features"), UnboundMessage("current_frame_quadran_data")}
    ensures error.None? ==> refs' == RefsAfter(env, filename, refs, n + 1)
    ensures error.None? ==> featureRow'.Some? == featureRow.Some? && quadrantRow'.Some? == quadrantRow.Some?
    ensures error.None? && featureRow.Some? ==>
      && featureRow'.value == FeaturesAfter(env, filename, refs, featureRow.value, n + 1)
      && quadrantRow'.value == QuadrantsAfter(env, filename, refs, quadrantRow.value, n + 1)
    ensures error.None? ==>
      components' == if withPreview then PreviewsAfter(env, urlRoot, framesDir, filename, refs, components, n + 1) else components
  {
    error := None;
    refs', featureRow', quadrantRow', components' := refs0, featureRow0, quadrantRow0, components0;
    StepAt(env, filename, refs, r, c, n);
    var stem := Stem(filename);
    var name := ComponentName(c);
    var block := env.block(filename, r, c);
    var imageUrl := Preprocessing.ComponentImageUrl(urlRoot, withPreview, env.written(filename, r, c), framesDir, ObjectName(c), stem);
    if withPreview {
      components' := Put(components', name, ComponentPreview(imageUrl, None));
    }
    if refs'[c].None? {
      refs' := refs'[c := Some(block)];
      if withPreview {
        PreviewSkipped(env, urlRoot, framesDir, filename, refs, components, r, c, n, components0, components');
      }
      if featureRow.Some? {
        RowsSkipped(env, filename, refs, featureRow.value, quadrantRow.value, r, c, n);
      }
    } else {
      var quadran := env.quadran(refs'[c].value, block);
      if withPreview {
        var urlResult := Preprocessing.QuiverImageUrl(urlRoot, framesDir, ObjectName(c), stem);
        ghost var componentsMid := components';
        PutGet(components0, name, ComponentPreview(imageUrl, None));
        components' := Put(components', name, Get(components', name).(urlResult := Some(urlResult)));
        PreviewComputed(env, urlRoot, framesDir, filename, refs, components, r, c, n, components0, componentsMid, components');
      }
      if featureRow'.None? {
        error := Some(UnboundMessage(if |quadran| > 0 then "current_frame_all_features" else "current_frame_quadran_data"));
        return;
      }
      var row, totals := AggregateQuadrants(name, quadran, featureRow'.value);
      FeaturesComputed(env, filename, refs, featureRow.value, r, c, n, featureRow'.value, quadran, row);
      featureRow' := Some(row);
      row := WriteQuadrantColumns(name, totals, quadrantRow'.value);
      QuadrantsComputed(env, filename, refs, quadrantRow.value, r, c, n, quadrantRow'.value, quadran, totals, row);
      quadrantRow' := Some(row);
    }
  }

  lemma {:induction false} StepIndex(r: nat, c: nat, n: nat)
    requires c < 2 && n == 2 * r + c
    ensures FaceOf(n) == r && ComponentOf(n) == c
  {
    if r > 0 {
      StepIndex(r - 1, c, n - 2);
    }
  }

  /** Step `n = 2 * r + c` handles component `c` of face `r`: it sets the reference when
      there is none and computes features otherwise. */
  lemma {:induction false} StepAt(env: Vision, filename: string, refs: seq<Option<Block>>, r: nat, c: nat, n: nat)
    requires |refs| == 2 && c < 2 && n == 2 * r + c
    ensures var before := RefsAfter(env, filename, refs, n);
      && RefsAfter(env, filename, refs, n + 1) == (if before[c].None? then before[c := Some(env.block(filename, r, c))] else before)
      && (Computes(env, filename, refs, n) <==> before[c].Some?)
  {
    StepIndex(r, c, n);
  }

  /** A step that only sets a reference records the URL of the saved block. */
  lemma {:induction false} PreviewSkipped(env: Vision, urlRoot: string, framesDir: string, filename: string, refs: seq<Option<Block>>,
                                          components: Dict<ComponentPreview>, r: nat, c: nat, n: nat, before: Dict<ComponentPreview>, after: Dict<ComponentPreview>)
    requires |refs| == 2 && c < 2 && n == 2 * r + c
    requires before == PreviewsAfter(env, urlRoot, framesDir, filename, refs, components, n)
    requires RefsAfter(env, filename, refs, n)[c].None?
    requires after == Put(before, ComponentName(c),
      ComponentPreview(Preprocessing.ComponentImageUrl(urlRoot, true, env.written(filename, r, c), framesDir, ObjectName(c), Stem(filename)), None))
    ensures after == PreviewsAfter(env, urlRoot, framesDir, filename, refs, components, n + 1)
  {
    StepIndex(r, c, n);
  }

  /** A computing step records the URL of the saved block and then adds the quiver plot's URL. */
  lemma {:induction false} PreviewComputed(env: Vision, urlRoot: string, framesDir: string, filename: string, refs: seq<Option<Block>>,
                                           components: Dict<ComponentPreview>, r: nat, c: nat, n: nat,
                                           before: Dict<ComponentPreview>, mid: Dict<ComponentPreview>, after: Dict<ComponentPreview>)
    requires |refs| == 2 && c < 2 && n == 2 * r + c
    requires before == PreviewsAfter(env, urlRoot, framesDir, filename, refs, components, n)
    requires RefsAfter(env, filename, refs, n)[c].Some?
    requires mid == Put(before, ComponentName(c),
      ComponentPreview(Preprocessing.ComponentImageUrl(urlRoot, true, env.written(filename, r, c), framesDir, ObjectName(c), Stem(filename)), None))
    requires ComponentName(c) in Keys(mid)
    requires after == Put(mid, ComponentName(c),
      Get(mid, ComponentName(c)).(urlResult := Some(Preprocessing.QuiverImageUrl(urlRoot, framesDir, ObjectName(c), Stem(filename)))))
    ensures after == PreviewsAfter(env, urlRoot, framesDir, filename, refs, components, n + 1)
  {
    StepIndex(r, c, n);
    var first := ComponentPreview(Preprocessing.ComponentImageUrl(urlRoot, true, env.written(filename, r, c), framesDir, ObjectName(c), Stem(filename)), None);
    PutSpec(before, ComponentName(c), first);
    PutPut(before, ComponentName(c), first, first.(urlResult := Some(Preprocessing.QuiverImageUrl(urlRoot, framesDir, ObjectName(c), Stem(filename)))));
  }

  /** A step that only sets a reference leaves both rows as they were. */
  lemma {:induction false} RowsSkipped(env: Vision, filename: string, refs: seq<Option<Block>>, featureRow: Row, quadrantRow: Row, r: nat, c: nat, n: nat)
    requires |refs| == 2 && c < 2 && n == 2 * r + c
    requires RefsAfter(env, filename, refs, n)[c].None?
    ensures FeaturesAfter(env, filename, refs, featureRow, n + 1) == FeaturesAfter(env, filename, refs, featureRow, n)
    ensures QuadrantsAfter(env, filename, refs, quadrantRow, n + 1) == QuadrantsAfter(env, filename, refs, quadrantRow, n)
  {
    StepIndex(r, c, n);
  }

  /** A computing step writes the feature columns of the vectors of its block against the reference. */
  lemma {:induction false} FeaturesComputed(env: Vision, filename: string, refs: seq<Option<Block>>, row: Row, r: nat, c: nat, n: nat,
                                            before: Row, quadran: seq<QuadVector>, after: Row)
    requires |refs| == 2 && c < 2 && n == 2 * r + c
    requires before == FeaturesAfter(env, filename, refs, row, n)
    requires RefsAfter(env, filename, refs, n)[c].Some?
    requires quadran == env.quadran(RefsAfter(env, filename, refs, n)[c].value, env.block(filename, r, c))
    requires after == PutAll(before, FeatureEntries(ComponentName(c), quadran))
    ensures after == FeaturesAfter(env, filename, refs, row, n + 1)
  {
    StepIndex(r, c, n);
  }

  /** A computing step writes the quadrant columns of the totals of its vectors. */
  lemma {:induction false} QuadrantsComputed(env: Vision, filename: string, refs: seq<Option<Block>>, row: Row, r: nat, c: nat, n: nat,
                                             before: Row, quadran: seq<QuadVector>, totals: seq<QuadrantTotals>, after: Row)
    requires |refs| == 2 && c < 2 && n == 2 * r + c
    requires before == QuadrantsAfter(env, filename, refs, row, n)
    requires RefsAfter(env, filename, refs, n)[c].Some?
    requires quadran == env.quadran(RefsAfter(env, filename, refs, n)[c].value, env.block(filename, r, c))
    requires |totals| == 4 && forall q :: 0 <= q < 4 ==> totals[q] == Totals(Labelled(quadran, QUADRAN_DIMENSIONS[q]))
    requires after == PutAll(before, QuadrantEntries(ComponentName(c), totals))
    ensures after == QuadrantsAfter(env, filename, refs, row, n + 1)
  {
    StepIndex(r, c, n);
    assert totals == TotalsOf(quadran);
  }

  // ---------------------------------------------------------------------------
  // Properties of one frame

  /** A reference, once set, never changes. */
  lemma {:induction false} ReferenceKept(env: Vision, filename: string, refs: seq<Option<Block>>, n: nat, c: nat)
    requires |refs| == 2 && c < 2 && refs[c].Some?
    ensures RefsAfter(env, filename, refs, n)[c] == refs[c]
  {
    if n > 0 {
      ReferenceKept(env, filename, refs, n - 1, c);
    }
  }

  /** After `n` steps the first `n` components (of two) have a reference. */
  lemma {:induction false} ReferenceSet(env: Vision, filename: string, refs: seq<Option<Block>>, n: nat, c: nat)
    requires |refs| == 2 && c < 2 && c < n
    ensures RefsAfter(env, filename, refs, n)[c].Some?
  {
    if n - 1 > c {
      ReferenceSet(env, filename, refs, n - 1, c);
    }
  }

  /** Starting without references, the first face supplies both, from its own blocks, and
      they stay for the rest of the frame. */
  lemma {:induction false} ReferencesFromFirstFace(env: Vision, filename: string, n: nat)
    requires n >= 2
    ensures RefsAfter(env, filename, [None, None], n) == [Some(env.block(filename, 0, 0)), Some(env.block(filename, 0, 1))]
  {
    OneStepWithoutReferences(env, filename);
    assert ComponentOf(1) == 1 && FaceOf(1) == 0;
    assert RefsAfter(env, filename, [None, None], 2) == [Some(env.block(filename, 0, 0)), Some(env.block(filename, 0, 1))];
    RefsFrom(env, filename, [None, None], 2, n);
  }

  lemma {:induction false} OneStepWithoutReferences(env: Vision, filename: string)
    ensures RefsAfter(env, filename, [None, None], 1) == [Some(env.block(filename, 0, 0)), None]
  {
    assert ComponentOf(0) == 0 && FaceOf(0) == 0;
    assert RefsAfter(env, filename, [None, None], 0) == [None, None];
  }

  lemma {:induction false} RefsFrom(env: Vision, filename: string, refs: seq<Option<Block>>, m: nat, n: nat)
    requires |refs| == 2 && 2 <= m <= n
    requires RefsAfter(env, filename, refs, m)[0].Some? && RefsAfter(env, filename, refs, m)[1].Some?
    ensures RefsAfter(env, filename, refs, n) == RefsAfter(env, filename, refs, m)
  {
    if n > m {
      RefsFrom(env, filename, refs, m, n - 1);
    }
  }

  /** Starting without references, step `k` computes features exactly when it belongs to a
      face after the first. */
  lemma {:induction false} ComputesWithoutReferences(env: Vision, filename: string, k: nat)
    ensures Computes(env, filename, [None, None], k) <==> k >= 2
  {
    if k >= 2 {
      ReferenceSet(env, filename, [None, None], k, ComponentOf(k));
    } else if k == 1 {
      OneStepWithoutReferences(env, filename);
      assert ComponentOf(1) == 1;
    }
  }

  /** In the first frame read, where the rows do not exist yet and no component has a
      reference, writing a feature raises exactly when the frame shows two faces or more. */
  lemma {:induction false} FirstFrameRaisesIffTwoFaces(env: Vision, filename: string)
    ensures AnyComputes(env, filename, [None, None]) <==> env.faces(filename) >= 2
  {
    if env.faces(filename) >= 2 {
      ComputesWithoutReferences(env, filename, 2);
    } else {
      forall k | 0 <= k < 2 * env.faces(filename) ensures !Computes(env, filename, [None, None], k) {
        ComputesWithoutReferences(env, filename, k);
      }
    }
  }

  /** Column `k` of a row outside the feature and quadrant columns (`Frame`, `Folder Path`,
      `Label`) is neither added nor changed by the faces. */
  lemma {:induction false} FeaturesKeepOtherColumns(env: Vision, filename: string, refs: seq<Option<Block>>, row: Row, n: nat, k: string)
    requires |refs| == 2 && k != [] && k[0] != 'm' && k[0] != 'a'
    ensures k in Keys(FeaturesAfter(env, filename, refs, row, n)) <==> k in Keys(row)
    ensures k in Keys(row) ==> Get(FeaturesAfter(env, filename, refs, row, n), k) == Get(row, k)
  {
    if n > 0 {
      FeaturesKeepOtherColumns(env, filename, refs, row, n - 1, k);
      if Computes(env, filename, refs, n - 1) {
        var c := ComponentOf(n - 1);
        var vs := StepQuadran(env, filename, refs, n - 1);
        OtherColumnsUntouched(ComponentName(c), vs, TotalsOf(vs), k);
        PutAllOutside(FeaturesAfter(env, filename, refs, row, n - 1), FeatureEntries(ComponentName(c), vs), k);
      }
    }
  }

  lemma {:induction false} QuadrantsKeepOtherColumns(env: Vision, filename: string, refs: seq<Option<Block>>, row: Row, n: nat, k: string)
    requires |refs| == 2 && k != [] && k[0] != 'm' && k[0] != 'a'
    ensures k in Keys(QuadrantsAfter(env, filename, refs, row, n)) <==> k in Keys(row)
    ensures k in Keys(row) ==> Get(QuadrantsAfter(env, filename, refs, row, n), k) == Get(row, k)
  {
    if n > 0 {
      QuadrantsKeepOtherColumns(env, filename, refs, row, n - 1, k);
      if Computes(env, filename, refs, n - 1) {
        var c := ComponentOf(n - 1);
        var vs := StepQuadran(env, filename, refs, n - 1);
        OtherColumnsUntouched(ComponentName(c), vs, TotalsOf(vs), k);
        PutAllOutside(QuadrantsAfter(env, filename, refs, row, n - 1), QuadrantEntries(ComponentName(c), TotalsOf(vs)), k);
      }
    }
  }

  /** A reference present after `m` steps is the same after any later step. */
  lemma {:induction false} ReferenceStays(env: Vision, filename: string, refs: seq<Option<Block>>, m: nat, n: nat, c: nat)
    requires |refs| == 2 && c < 2 && m <= n && RefsAfter(env, filename, refs, m)[c].Some?
    ensures RefsAfter(env, filename, refs, n)[c] == RefsAfter(env, filename, refs, m)[c]
  {
    if n > m {
      ReferenceStays(env, filename, refs, m, n - 1, c);
    }
  }

  /** With several faces in a frame, the quadrant columns of each component hold the totals
      of the last face: the earlier faces' values are overwritten. */
  lemma {:induction false} LastFaceWins(env: Vision, filename: string, refs: seq<Option<Block>>, row: Row, c: nat, q: nat, f: nat)
    requires |refs| == 2 && c < 2 && q < 4 && f < 5
    requires env.faces(filename) >= 2 || (env.faces(filename) == 1 && refs[0].Some? && refs[1].Some?)
    ensures var n := 2 * env.faces(filename);
      var last := n - 2 + c;
      var column := ColumnName(ComponentName(c), FRAMES_DATA_QUADRAN_COMPONENTS[f], QUADRAN_DIMENSIONS[q]);
      && Computes(env, filename, refs, last)
      && column in Keys(QuadrantsAfter(env, filename, refs, row, n))
      && Get(QuadrantsAfter(env, filename, refs, row, n), column) == TotalsField(TotalsOf(StepQuadran(env, filename, refs, last))[q], f)
  {
    var n := 2 * env.faces(filename);
    assert Computes(env, filename, refs, n - 2 + c) by {
      LastFaceComputes(env, filename, refs);
    }
    LastFaceComputes(env, filename, refs);
    LastStepsWin(env, filename, refs, row, n, c, q, f);
  }

  /** The last face's two steps both compute features. */
  lemma {:induction false} LastFaceComputes(env: Vision, filename: string, refs: seq<Option<Block>>)
    requires |refs| == 2
    requires env.faces(filename) >= 2 || (env.faces(filename) == 1 && refs[0].Some? && refs[1].Some?)
    ensures var n := 2 * env.faces(filename);
      && ComponentOf(n - 2) == 0 && ComponentOf(n - 1) == 1
      && Computes(env, filename, refs, n - 2) && Computes(env, filename, refs, n - 1)
  {
    var n := 2 * env.faces(filename);
    StepIndex(env.faces(filename) - 1, 0, n - 2);
    StepIndex(env.faces(filename) - 1, 1, n - 1);
    if env.faces(filename) >= 2 {
      ReferenceSet(env, filename, refs, n - 2, 0);
      ReferenceSet(env, filename, refs, n - 2, 1);
    } else {
      assert RefsAfter(env, filename, refs, 0) == refs;
    }
    ReferenceStays(env, filename, refs, n - 2, n - 1, 1);
  }

  /** When the last two steps compute, the quadrant columns hold their totals. */
  lemma {:induction false} LastStepsWin(env: Vision, filename: string, refs: seq<Option<Block>>, row: Row, n: nat, c: nat, q: nat, f: nat)
    requires |refs| == 2 && c < 2 && q < 4 && f < 5 && n >= 2
    requires ComponentOf(n - 2) == 0 && ComponentOf(n - 1) == 1
    requires Computes(env, filename, refs, n - 2) && Computes(env, filename, refs, n - 1)
    ensures var column := ColumnName(ComponentName(c), FRAMES_DATA_QUADRAN_COMPONENTS[f], QUADRAN_DIMENSIONS[q]);
      && column in Keys(QuadrantsAfter(env, filename, refs, row, n))
      && Get(QuadrantsAfter(env, filename, refs, row, n), column) == TotalsField(TotalsOf(StepQuadran(env, filename, refs, n - 2 + c))[q], f)
  {
    var last := n - 2 + c;
    if c == 1 {
      assert last == n - 1;
      SecondComponentWritten(env, filename, refs, row, n, q, f);
    } else {
      assert c == 0 && last == n - 2;
      FirstComponentSurvives(env, filename, refs, row, n, q, f);
    }
  }

  lemma {:induction false} SecondComponentWritten(env: Vision, filename: string, refs: seq<Option<Block>>, row: Row, n: nat, q: nat, f: nat)
    requires |refs| == 2 && q < 4 && f < 5 && n >= 1
    requires ComponentOf(n - 1) == 1 && Computes(env, filename, refs, n - 1)
    ensures var column := ColumnName(ComponentName(1), FRAMES_DATA_QUADRAN_COMPONENTS[f], QUADRAN_DIMENSIONS[q]);
      && column in Keys(QuadrantsAfter(env, filename, refs, row, n))
      && Get(QuadrantsAfter(env, filename, refs, row, n), column) == TotalsField(TotalsOf(StepQuadran(env, filename, refs, n - 1))[q], f)
  {
    var vs1 := StepQuadran(env, filename, refs, n - 1);
    var middle := QuadrantsAfter(env, filename, refs, row, n - 1);
    assert QuadrantsAfter(env, filename, refs, row, n) == PutAll(middle, QuadrantEntries(ComponentName(1), TotalsOf(vs1)));
    QuadrantColumnsWritten(ComponentName(1), TotalsOf(vs1), middle, q, f);
  }

  lemma {:induction false} FirstComponentSurvives(env: Vision, filename: string, refs: seq<Option<Block>>, row: Row, n: nat, q: nat, f: nat)
    requires |refs| == 2 && q < 4 && f < 5 && n >= 2
    requires ComponentOf(n - 2) == 0 && ComponentOf(n - 1) == 1
    requires Computes(env, filename, refs, n - 2) && Computes(env, filename, refs, n - 1)
    ensures var column := ColumnName(ComponentName(0), FRAMES_DATA_QUADRAN_COMPONENTS[f], QUADRAN_DIMENSIONS[q]);
      && column in Keys(QuadrantsAfter(env, filename, refs, row, n))
      && Get(QuadrantsAfter(env, filename, refs, row, n), column) == TotalsField(TotalsOf(StepQuadran(env, filename, refs, n - 2))[q], f)
  {
    var column := ColumnName(ComponentName(0), FRAMES_DATA_QUADRAN_COMPONENTS[f], QUADRAN_DIMENSIONS[q]);
    var vs0 := StepQuadran(env, filename, refs, n - 2);
    var vs1 := StepQuadran(env, filename, refs, n - 1);
    var before := QuadrantsAfter(env, filename, refs, row, n - 2);
    var middle := QuadrantsAfter(env, filename, refs, row, n - 1);
    assert middle == PutAll(before, QuadrantEntries(ComponentName(0), TotalsOf(vs0)));
    QuadrantColumnsWritten(ComponentName(0), TotalsOf(vs0), before, q, f);
    assert column[0] == 'm';
    OtherColumnsUntouched(ComponentName(1), vs1, TotalsOf(vs1), column);
    assert QuadrantsAfter(env, filename, refs, row, n) == PutAll(middle, QuadrantEntries(ComponentName(1), TotalsOf(vs1)));
    PutAllOutside(middle, QuadrantEntries(ComponentName(1), TotalsOf(vs1)), column);
  }

  // ---------------------------------------------------------------------------
  // The frames: `for filename in sorted(os.listdir(frames_dir), key=natural_sort_key)`

  /** The position of the first image whose name has the same root as `filename`, or `|images|`. */
  function MatchIndex(images: seq<Preprocessing.FrameImage>, filename: string): (i: nat)
    ensures i <= |images|
  {
    if images == [] then 0
    else if SplitextRoot(images[0].name) == SplitextRoot(filename) then 0
    else 1 + MatchIndex(images[1..], filename)
  }

  /** `MatchIndex` finds the first image whose name has the root of `filename`, and reaches
      `|images|` only when none has. */
  lemma {:induction false} MatchIndexMeans(images: seq<Preprocessing.FrameImage>, filename: string)
    ensures var i := MatchIndex(images, filename);
      && (forall j :: 0 <= j < i ==> SplitextRoot(images[j].name) != SplitextRoot(filename))
      && (i < |images| ==> SplitextRoot(images[i].name) == SplitextRoot(filename))
  {
    if images != [] && SplitextRoot(images[0].name) != SplitextRoot(filename) {
      MatchIndexMeans(images[1..], filename);
      var i := MatchIndex(images, filename);
      forall j | 1 <= j < i ensures SplitextRoot(images[j].name) != SplitextRoot(filename) {
        assert images[j] == images[1..][j - 1];
      }
      if i < |images| {
        assert images[i] == images[1..][i - 1];
      }
    }
  }

  /** `next((img['url'] for img in images_list if splitext(img['name'])[0] == splitext(filename)[0]), None)`. */
  function LookupUrl(images: seq<Preprocessing.FrameImage>, filename: string): Option<string>
  {
    var i := MatchIndex(images, filename);
    if i < |images| then Some(images[i].url) else None
  }

  /** A file the loop processes: a `.jpg` or `.png` that `cv2.imread` can read. */
  predicate IsFrameFile(env: Vision, filename: string)
  {
    (EndsWith(filename, ".jpg") || EndsWith(filename, ".png")) && env.readable(filename)
  }

  /** The files the loop processes, in order. */
  function FrameFiles(env: Vision, files: seq<string>): (frames: seq<string>)
    ensures |frames| <= |files|
  {
    if files == [] then []
    else (if IsFrameFile(env, files[0]) then [files[0]] else []) + FrameFiles(env, files[1..])
  }

  /** The variables the loop carries from frame to frame: `data_blocks_first_image`,
      `frame_counter` and the three lists. */
  datatype LoopState = LoopState(refs: seq<Option<Block>>, counter: nat, featureRows: seq<Row>,
                                 quadrantRows: seq<Row>, previews: seq<FramePreview>)

  const INITIAL: LoopState := LoopState([None, None], 0, [], [], [])

  /** `row['Folder Path'] = "data_test"; row['Label'] = "data_test"`. */
  function Finished(row: Row): Row
  {
    Put(Put(row, "Folder Path", CStr("data_test")), "Label", CStr("data_test"))
  }

  /** One frame file: `None` when it raises. */
  function FrameStep(env: Vision, urlRoot: string, framesDir: string, images: seq<Preprocessing.FrameImage>, withPreview: bool,
                     st: LoopState, filename: string): Option<LoopState>
    requires |st.refs| == 2
  {
    var n := 2 * env.faces(filename);
    if st.counter == 0 && AnyComputes(env, filename, st.refs) then None
    else
      var first: Row := [("Frame", CStr(FrameLabel(st.counter, filename)))];
      Some(LoopState(
        RefsAfter(env, filename, st.refs, n),
        st.counter + 1,
        if st.counter > 0 then st.featureRows + [Finished(FeaturesAfter(env, filename, st.refs, first, n))] else st.featureRows,
        if st.counter > 0 then st.quadrantRows + [Finished(QuadrantsAfter(env, filename, st.refs, first, n))] else st.quadrantRows,
        if withPreview
        then st.previews + [FramePreview(filename, LookupUrl(images, filename), PreviewsAfter(env, urlRoot, framesDir, filename, st.refs, [], n))]
        else st.previews))
  }

  /** `all(v is None for v in data_blocks_first_image.values()) and frame_counter > 10`. */
  predicate Stops(st: LoopState)
  {
    |st.refs| == 2 && st.refs[0].None? && st.refs[1].None? && st.counter > 10
  }

  /** The loop over the frame files `frames` from state `st`. */
  function Run(env: Vision, urlRoot: string, framesDir: string, images: seq<Preprocessing.FrameImage>, withPreview: bool,
               frames: seq<string>, st: LoopState): Option<LoopState>
    requires |st.refs| == 2
    decreases |frames|
  {
    if frames == [] then Some(st)
    else
      match FrameStep(env, urlRoot, framesDir, images, withPreview, st, frames[0])
      case None => None
      case Some(next) =>
        if Stops(next) then Some(next) else Run(env, urlRoot, framesDir, images, withPreview, frames[1..], next)
  }

  /** The body of the loop for one readable frame file: the new reference blocks and
      lists, as `FrameStep` gives them, or the message of the exception raised. */
  method ExtractFrame(env: Vision, urlRoot: string, framesDir: string, images: seq<Preprocessing.FrameImage>, withPreview: bool,
                      filename: string, refs0: seq<Option<Block>>, frameCounter: nat,
                      featureRows0: seq<Row>, quadrantRows0: seq<Row>, previews0: seq<FramePreview>)
    returns (error: Option<string>, refs: seq<Option<Block>>,
             featureRows: seq<Row>, quadrantRows: seq<Row>, previews: seq<FramePreview>)
    requires |refs0| == 2
    ensures var step := FrameStep(env, urlRoot, framesDir, images, withPreview,
                                  LoopState(refs0, frameCounter, featureRows0, quadrantRows0, previews0), filename);
      && (error.None? <==> step.Some?)
      && (error.None? ==> step.value == LoopState(refs, frameCounter + 1, featureRows, quadrantRows, previews))
    ensures error.Some? ==> error.value in {UnboundMessage("current_frame_all_features"), UnboundMessage("current_frame_quadran_data")}
  {
    var url: Option<string> := None;
    if withPreview {
      url := LookupUrl(images, filename);
    }
    var featureRow: Option<Row> := None;
    var quadrantRow: Option<Row> := None;
    if frameCounter > 0 {
      featureRow := Some([("Frame", CStr(FrameLabel(frameCounter, filename)))]);
      quadrantRow := Some([("Frame", CStr(FrameLabel(frameCounter, filename)))]);
    }
    var components;
    error, refs, featureRow, quadrantRow, components :=
      ProcessFaces(env, urlRoot, framesDir, filename, withPreview, refs0, featureRow, quadrantRow, []);
    featureRows, quadrantRows, previews := featureRows0, quadrantRows0, previews0;
    if error.Some? {
      return;
    }
    if frameCounter > 0 {
      quadrantRows := quadrantRows + [Finished(quadrantRow.value)];
      featureRows := featureRows + [Finished(featureRow.value)];
    }
    if withPreview {
      previews := previews + [FramePreview(filename, url, components)];
    }
  }

  /** `_extract_features_from_frames`: the two row lists and the preview list, or the
      message of the exception raised on the way. */
  method ExtractFeaturesFromFrames(env: Vision, urlRoot: string, framesDir: string, listing: seq<string>,
                                   images: seq<Preprocessing.FrameImage>, withPreview: bool)
    returns (outcome: Result<Extraction>)
    ensures var run := Run(env, urlRoot, framesDir, images, withPreview, FrameFiles(env, NaturalSort.SortByNaturalKey(listing)), INITIAL);
      && (outcome.Err? <==> run.None?)
      && (outcome.Ok? ==> outcome.value == Extraction(run.value.featureRows, run.value.quadrantRows, run.value.previews))
    ensures outcome.Err? ==> outcome.message in {UnboundMessage("current_frame_all_features"), UnboundMessage("current_frame_quadran_data")}
  {
    var sorted := NaturalSort.SortByNaturalKey(listing);
    ghost var total := Run(env, urlRoot, framesDir, images, withPreview, FrameFiles(env, sorted), INITIAL);
    var refs: seq<Option<Block>> := [None, None];
    var frameCounter: nat := 0;
    var featureRows: seq<Row> := [];
    var quadrantRows: seq<Row> := [];
    var previews: seq<FramePreview> := [];
    var i := 0;
    while i < |sorted|
      invariant 0 <= i <= |sorted| && |refs| == 2
      invariant total == Run(env, urlRoot, framesDir, images, withPreview, FrameFiles(env, sorted[i..]),
                             LoopState(refs, frameCounter, featureRows, quadrantRows, previews))
      decreases |sorted| - i
    {
      var filename := sorted[i];
      FrameFilesStep(env, sorted, i);
      if !(EndsWith(filename, ".jpg") || EndsWith(filename, ".png")) {
        assert FrameFiles(env, sorted[i..]) == FrameFiles(env, sorted[i + 1..]);
        i := i + 1;
        continue;
      }
      if !env.readable(filename) {
        assert FrameFiles(env, sorted[i..]) == FrameFiles(env, sorted[i + 1..]);
        i := i + 1;
        continue;
      }
      ghost var before := LoopState(refs, frameCounter, featureRows, quadrantRows, previews);
      RunAtFrameFile(env, urlRoot, framesDir, images, withPreview, sorted, i, before);
      var error;
      error, refs, featureRows, quadrantRows, previews :=
        ExtractFrame(env, urlRoot, framesDir, images, withPreview, filename, refs, frameCounter, featureRows, quadrantRows, previews);
      if error.Some? {
        return Err(error.value);
      }
      frameCounter := frameCounter + 1;
      i := i + 1;
      if refs[0].None? && refs[1].None? && frameCounter > 10 {
        assert total == Some(LoopState(refs, frameCounter, featureRows, quadrantRows, previews));
        break;
      }
    }
    assert i == |sorted| ==> sorted[i..] == [];
    outcome := Ok(Extraction(featureRows, quadrantRows, previews));
  }

  lemma {:induction false} FrameFilesStep(env: Vision, files: seq<string>, i: nat)
    requires i < |files|
    ensures FrameFiles(env, files[i..]) == (if IsFrameFile(env, files[i]) then [files[i]] else []) + FrameFiles(env, files[i + 1..])
  {
    assert files[i..][1..] == files[i + 1..];
  }

  /** The loop from the `i`-th listed file on, when that file is a frame file: the step on it
      decides whether the loop raises, stops or goes on with the files after it. */
  lemma {:induction false} RunAtFrameFile(env: Vision, urlRoot: string, framesDir: string, images: seq<Preprocessing.FrameImage>,
                                          withPreview: bool, files: seq<string>, i: nat, st: LoopState)
    requires i < |files| && IsFrameFile(env, files[i]) && |st.refs| == 2
    ensures var step := FrameStep(env, urlRoot, framesDir, images, withPreview, st, files[i]);
      var run := Run(env, urlRoot, framesDir, images, withPreview, FrameFiles(env, files[i..]), st);
      && (step.None? ==> run.None?)
      && (step.Some? && Stops(step.value) ==> run == step)
      && (step.Some? && !Stops(step.value) ==> run == Run(env, urlRoot, framesDir, images, withPreview, FrameFiles(env, files[i + 1..]), step.value))
  {
    FrameFilesStep(env, files, i);
    RunFrame(env, urlRoot, framesDir, images, withPreview, files[i], FrameFiles(env, files[i + 1..]), st);
  }

  lemma RunFrame(env: Vision, urlRoot: string, framesDir: string, images: seq<Preprocessing.FrameImage>, withPreview: bool,
                 filename: string, rest: seq<string>, st: LoopState)
    requires |st.refs| == 2
    ensures Run(env, urlRoot, framesDir, images, withPreview, [filename] + rest, st)
         == match FrameStep(env, urlRoot, framesDir, images, withPreview, st, filename)
            case None => None
            case Some(next) => if Stops(next) then Some(next) else Run(env, urlRoot, framesDir, images, withPreview, rest, next)
  {
    assert ([filename] + rest)[1..] == rest;
  }

  // ---------------------------------------------------------------------------
  // What the loop promises

  /** Once one frame has been processed the loop cannot raise any more. */
  lemma {:induction false} LaterFramesNeverRaise(env: Vision, urlRoot: string, framesDir: string, images: seq<Preprocessing.FrameImage>,
                                                 withPreview: bool, frames: seq<string>, st: LoopState)
    requires |st.refs| == 2 && st.counter > 0
    ensures Run(env, urlRoot, framesDir, images, withPreview, frames, st).Some?
    decreases |frames|
  {
    if frames != [] {
      var next := FrameStep(env, urlRoot, framesDir, images, withPreview, st, frames[0]);
      assert next.Some? && next.value.counter > 0;
      if !Stops(next.value) {
        LaterFramesNeverRaise(env, urlRoot, framesDir, images, withPreview, frames[1..], next.value);
      }
    }
  }

  /** The extraction fails exactly when the first frame file it reads shows two faces or
      more: only then is a feature computed while the row variables are still unbound. */
  lemma {:induction false} FailsIffFirstFrameHasTwoFaces(env: Vision, urlRoot: string, framesDir: string,
                                                         images: seq<Preprocessing.FrameImage>, withPreview: bool, frames: seq<string>)
    ensures Run(env, urlRoot, framesDir, images, withPreview, frames, INITIAL).None?
        <==> frames != [] && env.faces(frames[0]) >= 2
  {
    if frames != [] {
      FirstFrameRaisesIffTwoFaces(env, frames[0]);
      var next := FrameStep(env, urlRoot, framesDir, images, withPreview, INITIAL, frames[0]);
      if next.Some? && !Stops(next.value) {
        LaterFramesNeverRaise(env, urlRoot, framesDir, images, withPreview, frames[1..], next.value);
      }
    }
  }

  /** While no frame has shown a face the reference blocks stay unset, and the loop breaks
      after the eleventh frame: later frames are never looked at. */
  lemma {:induction false} FacelessFramesStop(env: Vision, urlRoot: string, framesDir: string, images: seq<Preprocessing.FrameImage>,
                                              withPreview: bool, frames: seq<string>, st: LoopState)
    requires st.refs == [None, None] && st.counter <= 10 && |frames| >= 11 - st.counter
    requires forall j :: 0 <= j < 11 - st.counter ==> env.faces(frames[j]) == 0
    ensures var r := Run(env, urlRoot, framesDir, images, withPreview, frames, st);
      && r == Run(env, urlRoot, framesDir, images, withPreview, frames[..11 - st.counter], st)
      && r.Some? && r.value.counter == 11 && r.value.refs == [None, None]
  {
    FacelessFramesIgnoreRest(env, urlRoot, framesDir, images, withPreview, frames, st);
    FacelessFramesEnd(env, urlRoot, framesDir, images, withPreview, frames, st);
  }

  /** The frames after the eleventh faceless one do not change the outcome. */
  lemma {:induction false} FacelessFramesIgnoreRest(env: Vision, urlRoot: string, framesDir: string, images: seq<Preprocessing.FrameImage>,
                                                    withPreview: bool, frames: seq<string>, st: LoopState)
    requires st.refs == [None, None] && st.counter <= 10 && |frames| >= 11 - st.counter
    requires forall j :: 0 <= j < 11 - st.counter ==> env.faces(frames[j]) == 0
    ensures Run(env, urlRoot, framesDir, images, withPreview, frames, st)
         == Run(env, urlRoot, framesDir, images, withPreview, frames[..11 - st.counter], st)
    decreases |frames|
  {
    var c := st.counter;
    var f := frames[0];
    var prefix := frames[..11 - c];
    var tail := frames[1..];
    assert frames == [f] + tail;
    assert prefix == [f] + prefix[1..];
    var n := FacelessFrame(env, urlRoot, framesDir, images, withPreview, f, tail, prefix[1..], st);
    if c < 10 {
      assert prefix[1..] == tail[..11 - n.counter];
      FacelessFramesIgnoreRest(env, urlRoot, framesDir, images, withPreview, tail, n);
      calc {
        Run(env, urlRoot, framesDir, images, withPreview, frames, st);
        Run(env, urlRoot, framesDir, images, withPreview, [f] + tail, st);
        Run(env, urlRoot, framesDir, images, withPreview, tail, n);
        Run(env, urlRoot, framesDir, images, withPreview, tail[..11 - n.counter], n);
        Run(env, urlRoot, framesDir, images, withPreview, [f] + prefix[1..], st);
        Run(env, urlRoot, framesDir, images, withPreview, prefix, st);
      }
    }
  }

  /** The loop ends after the eleventh faceless frame, with no reference block set. */
  lemma {:induction false} FacelessFramesEnd(env: Vision, urlRoot: string, framesDir: string, images: seq<Preprocessing.FrameImage>,
                                             withPreview: bool, frames: seq<string>, st: LoopState)
    requires st.refs == [None, None] && st.counter <= 10 && |frames| >= 11 - st.counter
    requires forall j :: 0 <= j < 11 - st.counter ==> env.faces(frames[j]) == 0
    ensures var r := Run(env, urlRoot, framesDir, images, withPreview, frames, st);
      r.Some? && r.value.counter == 11 && r.value.refs == [None, None]
    decreases |frames|
  {
    var c := st.counter;
    var f := frames[0];
    var tail := frames[1..];
    assert frames == [f] + tail;
    var n := FacelessFrame(env, urlRoot, framesDir, images, withPreview, f, tail, tail, st);
    if c < 10 {
      FacelessFramesEnd(env, urlRoot, framesDir, images, withPreview, tail, n);
    }
  }

  /** A frame without faces leaves the reference blocks unset and only counts itself; the
      loop stops after it when it was the eleventh. */
  lemma FacelessFrame(env: Vision, urlRoot: string, framesDir: string, images: seq<Preprocessing.FrameImage>,
                      withPreview: bool, f: string, rest: seq<string>, rest': seq<string>, st: LoopState)
    returns (n: LoopState)
    requires st.refs == [None, None] && st.counter <= 10 && env.faces(f) == 0
    ensures n.refs == [None, None] && n.counter == st.counter + 1
    ensures Run(env, urlRoot, framesDir, images, withPreview, [f] + rest, st)
         == if n.counter == 11 then Some(n) else Run(env, urlRoot, framesDir, images, withPreview, rest, n)
    ensures Run(env, urlRoot, framesDir, images, withPreview, [f] + rest', st)
         == if n.counter == 11 then Some(n) else Run(env, urlRoot, framesDir, images, withPreview, rest', n)
  {
    var next := FrameStep(env, urlRoot, framesDir, images, withPreview, st, f);
    assert !AnyComputes(env, f, st.refs);
    n := next.value;
    RunFrame(env, urlRoot, framesDir, images, withPreview, f, rest, st);
    RunFrame(env, urlRoot, framesDir, images, withPreview, f, rest', st);
  }

  /** Column `key` of `row` holds `cell`. */
  predicate HasCell(row: Row, key: string, cell: Cell)
    decreases |row|
  {
    row != [] && (if row[0].0 == key then row[0].1 == cell else HasCell(row[1..], key, cell))
  }

  lemma {:induction false} HasCellMeans(row: Row, key: string, cell: Cell)
    ensures HasCell(row, key, cell) <==> key in Keys(row) && Get(row, key) == cell
    decreases |row|
  {
    if row != [] && row[0].0 != key {
      HasCellMeans(row[1..], key, cell);
      assert Keys(row) == [row[0].0] + Keys(row[1..]);
    }
  }

  /** A finished output row: its frame label, folder path and label. */
  predicate RowShaped(row: Row, frameCounter: nat, filename: string)
  {
    && HasCell(row, "Frame", CStr(FrameLabel(frameCounter, filename)))
    && HasCell(row, "Folder Path", CStr("data_test"))
    && HasCell(row, "Label", CStr("data_test"))
  }

  /** Row `j` of `rows` carries the label of frame `j + 1`, the first frame giving no row. */
  predicate RowsShaped(rows: seq<Row>, frames: seq<string>)
    decreases |rows|
  {
    rows == [] || (|rows| < |frames| && RowsShaped(rows[..|rows| - 1], frames) && RowShaped(rows[|rows| - 1], |rows|, frames[|rows|]))
  }

  /** Preview `j` belongs to frame `j`. */
  predicate PreviewsShaped(images: seq<Preprocessing.FrameImage>, previews: seq<FramePreview>, frames: seq<string>)
    decreases |previews|
  {
    || previews == []
    || (&& |previews| <= |frames| && PreviewsShaped(images, previews[..|previews| - 1], frames)
        && previews[|previews| - 1].name == frames[|previews| - 1]
        && previews[|previews| - 1].url == LookupUrl(images, frames[|previews| - 1]))
  }

  /** The lists after the loop has processed `frames[..st.counter]`. */
  predicate Shaped(images: seq<Preprocessing.FrameImage>, withPreview: bool, frames: seq<string>, st: LoopState)
  {
    && st.counter <= |frames|
    && |st.featureRows| == (if st.counter == 0 then 0 else st.counter - 1)
    && |st.quadrantRows| == |st.featureRows|
    && |st.previews| == (if withPreview then st.counter else 0)
    && RowsShaped(st.featureRows, frames) && RowsShaped(st.quadrantRows, frames)
    && PreviewsShaped(images, st.previews, frames)
  }

  lemma {:induction false} RowsShapedMeans(rows: seq<Row>, frames: seq<string>)
    requires RowsShaped(rows, frames)
    ensures |rows| < |frames| || rows == []
    ensures forall j :: 0 <= j < |rows| ==> RowShaped(rows[j], j + 1, frames[j + 1])
    decreases |rows|
  {
    if rows != [] {
      var init := rows[..|rows| - 1];
      RowsShapedMeans(init, frames);
      assert forall j :: 0 <= j < |init| ==> rows[j] == init[j];
    }
  }

  lemma {:induction false} PreviewsShapedMeans(images: seq<Preprocessing.FrameImage>, previews: seq<FramePreview>, frames: seq<string>)
    requires PreviewsShaped(images, previews, frames)
    ensures |previews| <= |frames|
    ensures forall j :: 0 <= j < |previews| ==> previews[j].name == frames[j] && previews[j].url == LookupUrl(images, frames[j])
    decreases |previews|
  {
    if previews != [] {
      forall j | 0 <= j < |previews|
        ensures previews[j].name == frames[j] && previews[j].url == LookupUrl(images, frames[j])
      {
        PreviewShapedAt(images, previews, frames, j);
      }
    }
  }

  lemma {:induction false} PreviewShapedAt(images: seq<Preprocessing.FrameImage>, previews: seq<FramePreview>, frames: seq<string>, j: nat)
    requires PreviewsShaped(images, previews, frames) && j < |previews|
    ensures j < |frames| && previews[j].name == frames[j] && previews[j].url == LookupUrl(images, frames[j])
    decreases |previews|
  {
    var k := |previews| - 1;
    if j < k {
      var init := previews[..k];
      PreviewShapedAt(images, init, frames, j);
      assert previews[j] == init[j];
    }
  }

  lemma {:induction false} FinishedShaped(row: Row, frameCounter: nat, filename: string)
    requires "Frame" in Keys(row) && Get(row, "Frame") == CStr(FrameLabel(frameCounter, filename))
    ensures RowShaped(Finished(row), frameCounter, filename)
  {
    var r1 := Put(row, "Folder Path", CStr("data_test"));
    var r2 := Put(r1, "Label", CStr("data_test"));
    assert "Frame"[1] != "Folder Path"[1] && "Frame"[0] != "Label"[0] && "Folder Path"[0] != "Label"[0];
    PutSpec(row, "Folder Path", CStr("data_test"));
    assert "Frame" in Keys(r1) && Get(r1, "Frame") == CStr(FrameLabel(frameCounter, filename));
    PutSpec(r1, "Label", CStr("data_test"));
    assert Get(r2, "Frame") == CStr(FrameLabel(frameCounter, filename));
    assert Get(r2, "Folder Path") == CStr("data_test");
    HasCellMeans(r2, "Frame", CStr(FrameLabel(frameCounter, filename)));
    HasCellMeans(r2, "Folder Path", CStr("data_test"));
    HasCellMeans(r2, "Label", CStr("data_test"));
  }

  /** The two rows a frame produces carry its label, whatever the faces computed. */
  lemma {:induction false} FrameRowsShaped(env: Vision, filename: string, refs: seq<Option<Block>>, frameCounter: nat, n: nat)
    requires |refs| == 2
    ensures var first: Row := [("Frame", CStr(FrameLabel(frameCounter, filename)))];
      && RowShaped(Finished(FeaturesAfter(env, filename, refs, first, n)), frameCounter, filename)
      && RowShaped(Finished(QuadrantsAfter(env, filename, refs, first, n)), frameCounter, filename)
  {
    var first: Row := [("Frame", CStr(FrameLabel(frameCounter, filename)))];
    assert "Frame" in Keys(first) && Get(first, "Frame") == CStr(FrameLabel(frameCounter, filename));
    FeaturesKeepOtherColumns(env, filename, refs, first, n, "Frame");
    QuadrantsKeepOtherColumns(env, filename, refs, first, n, "Frame");
    FinishedShaped(FeaturesAfter(env, filename, refs, first, n), frameCounter, filename);
    FinishedShaped(QuadrantsAfter(env, filename, refs, first, n), frameCounter, filename);
  }

  lemma {:induction false} AppendRowShaped(rows: seq<Row>, row: Row, frames: seq<string>)
    requires |rows| + 1 < |frames| && RowShaped(row, |rows| + 1, frames[|rows| + 1]) && RowsShaped(rows, frames)
    ensures RowsShaped(rows + [row], frames)
  {
    assert (rows + [row])[..|rows|] == rows;
  }

  lemma {:induction false} AppendPreviewShaped(images: seq<Preprocessing.FrameImage>, previews: seq<FramePreview>, p: FramePreview, frames: seq<string>)
    requires |previews| < |frames| && p.name == frames[|previews|] && p.url == LookupUrl(images, frames[|previews|])
    requires PreviewsShaped(images, previews, frames)
    ensures PreviewsShaped(images, previews + [p], frames)
  {
    assert (previews + [p])[..|previews|] == previews;
  }

  /** One more frame keeps the lists shaped. */
  lemma {:induction false} AppendShaped(images: seq<Preprocessing.FrameImage>, withPreview: bool, frames: seq<string>,
                                        st: LoopState, next: LoopState, featureRow: Row, quadrantRow: Row, preview: FramePreview)
    requires Shaped(images, withPreview, frames, st) && st.counter < |frames|
    requires RowShaped(featureRow, st.counter, frames[st.counter]) && RowShaped(quadrantRow, st.counter, frames[st.counter])
    requires preview.name == frames[st.counter] && preview.url == LookupUrl(images, frames[st.counter])
    requires next.counter == st.counter + 1
    requires next.featureRows == (if st.counter > 0 then st.featureRows + [featureRow] else st.featureRows)
    requires next.quadrantRows == (if st.counter > 0 then st.quadrantRows + [quadrantRow] else st.quadrantRows)
    requires next.previews == (if withPreview then st.previews + [preview] else st.previews)
    ensures Shaped(images, withPreview, frames, next)
  {
    var c := st.counter;
    if c > 0 {
      assert |st.featureRows| + 1 == c && |st.quadrantRows| + 1 == c;
      AppendRowShaped(st.featureRows, featureRow, frames);
      AppendRowShaped(st.quadrantRows, quadrantRow, frames);
    }
    if withPreview {
      assert |st.previews| == c;
      AppendPreviewShaped(images, st.previews, preview, frames);
    }
  }

  lemma {:induction false} StepShaped(env: Vision, urlRoot: string, framesDir: string, images: seq<Preprocessing.FrameImage>,
                                      withPreview: bool, frames: seq<string>, st: LoopState)
    requires |st.refs| == 2 && Shaped(images, withPreview, frames, st) && st.counter < |frames|
    requires FrameStep(env, urlRoot, framesDir, images, withPreview, st, frames[st.counter]).Some?
    ensures Shaped(images, withPreview, frames, FrameStep(env, urlRoot, framesDir, images, withPreview, st, frames[st.counter]).value)
  {
    var f := frames[st.counter];
    var n := 2 * env.faces(f);
    var first: Row := [("Frame", CStr(FrameLabel(st.counter, f)))];
    FrameRowsShaped(env, f, st.refs, st.counter, n);
    AppendShaped(images, withPreview, frames, st, FrameStep(env, urlRoot, framesDir, images, withPreview, st, f).value,
                 Finished(FeaturesAfter(env, f, st.refs, first, n)), Finished(QuadrantsAfter(env, f, st.refs, first, n)),
                 FramePreview(f, LookupUrl(images, f), PreviewsAfter(env, urlRoot, framesDir, f, st.refs, [], n)));
  }

  /** `RunFrame` on the frames from the counter on. */
  lemma RunFrameAt(env: Vision, urlRoot: string, framesDir: string, images: seq<Preprocessing.FrameImage>, withPreview: bool,
                   frames: seq<string>, st: LoopState)
    requires |st.refs| == 2 && st.counter < |frames|
    ensures Run(env, urlRoot, framesDir, images, withPreview, frames[st.counter..], st)
         == match FrameStep(env, urlRoot, framesDir, images, withPreview, st, frames[st.counter])
            case None => None
            case Some(next) => if Stops(next) then Some(next) else Run(env, urlRoot, framesDir, images, withPreview, frames[st.counter + 1..], next)
  {
    assert frames[st.counter..] == [frames[st.counter]] + frames[st.counter + 1..];
    RunFrame(env, urlRoot, framesDir, images, withPreview, frames[st.counter], frames[st.counter + 1..], st);
  }

  lemma {:induction false} RunShaped(env: Vision, urlRoot: string, framesDir: string, images: seq<Preprocessing.FrameImage>,
                                     withPreview: bool, frames: seq<string>, st: LoopState)
    requires |st.refs| == 2 && Shaped(images, withPreview, frames, st)
    ensures var r := Run(env, urlRoot, framesDir, images, withPreview, frames[st.counter..], st);
      r.Some? ==> Shaped(images, withPreview, frames, r.value)
    decreases |frames| - st.counter
  {
    var c := st.counter;
    if c < |frames| {
      var f := frames[c];
      var next := FrameStep(env, urlRoot, framesDir, images, withPreview, st, f);
      RunFrameAt(env, urlRoot, framesDir, images, withPreview, frames, st);
      if next.Some? {
        var n := next.value;
        assert n.counter == c + 1 && |n.refs| == 2 && Shaped(images, withPreview, frames, n) by {
          StepShaped(env, urlRoot, framesDir, images, withPreview, frames, st);
        }
        if !Stops(n) {
          RunShaped(env, urlRoot, framesDir, images, withPreview, frames, n);
        }
      }
    } else {
      assert frames[c..] == [];
    }
  }

  /** A run that does not raise has processed every frame file, unless it broke off. */
  lemma {:induction false} RunProcessesAll(env: Vision, urlRoot: string, framesDir: string, images: seq<Preprocessing.FrameImage>,
                                           withPreview: bool, frames: seq<string>, st: LoopState)
    requires |st.refs| == 2
    ensures var r := Run(env, urlRoot, framesDir, images, withPreview, frames, st);
      r.Some? ==> r.value.counter == st.counter + |frames| || (Stops(r.value) && r.value.counter < st.counter + |frames|)
    decreases |frames|
  {
    if frames != [] {
      var next := FrameStep(env, urlRoot, framesDir, images, withPreview, st, frames[0]);
      if next.Some? && !Stops(next.value) {
        RunProcessesAll(env, urlRoot, framesDir, images, withPreview, frames[1..], next.value);
      }
    }
  }

  /** The lists `_extract_features_from_frames` returns, when it does not raise: the
      frames it processed are the first `counter` frame files, all of them unless the loop
      broke off with no reference block; frame `j + 1` gave feature row and quadrant row
      `j`, labelled with counter `j + 1` and with folder path and label `data_test`;
      with previews, frame `j` gave preview `j`. */
  lemma {:induction false} ExtractionShaped(env: Vision, urlRoot: string, framesDir: string, images: seq<Preprocessing.FrameImage>,
                                            withPreview: bool, frames: seq<string>)
    ensures var r := Run(env, urlRoot, framesDir, images, withPreview, frames, INITIAL);
      r.Some? ==>
        && (r.value.counter == |frames| || (Stops(r.value) && r.value.counter < |frames|))
        && |r.value.featureRows| == |r.value.quadrantRows| == (if r.value.counter == 0 then 0 else r.value.counter - 1)
        && |r.value.previews| == (if withPreview then r.value.counter else 0)
        && (forall j :: 0 <= j < |r.value.featureRows| ==> RowShaped(r.value.featureRows[j], j + 1, frames[j + 1]))
        && (forall j :: 0 <= j < |r.value.quadrantRows| ==> RowShaped(r.value.quadrantRows[j], j + 1, frames[j + 1]))
        && (forall j :: 0 <= j < |r.value.previews| ==> r.value.previews[j].name == frames[j] && r.value.previews[j].url == LookupUrl(images, frames[j]))
  {
    assert frames[0..] == frames;
    RunShaped(env, urlRoot, framesDir, images, withPreview, frames, INITIAL);
    RunProcessesAll(env, urlRoot, framesDir, images, withPreview, frames, INITIAL);
    var r := Run(env, urlRoot, framesDir, images, withPreview, frames, INITIAL);
    if r.Some? {
      RowsShapedMeans(r.value.featureRows, frames);
      RowsShapedMeans(r.value.quadrantRows, frames);
      PreviewsShapedMeans(images, r.value.previews, frames);
    }
  }
}
