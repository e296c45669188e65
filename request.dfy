/**
 * The upload form of the prediction endpoint
 * (services/backend/app/request/DataModel/DataTestStoreRequest.py): the `file` field runs
 * `FileRequired`, then `FileAllowed` for five video extensions, then the inline size check
 * `validate_file`; `validate_with_preview` turns the strings 'true' and 'false' into booleans.
 */
module StoreRequest {
  import opened Wrappers
  import opened Text
  import FrontendHelper

  /** `MAX_VIDEO_CONTENT_LENGTH` (services/backend/config.py): 10 MiB. */
  const MAX_VIDEO_CONTENT_LENGTH: nat := 10 * 1024 * 1024

  const ALLOWED_EXTENSIONS: seq<string> := ["mp4", "mkv", "avi", "mov", "webm"]

  const FILE_REQUIRED_MESSAGE := "File is required"
  const FILE_ALLOWED_MESSAGE := "Only video files are allowed (format: mp4, mkv, avi, mov, webm)"
  const FILE_SIZE_MESSAGE := "File size must not exceed 10MB"
  const PREVIEW_MESSAGE := "Invalid value for with_preview. Must be a boolean."

  /** What the form's `file` field can hold: nothing, an uploaded file (a `FileStorage`
      with its name and declared length), or some other value with its truthiness. */
  datatype FileData = NoData | Upload(filename: string, contentLength: nat) | OtherData(truthy: bool)

  /** Python truthiness; a `FileStorage` is true exactly when it has a file name. */
  predicate Truthy(d: FileData)
  {
    match d
    case NoData => false
    case Upload(filename, _) => filename != ""
    case OtherData(t) => t
  }

  /** `validate_file`: a present upload longer than the limit is refused. */
  function ValidateFile(d: FileData): (error: Option<string>)
    ensures error.Some? ==> error.value == FILE_SIZE_MESSAGE
  {
    if Truthy(d) && d.Upload? && d.contentLength > MAX_VIDEO_CONTENT_LENGTH then Some(FILE_SIZE_MESSAGE) else None
  }

  /** `FileAllowed`: the lower-cased file name ends with `.` and an allowed extension. */
  predicate ExtensionAllowed(filename: string)
  {
    exists e :: e in ALLOWED_EXTENSIONS && EndsWith(Lower(filename), "." + e)
  }

  /** The errors of the `file` field. `FileRequired` and `FileAllowed` stop the chain with
      `StopValidation`, so at most one message is reported and the size is looked at only
      for a present file with an allowed extension. */
  function FileFieldErrors(d: FileData): (errors: seq<string>)
    ensures |errors| <= 1
    ensures errors == [] <==>
      d.Upload? && d.filename != "" && ExtensionAllowed(d.filename) && d.contentLength <= MAX_VIDEO_CONTENT_LENGTH
    ensures errors == [FILE_SIZE_MESSAGE] <==>
      d.Upload? && d.filename != "" && ExtensionAllowed(d.filename) && d.contentLength > MAX_VIDEO_CONTENT_LENGTH
  {
    if !(d.Upload? && Truthy(d)) then [FILE_REQUIRED_MESSAGE]
    else if !ExtensionAllowed(d.filename) then [FILE_ALLOWED_MESSAGE]
    else
      match ValidateFile(d)
      case Some(message) => [message]
      case None => []
  }

  /** The size limit is inclusive: exactly 10 MiB passes, one byte more does not. */
  lemma {:induction false} SizeLimitBoundary(filename: string)
    requires filename != "" && ExtensionAllowed(filename)
    ensures FileFieldErrors(Upload(filename, MAX_VIDEO_CONTENT_LENGTH)) == []
    ensures FileFieldErrors(Upload(filename, MAX_VIDEO_CONTENT_LENGTH + 1)) == [FILE_SIZE_MESSAGE]
  {
  }

  /** `FileAllowed`'s suffix test agrees with the extension the front end reads with
      `getFormatFile`: a name passes exactly when it has a `.` and the lower-cased text after
      the last one is an allowed extension. */
  lemma {:induction false} ExtensionAllowedIffFormat(filename: string)
    ensures ExtensionAllowed(filename) <==>
      '.' in filename && FrontendHelper.GetFormatFile(filename) in ALLOWED_EXTENSIONS
  {
    forall e | e in ALLOWED_EXTENSIONS
      ensures EndsWith(Lower(filename), "." + e) <==> '.' in filename && FrontendHelper.GetFormatFile(filename) == e
    {
      assert '.' !in e;
      EndsWithDotExtension(filename, e);
    }
  }

  lemma {:induction false} EndsWithDotExtension(f: string, e: string)
    requires '.' !in e
    ensures EndsWith(Lower(f), "." + e) <==> '.' in f && FrontendHelper.GetFormatFile(f) == e
  {
    if EndsWith(Lower(f), "." + e) {
      SuffixIsFormat(f, e);
    }
    if '.' in f && FrontendHelper.GetFormatFile(f) == e {
      FormatIsSuffix(f, e);
    }
  }

  lemma {:induction false} SuffixIsFormat(f: string, e: string)
    requires '.' !in e
    requires EndsWith(Lower(f), "." + e)
    ensures '.' in f && FrontendHelper.GetFormatFile(f) == e
  {
    FrontendHelper.FormatFileIsLastExtension(f);
    SuffixAfterLastDot(f, e, |f| - |FrontendHelper.GetFormatFile(f)|);
  }

  lemma {:induction false} SuffixAfterLastDot(f: string, e: string, k: int)
    requires '.' !in e
    requires EndsWith(Lower(f), "." + e)
    requires 0 <= k <= |f| && (k == 0 || f[k - 1] == '.') && '.' !in f[k..]
    ensures '.' in f && Lower(f[k..]) == e
  {
    var l := Lower(f);
    var j := |l| - |e| - 1;
    assert l[j..] == "." + e;
    forall i | j < i < |f| ensures f[i] != '.' {
      assert l[i] == e[i - j - 1];
    }
    assert f[j] == '.' by { assert l[j] == '.'; }
    forall i | k <= i < |f| ensures f[i] != '.' {
      assert f[k..][i - k] == f[i];
    }
    LastDot(f, j, k);
    assert Lower(f[k..]) == l[k..];
  }

  /** The position just after the last `.` is determined by the string. */
  lemma {:induction false} LastDot(s: string, j: int, k: int)
    requires 0 <= j < |s| && s[j] == '.' && forall i :: j < i < |s| ==> s[i] != '.'
    requires 0 <= k <= |s| && (k == 0 || s[k - 1] == '.') && forall i :: k <= i < |s| ==> s[i] != '.'
    ensures k == j + 1
  {
  }

  lemma {:induction false} FormatIsSuffix(f: string, e: string)
    requires '.' in f && FrontendHelper.GetFormatFile(f) == e
    ensures EndsWith(Lower(f), "." + e)
  {
    FrontendHelper.FormatFileIsLastExtension(f);
    DotThenLowered(f, |f| - |e|);
  }

  /** A string whose `k - 1`-th character is a `.` ends, once lower-cased, with that `.` and
      its lower-cased tail. */
  lemma {:induction false} DotThenLowered(f: string, k: int)
    requires 1 <= k <= |f| && f[k - 1] == '.'
    ensures EndsWith(Lower(f), "." + Lower(f[k..]))
  {
    var l := Lower(f);
    var r := Lower(f[k..]);
    assert l[k..] == r by {
      forall i | 0 <= i < |r| ensures l[k..][i] == r[i] {
        assert f[k..][i] == f[k + i];
      }
    }
    assert l[k - 1..] == [l[k - 1]] + l[k..];
  }

  /** A name with an allowed extension in any case passes; a name without a dot does not. */
  lemma {:induction false} ExtensionExamples()
    ensures ExtensionAllowed("clip.MP4")
    ensures !ExtensionAllowed("mp4")
  {
    ClipMP4Allowed();
    BareExtensionRefused();
  }

  lemma ClipMP4Allowed()
    ensures ExtensionAllowed("clip.MP4")
  {
    UpperMP4Allowed("clip");
    assert "clip" + ".MP4" == "clip.MP4";
  }

  /** Any name ending in `.MP4` passes, whatever comes before. */
  lemma UpperMP4Allowed(stem: string)
    ensures ExtensionAllowed(stem + ".MP4")
  {
    var f := stem + ".MP4";
    var l := Lower(f);
    var k := |stem|;
    assert f[k] == '.' && f[k + 1] == 'M' && f[k + 2] == 'P' && f[k + 3] == '4';
    assert l[k..] == ".mp4";
    assert "mp4" in ALLOWED_EXTENSIONS && "." + "mp4" == ".mp4";
  }

  lemma BareExtensionRefused()
    ensures !ExtensionAllowed("mp4")
  {
    var l := Lower("mp4");
    assert |l| == 3;
    forall e | e in ALLOWED_EXTENSIONS ensures !EndsWith(l, "." + e) {
      assert |e| >= 3;
    }
  }

  // ---------------------------------------------------------------------------
  // validate_with_preview

  /** The raw value of the `with_preview` field. */
  datatype PreviewData = PreviewNone | PreviewBool(b: bool) | PreviewStr(s: string) | PreviewOther

  /** The field's value after `validate_with_preview`, or the validation error. */
  function PreviewValidation(d: PreviewData): (r: Result<PreviewData>)
    ensures r.Ok? ==> r.value.PreviewBool?
    ensures r.Err? ==> r.message == PREVIEW_MESSAGE
    ensures d.PreviewBool? ==> r == Ok(d)
  {
    match d
    case PreviewBool(_) => Ok(d)
    case PreviewStr(s) =>
      if Lower(s) == "true" || Lower(s) == "false" then Ok(PreviewBool(Lower(s) == "true"))
      else Err(PREVIEW_MESSAGE)
    case _ => Err(PREVIEW_MESSAGE)
  }

  /** Exactly booleans and the two spellings, in any case, are accepted; a string becomes
      the boolean it spells. */
  lemma {:induction false} PreviewValidationCases(d: PreviewData)
    ensures PreviewValidation(d).Ok? <==>
      d.PreviewBool? || (d.PreviewStr? && Lower(d.s) in ["true", "false"])
    ensures d.PreviewStr? && PreviewValidation(d).Ok? ==>
      PreviewValidation(d).value == PreviewBool(Lower(d.s) == "true")
  {
  }

  /** Validating an already validated value changes nothing. */
  lemma {:induction false} PreviewValidationIdempotent(d: PreviewData)
    requires PreviewValidation(d).Ok?
    ensures PreviewValidation(PreviewValidation(d).value) == PreviewValidation(d)
  {
  }

  /** The form field, whose `data` the validator overwrites. */
  class PreviewField {
    var data: PreviewData

    constructor(d: PreviewData)
      ensures data == d
    {
      data := d;
    }

    /** `validate_with_preview(form, field)`. */
    method ValidateWithPreview() returns (error: Option<string>)
      modifies this
      ensures match PreviewValidation(old(data))
        case Ok(v) => error == None && data == v
        case Err(m) => error == Some(m) && data == old(data)
    {
      if data.PreviewBool? {
        return None;
      }
      if data.PreviewStr? {
        var lowered := Lower(data.s);
        if lowered == "true" || lowered == "false" {
          data := PreviewBool(lowered == "true");
          return None;
        }
      }
      return Some(PREVIEW_MESSAGE);
    }
  }
}
