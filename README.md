# CobaTesis video classification, modelled in Dafny

CobaTesis is a demo that classifies a face video. The Flask backend accepts an uploaded
video and validates the form. It cuts the video into frames and crops the mouth and the
eyebrows of every face. It measures each crop's motion against the first crop of the same
component as quadrant-labelled vectors. It sums those vectors per quadrant into feature
rows, runs the configured classifiers on the tables, and answers with a JSON envelope. The
React frontend uploads a file, or records one from the webcam, and renders the answer.

This project models the sequential logic around the vision and machine-learning calls:

- the string helpers of both sides;
- the prediction tally and the mode;
- request validation and the response envelope;
- crop arithmetic and frame naming;
- the frame loop that builds the feature rows;
- the prediction and response assembly of the upload endpoint;
- the four front-end components as state machines or section lists.

Face detection, landmarks, POC/Vektor/Quadran, model loading, scaling and `predict` are
parameters: values of the `FrameFeatures.Vision` record or functions passed in.

Modules, one per file:

| module | models |
|---|---|
| `Wrappers` | `Option` and `Result` |
| `Text` | the string builtins the sources use (`lower`, `split`, `join`, `replace`, `rfind`, digits) |
| `OrderedDict` | a Python dict / JavaScript object as an insertion-ordered association list |
| `Constants` | services/backend/app/helper/constant.py |
| `FrontendHelper` | services/frontend/src/lib/helper.ts |
| `BackendHelper` | services/backend/app/helper/helper.py, apart from `natural_sort_key` |
| `NaturalSort` | `natural_sort_key` and `sorted(..., key=natural_sort_key)` |
| `Response` | services/backend/app/response.py |
| `StoreRequest` | services/backend/app/request/DataModel/DataTestStoreRequest.py |
| `Preprocessing` | services/backend/app/helper/preprocessing.py |
| `Quadrants` | the per-component aggregation inside `_extract_features_from_frames` |
| `FrameFeatures` | the frame loop of `_extract_features_from_frames` |
| `Predictions` | `_prepare_feature_sets`, `_run_single_prediction`, `_run_all_predictions`, `_format_api_response`, `_handle_video_processing`, `store` |
| `ResultFetching` | services/frontend/src/components/index/result-fetching.tsx |
| `Webcam` | services/frontend/src/components/index/webcam.tsx |
| `InputFile` | services/frontend/src/components/index/input-file.tsx |
| `SelectSearch` | services/frontend/src/components/ui/select-search.tsx |

Stateful code is modelled as methods with loops, or as classes:

- `get_calculate_from_predict`, the frame-saving loop, the frame loop and the prediction
  loops are methods with loops. Each is proved against a function that specifies it.
- The React components `WebcamStream`, `InputFile` and `Select` are classes whose methods
  are the event handlers. They keep a validity invariant and record side effects
  (uploads, `onChange` calls, mutations) in a log field.

The frame loop is modelled as written. `current_frame_all_features` and
`current_frame_quadran_data` are bound only from the second frame on. In the first frame, a
second detected face finds the references already set and writes to the unbound rows. So
the whole extraction raises exactly when the first frame shows two or more faces
(`FrameFeatures.FailsIffFirstFrameHasTwoFaces`). `store()` turns that into a 500 answer.

## Model

| member | source | states |
|---|---|---|
| `Text.Lower` | services/backend/app/helper/helper.py:12 | `str.lower`/`toLowerCase`: same length, each character case-mapped on its own |
| `Text.LowerIdempotent` | services/frontend/src/lib/helper.ts:9 | lowercasing twice equals lowercasing once |
| `Text.SplitPiecesFree` | services/frontend/src/lib/helper.ts:3 | no piece of `split(sep)` contains the separator |
| `Text.SplitWithoutSeparator` | services/frontend/src/lib/helper.ts:3 | a string without the separator splits into itself alone |
| `Text.SplitAtFirstSeparator` | services/frontend/src/lib/helper.ts:3 | the first piece ends at the first separator; the rest splits recursively |
| `Text.SplitTrailingSeparator` | services/frontend/src/lib/helper.ts:9 | a trailing separator adds a final empty piece |
| `Text.SplitJoin` | services/frontend/src/lib/helper.ts:3-5 | joining the pieces of `split(sep)` with `sep` gives back the string |
| `Text.SplitCount` | services/frontend/src/lib/helper.ts:3 | `split` gives one piece more than there are separators |
| `Text.NatToStringValue` | services/backend/app/helper/preprocessing.py:120 | the decimal text of a counter reads back as the same number |
| `Text.LowerCharDigit` | services/backend/app/helper/helper.py:85 | lower-casing a character never makes or unmakes a decimal digit, and leaves digits alone |
| `Text.ReplaceChar` | services/backend/app/helper/preprocessing.py:85 | `replace('\\', '/')`: same length, exactly the matching characters replaced |
| `Text.ReplaceCharConcat` | services/backend/app/helper/preprocessing.py:85 | a single-character replacement distributes over concatenation |
| `Text.ReplaceFirstAt` | services/backend/app/helper/preprocessing.py:85 | `replace(pat, rep, 1)` splices `rep` in at the first occurrence only |
| `Text.ReplaceFirstNone` | services/backend/app/helper/preprocessing.py:85 | without an occurrence, `replace(pat, rep, 1)` changes nothing |
| `Text.ReplaceFirstKeepsOut` | services/backend/app/helper/preprocessing.py:85 | a character in neither the string nor the replacement is not introduced |
| `Text.LastIndexOf` | services/frontend/src/lib/helper.ts:9 | the index of the last occurrence of a character, or -1, and none after it |
| `Text.SplitextRootOfName` | services/backend/app/controller/DataModelController.py:259 | `os.path.splitext(name)[0]` drops exactly the last extension of a file name |
| `OrderedDict.Keys` | services/backend/app/controller/DataModelController.py:525-534 | the keys of a dict, entry by entry in insertion order |
| `OrderedDict.PutSpec` | services/backend/app/controller/DataModelController.py:531-534 | `d[k] = v` keeps the key order, appends a new key at the end and changes only `k` |
| `OrderedDict.PutKeepsDistinct` | services/backend/app/controller/DataModelController.py:531-534 | assignment keeps keys distinct |
| `OrderedDict.PutReads` | services/backend/app/controller/DataModelController.py:531-534 | after `d[k] = v`, `k` reads `v` and every other key reads what it read before |
| `OrderedDict.PutPut` | services/backend/app/controller/DataModelController.py:333 | a second assignment to the same key overwrites the first |
| `OrderedDict.PutAllKeys` | services/backend/app/controller/DataModelController.py:330-333 | after a series of assignments, the keys are the old ones plus the assigned ones |
| `OrderedDict.PutAllInside` | services/backend/app/controller/DataModelController.py:330-333 | with distinct assigned keys, each reads the value assigned to it |
| `OrderedDict.PutAllOutside` | services/backend/app/controller/DataModelController.py:316-333 | a key that is never assigned keeps its presence and its value |
| `OrderedDict.PutAllDistinct` | services/backend/app/controller/DataModelController.py:525-534 | assigning distinct keys into `{}` gives exactly those entries in that order |
| `Constants.ComponentNames` | services/backend/app/helper/constant.py:2-15 | the components are `mulut` then `alis`, in dict order |
| `FrontendHelper.CapitalizeAll` | services/frontend/src/lib/helper.ts:4 | every piece is capitalised and none is added or dropped |
| `FrontendHelper.CapitalizePointwise` | services/frontend/src/lib/helper.ts:1-6 | the output has the input's length; an `_` becomes a space, the first character of each piece is upper-cased, and every other character is kept |
| `FrontendHelper.NoUnderscore` | services/frontend/src/lib/helper.ts:3-5 | the output contains no `_` |
| `FrontendHelper.CapitalizeWords` | services/frontend/src/lib/helper.ts:3-5 | the output is the capitalised `_`-pieces joined by single spaces, one word more than there are underscores |
| `FrontendHelper.CapitalizeIdempotent` | services/frontend/src/lib/helper.ts:2-5 | applying the function twice equals applying it once |
| `FrontendHelper.RandomForestExample` | services/frontend/src/lib/helper.ts:1-6 | `"random_forest"` becomes `"Random Forest"` |
| `FrontendHelper.ConsecutiveUnderscoresExample` | services/frontend/src/lib/helper.ts:2-5 | consecutive underscores give empty words: `"a__b"` becomes `"A  B"` |
| `FrontendHelper.FormatFileIsLastExtension` | services/frontend/src/lib/helper.ts:8-10 | the result is the lowercased text after the last `.`, or the whole string lowercased when there is none |
| `FrontendHelper.FormatFileHasNoDot` | services/frontend/src/lib/helper.ts:9 | the result never contains `.` |
| `FrontendHelper.FormatFileEdgeCases` | services/frontend/src/lib/helper.ts:9 | no `.` gives the whole string lowercased; a trailing `.` gives `""` |
| `FrontendHelper.WebmExample` | services/frontend/src/lib/helper.ts:8-10 | `"video.WEBM"` has format `"webm"` |
| `BackendHelper.Count` | services/backend/app/helper/helper.py:55 | the tally `Counter` keeps for an element is at most the list's length |
| `BackendHelper.CountIsMultiplicity` | services/backend/app/helper/helper.py:55 | the tally `Counter` keeps for an element is exactly its multiplicity in the list |
| `BackendHelper.CountPositiveIffIn` | services/backend/app/helper/helper.py:55 | a `Counter` entry exists exactly for the labels that occur |
| `BackendHelper.DistinctSpec` | services/backend/app/helper/helper.py:55-66 | the `Counter` keys are exactly the labels that occur, each once |
| `BackendHelper.CountLabels` | services/backend/app/helper/helper.py:55 | `Counter(...)` maps each distinct label, in first-occurrence order, to its number of occurrences |
| `BackendHelper.GetCalculateFromPredict` | services/backend/app/helper/helper.py:53-82 | one entry per distinct label in first-occurrence order, with its count and share of the total. The result is the earliest label of maximum count, or `None` exactly for empty input, which divides nothing |
| `BackendHelper.TallyCountsSum` | services/backend/app/helper/helper.py:55-73 | the entries' counts are all at least 1, their names are distinct, and the counts sum to the input length |
| `BackendHelper.CountOverDistinct` | services/backend/app/helper/helper.py:55-58 | the occurrence counts of the distinct labels add up to the list's length |
| `BackendHelper.Average` | services/backend/app/helper/helper.py:5-8 | an element of maximum frequency, ties going to the smallest value; an error for an empty array |
| `BackendHelper.CollapseSpaces` | services/backend/app/helper/helper.py:13 | the rewritten string has no whitespace (any character `str.isspace` accepts) and adds no upper-case letters |
| `BackendHelper.CollapseSpacesRun` | services/backend/app/helper/helper.py:13 | a run of Unicode whitespace between non-space text becomes exactly one `_` |
| `BackendHelper.SnakeCaseShape` | services/backend/app/helper/helper.py:10-13 | the output has no upper-case letter and no character `\s` matches |
| `BackendHelper.SnakeCaseIdempotent` | services/backend/app/helper/helper.py:10-13 | `to_snake_case` is idempotent |
| `BackendHelper.ConvertShape` | services/backend/app/helper/helper.py:87-98 | list lengths and dict key lists are preserved and non-container values are returned unchanged |
| `BackendHelper.ConvertRemovesArrays` | services/backend/app/helper/helper.py:87-98 | the result contains no ndarray at any depth |
| `BackendHelper.ConvertKeepsArrayFree` | services/backend/app/helper/helper.py:87-98 | a value without ndarrays is returned unchanged |
| `BackendHelper.ConvertIdempotent` | services/backend/app/helper/helper.py:87-98 | converting twice equals converting once |
| `NaturalSort.SplitDigitRuns` | services/backend/app/helper/helper.py:85 | `re.split('(\d+)', s)` (with `\d` any Unicode decimal digit) has an odd number of pieces |
| `NaturalSort.SplitFirst` | services/backend/app/helper/helper.py:85 | the first piece of the split is the leading run free of decimal digits |
| `NaturalSort.SplitDigitRunsShape` | services/backend/app/helper/helper.py:85 | pieces alternate between text free of Unicode decimal digits and non-empty runs of them |
| `NaturalSort.SplitDigitRunsConcat` | services/backend/app/helper/helper.py:85 | the pieces concatenate back to the string |
| `NaturalSort.KeyShape` | services/backend/app/helper/helper.py:84-85 | the key alternates lowercased text pieces with the integer values of the digit runs, each digit of any script worth its offset from its block's zero |
| `NaturalSort.CaseInsensitive` | services/backend/app/helper/helper.py:85 | a name and its lowercase have the same key |
| `NaturalSort.KeysComparable` | services/backend/app/helper/helper.py:85 | two keys have text and numbers at the same positions, so Python can compare them |
| `NaturalSort.KeyLessTransitive` | services/backend/app/controller/DataModelController.py:240 | the key order is transitive |
| `NaturalSort.KeyLessIrreflexive` | services/backend/app/controller/DataModelController.py:240 | the key order is irreflexive |
| `NaturalSort.NumberedNamesInNumericOrder` | services/backend/app/helper/helper.py:84-85 | `prefix + str(m)` orders before `prefix + str(n)` exactly when `m < n` |
| `NaturalSort.Img2BeforeImg10` | services/backend/app/helper/helper.py:84-85 | `"img2"` orders before `"img10"`, although as plain strings `"img10"` comes first |
| `NaturalSort.SortByNaturalKey` | services/backend/app/controller/DataModelController.py:240 | `sorted(listing, key=natural_sort_key)` is a permutation of the listing in non-decreasing key order, and the names with any one key keep their listing order |
| `NaturalSort.InsertByStable` | services/backend/app/controller/DataModelController.py:240 | inserting a name puts it behind every name with the same key |
| `NaturalSort.SortByStable` | services/backend/app/controller/DataModelController.py:240 | `sorted` is stable: for every key, the elements with that key come out in input order |
| `Response.Success` | services/backend/app/response.py:4-9 | the body has exactly the keys code, message and data, in that order |
| `Response.Error` | services/backend/app/response.py:11-16 | the body has exactly the keys code, message and errors, in that order |
| `Response.SuccessReadBack` | services/backend/app/response.py:4-9 | the status equals the body's `code`, the other fields read back as given, and the content type is `application/json` |
| `Response.ErrorReadBack` | services/backend/app/response.py:11-16 | the status equals the body's `code`, the other fields read back as given, and the content type is `application/json` |
| `Response.Defaults` | services/backend/app/response.py:4-11 | `success()` answers 200 with null data, `error()` answers 500 with `errors=[]`, both with a null message |
| `StoreRequest.ValidateFile` | services/backend/app/request/DataModel/DataTestStoreRequest.py:14-20 | the size check runs only on present `FileStorage` data and fails only with the size message |
| `StoreRequest.FileFieldErrors` | services/backend/app/request/DataModel/DataTestStoreRequest.py:7-20 | the field fails when the file is missing, has another extension, or is over the size limit, with the matching message; otherwise there are no errors |
| `StoreRequest.SizeLimitBoundary` | services/backend/app/request/DataModel/DataTestStoreRequest.py:19-20 | a size equal to `MAX_VIDEO_CONTENT_LENGTH` passes; one byte more is rejected |
| `StoreRequest.ExtensionAllowedIffFormat` | services/backend/app/request/DataModel/DataTestStoreRequest.py:10 | a file name is allowed exactly when it has a `.` and its lowercased last extension is mp4, mkv, avi, mov or webm |
| `StoreRequest.EndsWithDotExtension` | services/backend/app/request/DataModel/DataTestStoreRequest.py:10 | ending in `.ext` case-insensitively is the same as having `ext` as last extension |
| `StoreRequest.ExtensionExamples` | services/backend/app/request/DataModel/DataTestStoreRequest.py:10 | `clip.MP4` is allowed; a bare `mp4` without a dot is not |
| `StoreRequest.PreviewValidation` | services/backend/app/request/DataModel/DataTestStoreRequest.py:22-34 | a success is always a boolean, a failure always carries the boolean message, and booleans pass unchanged |
| `StoreRequest.PreviewValidationCases` | services/backend/app/request/DataModel/DataTestStoreRequest.py:22-34 | validation succeeds exactly for a boolean or for `true`/`false` in any case, which becomes the matching boolean; `None` and everything else fail |
| `StoreRequest.PreviewValidationIdempotent` | services/backend/app/request/DataModel/DataTestStoreRequest.py:23-32 | validating the converted value again leaves it as it is |
| `StoreRequest.PreviewField.ValidateWithPreview` | services/backend/app/request/DataModel/DataTestStoreRequest.py:22-34 | the field's data is replaced in place by the converted boolean, or the validation error is raised and the data kept |
| `Preprocessing.PathJoin` | services/backend/app/helper/preprocessing.py:79 | `os.path.join`: an absolute second part replaces the first, otherwise the result ends with it |
| `Preprocessing.StaticFilename` | services/backend/app/helper/preprocessing.py:85 | the static file name contains no backslash |
| `Preprocessing.StaticUrl` | services/backend/app/helper/preprocessing.py:85 | the URL is the root, `/assets/` (the app's static URL path, from `static_folder='../assets'`), then the rewritten file name |
| `Preprocessing.StaticFilenameOfAssetsPath` | services/backend/app/helper/preprocessing.py:85 | a path under `assets/` or `assets\` loses that prefix and has every `\` turned into `/` |
| `Preprocessing.StaticUrlOfAssetsPath` | services/backend/app/__init__.py:10 | a file saved as `assets/<rest>` gets the URL root + `/assets/` + `<rest>` with forward slashes: its own path, since the app serves the `assets` folder at `/assets` |
| `Preprocessing.StaticFilenameRemovesOnlyFirst` | services/backend/app/helper/preprocessing.py:85 | only the first `assets/` is removed |
| `Preprocessing.StaticFilenameOutsideAssets` | services/backend/app/helper/preprocessing.py:85 | a path without `assets/` only has its backslashes turned into slashes |
| `Preprocessing.ComponentCrop` | services/backend/app/helper/preprocessing.py:39-63 | the origin is the shifted left and top landmarks clamped at 0; width and height are the configured dimension capped by what is left of the image |
| `Preprocessing.CropIgnoresRightAndLowest` | services/backend/app/helper/preprocessing.py:51-63 | the right and lowest landmarks do not affect the crop |
| `Preprocessing.SliceBound` | services/backend/app/helper/preprocessing.py:71 | a non-negative slice bound is clamped to the length |
| `Preprocessing.CropWithinImage` | services/backend/app/helper/preprocessing.py:71 | the slice `[y : y+h+1, x : x+w+1]` stays inside the image and is at most (height+1)×(width+1) |
| `Preprocessing.MouthCropExample` | services/backend/app/helper/constant.py:2-15 | the mouth setup applied to a sample face gives the expected rectangle |
| `Preprocessing.Format02` | services/backend/app/helper/preprocessing.py:79 | `f"{name:02}"` keeps names of two or more characters and pads shorter ones to two |
| `Preprocessing.ComponentImageUrl` | services/backend/app/helper/preprocessing.py:78-85 | `image_url` is set exactly when the preview is on and the write succeeded, and is then the static URL of the saved file |
| `Preprocessing.WrittenFramesSpec` | services/backend/app/helper/preprocessing.py:108-135 | the listed frame numbers are exactly the reads whose write succeeded, in increasing order |
| `Preprocessing.FrameImagesAt` | services/backend/app/helper/preprocessing.py:120-132 | entry `j` carries the name and URL of the `j`-th written frame |
| `Preprocessing.GetFramesByInputVideo` | services/backend/app/helper/preprocessing.py:89-146 | a missing path or an unopened capture gives no frames and the matching message. Otherwise there is one `img{count}` entry per successful write, in read order; a zero frame rate raises after the first read |
| `Preprocessing.FrameImagesNamed` | services/backend/app/helper/preprocessing.py:108-135 | read `k` has an entry named `img{k}` exactly when its write succeeded, so a failed write leaves a gap; names are distinct |
| `Preprocessing.FrameNameInjective` | services/backend/app/helper/preprocessing.py:120-130 | different counters give different frame names |
| `Quadrants.Labelled` | services/backend/app/controller/DataModelController.py:322-323 | the vectors labelled with a quadrant, in order |
| `Quadrants.Totals` | services/backend/app/controller/DataModelController.py:324-328 | `JumlahQuadran` is the number of vectors summed |
| `Quadrants.QuadrantIndex` | services/backend/app/controller/DataModelController.py:323 | a label has an index exactly when it is one of Q1 to Q4 |
| `Quadrants.AggregateQuadrants` | services/backend/app/controller/DataModelController.py:272-328 | the feature row gains the four per-vector columns of every vector, and each quadrant's totals are the count and field sums of the vectors labelled with it |
| `Quadrants.EmptyQuadrantIsZero` | services/backend/app/controller/DataModelController.py:272-275 | a quadrant no vector is labelled with totals zero |
| `Quadrants.OtherLabelsIgnored` | services/backend/app/controller/DataModelController.py:323 | a vector with another label changes no quadrant's totals |
| `Quadrants.CountsAddUp` | services/backend/app/controller/DataModelController.py:323-328 | the four counts add up to the number of vectors labelled Q1 to Q4 |
| `Quadrants.QuadrantEntries` | services/backend/app/controller/DataModelController.py:330-333 | twenty entries `"{component}_{feature}_{Q}"`, quadrant by quadrant and feature by feature, each holding that total |
| `Quadrants.WriteQuadrantColumns` | services/backend/app/controller/DataModelController.py:330-333 | the row gains exactly those twenty assignments, in order |
| `Quadrants.ColumnNameInjective` | services/backend/app/controller/DataModelController.py:332 | different (feature, quadrant) pairs give different column names |
| `Quadrants.QuadrantEntriesDistinct` | services/backend/app/controller/DataModelController.py:330-333 | the twenty column names are distinct |
| `Quadrants.QuadrantColumnsWritten` | services/backend/app/controller/DataModelController.py:330-333 | every one of the twenty columns is present and holds its total, zero for an empty quadrant |
| `Quadrants.FeatureKeysStartWith` | services/backend/app/controller/DataModelController.py:317-320 | every per-vector column starts with the component name |
| `Quadrants.OtherColumnsUntouched` | services/backend/app/controller/DataModelController.py:316-333 | a column starting with another letter is never written by a component |
| `FrameFeatures.ProcessFaces` | services/backend/app/controller/DataModelController.py:267-333 | all faces of one frame, by component. Raises exactly when a feature is computed while the rows are unbound; otherwise the rows, references and preview records equal their specification functions |
| `FrameFeatures.StepAt` | services/backend/app/controller/DataModelController.py:292-294 | a component without a reference takes the current block; one with a reference keeps it |
| `FrameFeatures.RowsSkipped` | services/backend/app/controller/DataModelController.py:292-294 | a block that becomes the reference yields no features |
| `FrameFeatures.ReferenceKept` | services/backend/app/controller/DataModelController.py:292-294 | a reference, once set, never changes |
| `FrameFeatures.ReferencesFromFirstFace` | services/backend/app/controller/DataModelController.py:292-294 | from no references, the first face of the frame supplies both |
| `FrameFeatures.ComputesWithoutReferences` | services/backend/app/controller/DataModelController.py:292-303 | from no references, a component computes features exactly when it belongs to the second face or later |
| `FrameFeatures.FirstFrameRaisesIffTwoFaces` | services/backend/app/controller/DataModelController.py:263-320 | in the first frame a row is written before it exists exactly when that frame shows two faces or more |
| `FrameFeatures.FeaturesKeepOtherColumns` | services/backend/app/controller/DataModelController.py:316-320 | `Frame`, `Folder Path` and `Label` are neither added nor changed by the faces |
| `FrameFeatures.QuadrantsKeepOtherColumns` | services/backend/app/controller/DataModelController.py:330-333 | the same holds for the quadrant row |
| `FrameFeatures.LastFaceWins` | services/backend/app/controller/DataModelController.py:270-333 | with several faces, each quadrant column holds the totals of the last face |
| `FrameFeatures.MatchIndexMeans` | services/backend/app/controller/DataModelController.py:259 | the first saved image with the same root as the file, or none |
| `FrameFeatures.FrameFiles` | services/backend/app/controller/DataModelController.py:242-250 | only readable `.jpg` and `.png` files are processed, in listing order |
| `FrameFeatures.ExtractFrame` | services/backend/app/controller/DataModelController.py:252-352 | one frame's new references, rows and preview, equal to `FrameStep`, or the unbound-variable error |
| `FrameFeatures.ExtractFeaturesFromFrames` | services/backend/app/controller/DataModelController.py:226-357 | the two row lists and the previews equal the loop specification `Run` over the natural-sorted frame files, or the unbound-variable message when it raises |
| `FrameFeatures.LaterFramesNeverRaise` | services/backend/app/controller/DataModelController.py:263-265 | once one frame is processed, the loop cannot raise |
| `FrameFeatures.FailsIffFirstFrameHasTwoFaces` | services/backend/app/controller/DataModelController.py:242-352 | the extraction raises exactly when the first processed frame shows two faces or more |
| `FrameFeatures.FacelessFramesStop` | services/backend/app/controller/DataModelController.py:349-352 | when no frame shows a face, the loop breaks after the eleventh frame and later frames are never looked at |
| `FrameFeatures.RowsShapedMeans` | services/backend/app/controller/DataModelController.py:263-342 | row `j` belongs to frame `j+1`, and the first frame gives no row |
| `FrameFeatures.PreviewsShapedMeans` | services/backend/app/controller/DataModelController.py:255-345 | preview `j` is frame `j`'s name and the URL of its saved image |
| `FrameFeatures.FrameRowsShaped` | services/backend/app/controller/DataModelController.py:264-341 | each row's `Frame` is `"{counter+1}({stem})"` and its `Folder Path` and `Label` are `"data_test"` |
| `FrameFeatures.RunProcessesAll` | services/backend/app/controller/DataModelController.py:242-352 | the loop processes every frame unless the faceless-frames break ends it |
| `FrameFeatures.ExtractionShaped` | services/backend/app/controller/DataModelController.py:242-357 | from the start state: all frames processed or stopped early; every row carries its frame's label and bookkeeping cells; previews exist only with the preview flag, one per processed frame |
| `Predictions.Drop` | services/backend/app/controller/DataModelController.py:402-403 | `drop(columns=...)` keeps the number of rows |
| `Predictions.WithoutEmpty` | services/backend/app/controller/DataModelController.py:402-403 | a row empties exactly when all its columns are dropped ones |
| `Predictions.DropEmptyIffNoFeatures` | services/backend/app/controller/DataModelController.py:402-403 | a prepared table is empty, and so answers "Empty data frame.", exactly when no row holds a feature column |
| `Predictions.PrepareFeatureSets` | services/backend/app/controller/DataModelController.py:393-437 | the preparation fails exactly when an optional PCA or hybrid transform fails |
| `Predictions.FeatureSetsLayout` | services/backend/app/controller/DataModelController.py:402-437 | the keys are the two base tables, the PCA table when configured, `full_model_lda`, and the hybrid table when configured, in that order; each holds the matching table |
| `Predictions.RunSinglePrediction` | services/backend/app/controller/DataModelController.py:440-469 | empty data answers `{"error": "Empty data frame."}` without predicting; otherwise the tally of the decoded predictions, or the transform's error |
| `Predictions.PredictedKeys` | services/backend/app/controller/DataModelController.py:482-496 | one setup's result keys are its method keys that have a feature set, in method order |
| `Predictions.PredictMethods` | services/backend/app/controller/DataModelController.py:482-496 | methods without a feature set are skipped; every other method gets its single prediction |
| `Predictions.RunAllPredictions` | services/backend/app/controller/DataModelController.py:472-498 | every training setup gets an entry, possibly empty, holding the predictions of its present methods |
| `Predictions.ConfiguredMethodsPredicted` | services/backend/app/controller/DataModelController.py:479-496 | with the configured setup, all four methods are predicted when PCA is available and the three others otherwise |
| `Predictions.FlatKeys` | services/backend/app/controller/DataModelController.py:525-534 | the flattened keys are exactly `"{method}with{train}"` for every non-error result |
| `Predictions.FlatMethodsDistinct` | services/backend/app/controller/DataModelController.py:525-534 | one setup's flattened keys are distinct |
| `Predictions.FlattenPredictions` | services/backend/app/controller/DataModelController.py:525-534 | the loop builds the dict of the flattened non-error results |
| `Predictions.AtFrameAgrees` | services/backend/app/controller/DataModelController.py:541-549 | frame `k`'s prediction has a key exactly when that result has more than `k` decoded predictions, and holds the `k`-th one |
| `Predictions.PreviewAgreesWithArray` | services/backend/app/controller/DataModelController.py:531-549 | preview frame `i>0` holds, per key, element `i-1` of that key's `array_predictions` list when it has one |
| `Predictions.FramePrediction` | services/backend/app/controller/DataModelController.py:541-549 | the loop builds frame `k`'s prediction entry |
| `Predictions.MergePreviews` | services/backend/app/controller/DataModelController.py:537-549 | frame 0 gets no prediction and frame `i>0` gets the entry of frame `i-1`; names, URLs and components are kept |
| `Predictions.CsvFileCopied` | services/backend/app/controller/DataModelController.py:507-522 | `csv_file` holds the four file links verbatim |
| `Predictions.FormatApiResponse` | services/backend/app/controller/DataModelController.py:501-557 | `video` and `csv_file` are copied; the four maps hold the flattened results; `images` exists exactly with the preview flag and holds the merged previews |
| `Predictions.Column` | services/backend/app/controller/DataModelController.py:531-534 | each of the four maps has exactly the flattened result keys |
| `Predictions.ResponseShape` | services/backend/app/controller/DataModelController.py:507-555 | the JSON answer has `video`, `csv_file`, `array_predictions`, `result`, `list_predictions`, `testing_times`, and `images` only with the preview flag |
| `Predictions.ResponseKeys` | services/backend/app/controller/DataModelController.py:525-534 | `array_predictions` is keyed exactly by `"{method}with{train}"` of the non-error results |
| `Predictions.StoredVideoName` | services/backend/app/controller/DataModelController.py:194-214 | the stored video is always named `{base}.avi`, converted or not |
| `Predictions.SavedFileUrls` | services/backend/app/controller/DataModelController.py:383-389 | the file links are keyed by the four CSV and Excel names |
| `Predictions.Answer` | services/backend/app/controller/DataModelController.py:153-176 | the answer is 200 with the formatted data, or 500 when preparing the feature sets failed |
| `Predictions.ProcessFrames` | services/backend/app/controller/DataModelController.py:131-176 | the unbound-variable failure, the "No faces detected" answer for an empty table, otherwise the formatted answer |
| `Predictions.Process` | services/backend/app/controller/DataModelController.py:122-182 | a video failure answers 500 with its message, an exception 500 with its text, otherwise the frame processing |
| `Predictions.Store` | services/backend/app/controller/DataModelController.py:110-182 | 422 with the form errors exactly when the file field fails validation, otherwise the processing of the video |
| `ResultFetching.RendersIff` | services/frontend/src/components/index/result-fetching.tsx:54-57 | something renders exactly for an existing response with code 200 and non-null data; undefined data passes; data without a video throws |
| `ResultFetching.MissingDataShowsAlerts` | services/frontend/src/components/index/result-fetching.tsx:54-116 | undefined data shows an empty name and both "not found" alerts |
| `ResultFetching.VideoChoice` | services/frontend/src/components/index/result-fetching.tsx:56-89 | with a video, the player shows exactly when the URL's format is `webm`, and the "Open Video" link otherwise |
| `ResultFetching.CsvLinksPerEntry` | services/frontend/src/components/index/result-fetching.tsx:92-116 | a present `csv_file`, even `{}`, gives one link per entry in order, labelled capitalised key + `.csv`; only a missing one gives the alert |
| `ResultFetching.TableRowCount` | services/frontend/src/components/index/result-fetching.tsx:142-191 | the table has one header per group, and groups plus items body rows |
| `ResultFetching.GroupRowsOrder` | services/frontend/src/components/index/result-fetching.tsx:142-191 | the first group's header comes first, followed by its items in order, then the other groups |
| `ResultFetching.TestingTimesRows` | services/frontend/src/components/index/result-fetching.tsx:229-255 | one row per testing time, key capitalised, value kept |
| `ResultFetching.ImagesNeverRendered` | services/frontend/src/components/index/result-fetching.tsx:256-438 | the page does not depend on `images` or `array_predictions` |
| `ResultFetching.OptionalSections` | services/frontend/src/components/index/result-fetching.tsx:120-255 | the result lines, the table and the testing times appear exactly when their member is present |
| `Webcam.VideoInputs` | services/frontend/src/components/index/webcam.tsx:107-115 | the devices kept are exactly the `videoinput` ones |
| `Webcam.VideoInputsAppend` | services/frontend/src/components/index/webcam.tsx:107-115 | filtering preserves the devices' order |
| `Webcam.VideoInputsIdempotent` | services/frontend/src/components/index/webcam.tsx:107-115 | filtering twice equals filtering once |
| `Webcam.Recorded` | services/frontend/src/components/index/webcam.tsx:29-36 | the chunks kept are exactly the delivered ones with data |
| `Webcam.RecordedSnoc` | services/frontend/src/components/index/webcam.tsx:29-36 | a delivered chunk is appended at the end exactly when its size is positive |
| `Webcam.RecordedKeepsSize` | services/frontend/src/components/index/webcam.tsx:29-36 | dropping empty chunks loses no data |
| `Webcam.DefaultDevice` | services/frontend/src/components/index/webcam.tsx:121-125 | with no selection and some devices, the first device is chosen; an existing selection is never overwritten |
| `Webcam.DefaultDeviceStable` | services/frontend/src/components/index/webcam.tsx:121-125 | running the effect again changes nothing |
| `Webcam.CameraDevice` | services/frontend/src/components/index/webcam.tsx:135 | the camera is constrained to the selected device exactly when one is selected |
| `Webcam.ControlsIff` | services/frontend/src/components/index/webcam.tsx:142-185 | the controls show exactly with more than one device; the Download button shows exactly when chunks exist; the capture button matches `capturing` |
| `Webcam.WebcamStream.HandleDataAvailable` | services/frontend/src/components/index/webcam.tsx:29-36 | a chunk with data is appended at the end; nothing else changes |
| `Webcam.WebcamStream.HandleStartCapture` | services/frontend/src/components/index/webcam.tsx:38-53 | capturing is set; a recording webm recorder is created only when a stream exists |
| `Webcam.WebcamStream.HandleStopCapture` | services/frontend/src/components/index/webcam.tsx:55-60 | with a recorder it stops and capturing is cleared; without one nothing changes |
| `Webcam.WebcamStream.HandleDownload` | services/frontend/src/components/index/webcam.tsx:62-105 | without chunks nothing happens; otherwise one webm blob of all chunks in order is downloaded and uploaded as `file`, and the chunks are cleared |
| `Webcam.WebcamStream.HandleDevices` | services/frontend/src/components/index/webcam.tsx:107-115 | the device list becomes the video inputs; nothing else changes |
| `Webcam.WebcamStream.SelectDefaultDevice` | services/frontend/src/components/index/webcam.tsx:121-125 | the selection becomes the default device; nothing else changes |
| `Webcam.WebcamStream.SelectDevice` | services/frontend/src/components/index/webcam.tsx:145-146 | picking from the list selects that device |
| `InputFile.InputFile.constructor` | services/frontend/src/components/index/input-file.tsx:13-15 | no file, no upload, nothing pending |
| `InputFile.InputFile.HandleFileChange` | services/frontend/src/components/index/input-file.tsx:27-41 | an event without a file changes nothing; with files, the first is remembered under its name and uploaded exactly once |
| `InputFile.InputFile.Settle` | services/frontend/src/components/index/input-file.tsx:15 | a settled upload stops pending and keeps its body as data |
| `InputFile.ScreenIff` | services/frontend/src/components/index/input-file.tsx:46-59 | the picker shows exactly while no file is chosen, "Loading..." exactly while pending, and the result exactly when not pending with data |
| `InputFile.PickerGoneForGood` | services/frontend/src/components/index/input-file.tsx:13-57 | once a file is chosen the picker never returns, so there is at most one upload |
| `SelectSearch.NextValue` | services/frontend/src/components/ui/select-search.tsx:35-37 | picking the selected value clears it to `""`; any other value becomes the selection |
| `SelectSearch.Select.HandleOnSelect` | services/frontend/src/components/ui/select-search.tsx:35-40 | the value toggles, `onChange` receives exactly the new value, and the popover closes |
| `SelectSearch.Select.SelectItem` | services/frontend/src/components/ui/select-search.tsx:68-72 | picking an option keeps the selection empty or among the options |
| `SelectSearch.ToggleTwice` | services/frontend/src/components/ui/select-search.tsx:36 | picking the same option twice restores the start exactly when it was empty or that option |
| `SelectSearch.ClearsIff` | services/frontend/src/components/ui/select-search.tsx:36 | a pick clears the selection exactly when it repeats it or is empty |
| `SelectSearch.CheckMarkExact` | services/frontend/src/components/ui/select-search.tsx:74-80 | the check mark is opaque exactly for the options equal to the value; with distinct values, at most one |

## Left out

- Video decoding, seeking and conversion (`cv2.VideoCapture`, `convert_video_to_avi`, `convert_video_to_webm`) and image and plot writes: each capture or write is a parameter giving its observable result (opened, frame rate, written or not).
- `draw_quiver_and_save_plotlib_image`: only the URL it returns is modelled (`Preprocessing.QuiverImageUrl`), not the plot.
- dlib detection and landmarks, and POC, Vektor and Quadran: functions of the `FrameFeatures.Vision` record. Their sources are not part of this model.
- Model loading, scalers, PCA, hybrid RFE, `predict` and `inverse_transform`: function parameters. The global loading block of the controller is environment setup.
- CSV and Excel export in `_save_feature_dataframes`: only the returned link keys are modelled.
- `url_for`: a static URL is the root, `/assets/` and the rewritten file name, with no percent-encoding. The `/assets/` path follows from `static_folder='../assets'` in services/backend/app/__init__.py:10, with no `static_url_path`.
- `time.time` and `uuid`: the elapsed time and the file-name base are parameters.
- `BackendHelper.GetCalculateFromPredict`: the percentage is an exact `real`; `format_number_and_round` to two decimals is floating-point rounding and is not modelled.
- `Predictions.RunSinglePrediction`: the testing time is a given real, not rounded to four decimals.
- `Quadrants.AggregateQuadrants`: the per-vector values and the quadrant sums are exact reals. Float rounding of the `+=` accumulation (services/backend/app/controller/DataModelController.py:324-327) is not modelled. Neither is the int `0` that an empty quadrant keeps as its sum; the model gives `0.0`, which compares equal.
- `format_number_and_round_numpy` is not modelled: it is floating-point formatting.
- pandas: a table is a list of row dicts. Column order across rows and `DataFrame.empty` are modelled; dtype handling is not, and neither is the `KeyError` that `drop` would raise on a table without the bookkeeping columns.
- The `except_features` entries of the model configuration are not modelled, because no code reads them.
- `_format_api_response` mutates the preview dicts in place; the model returns new records with the same contents, so aliasing is not captured.
- `os.listdir` is a parameter: the directory listing, in whatever order the file system gives.
- Case mapping is ASCII only; Unicode case folding is not modelled.
- `NaturalSort.KeyShape`: a text piece made only of characters that `str.isdigit` accepts but that are no decimal digits (superscript `²`, circled `①`) makes `int()` raise `ValueError` in the source; the model keeps such a piece as lower-cased text. The digit table is that of Unicode 15.0.
- Markup, styling, headings and the image carousel, which is commented out, are not modelled. Each view is a list of sections.
- `print` and console logging are not modelled; they are output only.
- react-query, axios, `MediaRecorder`, `getUserMedia`, `enumerateDevices` and object URLs: events are method calls with their data. Blob contents are the chunk list, and an upload is recorded in a log, not sent.
- `ResultFetching.CsvLinksPerEntry`: an empty `csv_file` object `{}` is truthy in result-fetching.tsx, so the section shows zero links rather than the "not found" alert, and the model does the same.
- `validate_with_preview` is a module-level function that WTForms never wires to the form; the model gives its logic, as `StoreRequest.PreviewField.ValidateWithPreview`, without deciding whether it runs.
