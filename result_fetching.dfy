/**
 * What `ResultFetching` (services/frontend/src/components/index/result-fetching.tsx) renders
 * from an upload response, as a list of sections instead of markup. The response types are
 * those of services/frontend/src/hooks/useModel.ts; a JSON object is an ordered dictionary,
 * and an absent or `null` member is `None`. Every JavaScript object, even `{}`, is truthy.
 */
module ResultFetching {
  import opened Wrappers
  import opened OrderedDict
  import opened FrontendHelper

  datatype Video = Video(name: string, url: string)

  /** `IUploadVideoPrediction`. */
  datatype PredictionItem = PredictionItem(name: string, count: int, percentage: real)

  /** One entry of `components` in `IUploadVideoImage`. */
  datatype ComponentLinks = ComponentLinks(urlSource: string, urlResult: Option<string>)

  /** `IUploadVideoImage`. */
  datatype UploadImage = UploadImage(name: string, url: string, prediction: Dict<string>, components: Dict<ComponentLinks>)

  /** `IResponseUploadVideo`. */
  datatype UploadResult = UploadResult(
    video: Option<Video>,
    csvFile: Option<Dict<string>>,
    result: Option<Dict<string>>,
    listPredictions: Option<Dict<seq<PredictionItem>>>,
    arrayPredictions: Option<Dict<seq<string>>>,
    images: Option<seq<UploadImage>>,
    testingTimes: Option<Dict<real>>)

  /** The `data` member of the envelope: missing, `null`, or a result. */
  datatype Data = Undefined | Null | Present(value: UploadResult)

  /** `BaseApiResponse<IResponseUploadVideo>`, reduced to what the view reads. */
  datatype BaseApiResponse = BaseApiResponse(code: int, data: Data)

  /** A body row of the prediction table: a group's header or one of its items. */
  datatype TableRow = GroupHeader(title: string) | ItemRow(name: string, count: int, percentage: real)

  datatype Section =
    | NameLine(name: Option<string>)        // "Name: " and the video's name, nothing when data is missing
    | VideoPlayer(url: string)              // the embedded player
    | OpenVideoLink(url: string)            // the "Open Video" link
    | VideoNotFound                         // the "Tidak ada response video" alert
    | CsvLinks(links: seq<(string, string)>) // label and href of each link
    | CsvNotFound                           // the "Tidak ada response untuk file csv" alert
    | ResultLines(lines: seq<(string, string)>)
    | PredictionTable(rows: seq<TableRow>)
    | TestingTimesTable(times: seq<(string, real)>)

  /** Nothing at all, a render that throws, or the sections in page order. */
  datatype View = Blank | Crashed | Shown(sections: seq<Section>)

  /** The video part of the page (lines 57-89). */
  function VideoSection(video: Option<Video>): Section
  {
    match video
    case None => VideoNotFound
    case Some(v) => if GetFormatFile(v.url) == "webm" then VideoPlayer(v.url) else OpenVideoLink(v.url)
  }

  /** The CSV links (lines 92-116): one per entry, labelled with the capitalised key and ".csv". */
  function CsvSection(csvFile: Option<Dict<string>>): Section
  {
    match csvFile
    case None => CsvNotFound
    case Some(d) => CsvLinks(seq(|d|, i requires 0 <= i < |d| => (CapitalizeAndRemoveUnderscore(d[i].0) + ".csv", d[i].1)))
  }

  function ResultSection(result: Dict<string>): Section
  {
    ResultLines(seq(|result|, i requires 0 <= i < |result| => (CapitalizeAndRemoveUnderscore(result[i].0), result[i].1)))
  }

  function ItemRows(items: seq<PredictionItem>): seq<TableRow>
  {
    seq(|items|, i requires 0 <= i < |items| => ItemRow(items[i].name, items[i].count, items[i].percentage))
  }

  /** The body of the prediction table (lines 158-188): per group a header row, then its items. */
  function GroupRows(groups: Dict<seq<PredictionItem>>): seq<TableRow>
    decreases |groups|
  {
    if groups == [] then []
    else [GroupHeader(CapitalizeAndRemoveUnderscore(groups[0].0))] + ItemRows(groups[0].1) + GroupRows(groups[1..])
  }

  function TestingTimesSection(times: Dict<real>): Section
  {
    TestingTimesTable(seq(|times|, i requires 0 <= i < |times| => (CapitalizeAndRemoveUnderscore(times[i].0), times[i].1)))
  }

  /** The sections, when data is a result or missing (`response.data?.…` is then undefined). */
  function Sections(data: Data): seq<Section>
    requires !data.Null?
  {
    match data
    case Undefined => [NameLine(None), VideoNotFound, CsvNotFound]
    case Present(r) =>
      [NameLine(if r.video.Some? then Some(r.video.value.name) else None), VideoSection(r.video), CsvSection(r.csvFile)]
      + (if r.result.Some? then [ResultSection(r.result.value)] else [])
      + (if r.listPredictions.Some? then [PredictionTable(GroupRows(r.listPredictions.value))] else [])
      + (if r.testingTimes.Some? then [TestingTimesSection(r.testingTimes.value)] else [])
  }

  /** `ResultFetching({response})`. The guard of line 54 lets a missing `data` through; with a
      result but no video, `response.data?.video.name` reads `name` of `undefined` and throws. */
  function Render(response: Option<BaseApiResponse>): View
  {
    if response.None? || response.value.code != 200 || response.value.data.Null? then Blank
    else if response.value.data.Present? && response.value.data.value.video.None? then Crashed
    else Shown(Sections(response.value.data))
  }

  // ---------------------------------------------------------------------------
  // Properties

  /** Something renders exactly when the response exists, its code is 200 and data is not
      `null`; a missing data member passes the guard. */
  lemma RendersIff(response: Option<BaseApiResponse>)
    ensures Render(response) != Blank <==>
      response.Some? && response.value.code == 200 && !response.value.data.Null?
    ensures Render(response).Crashed? <==>
      && response.Some? && response.value.code == 200
      && response.value.data.Present? && response.value.data.value.video.None?
  {
  }

  /** With a 200 response whose data is missing, the page shows an empty name and both
      "Not Found" alerts, and nothing else. */
  lemma MissingDataShowsAlerts(code: int)
    ensures Render(Some(BaseApiResponse(code, Undefined))) ==
      if code == 200 then Shown([NameLine(None), VideoNotFound, CsvNotFound]) else Blank
  {
  }

  /** With a video, the player shows exactly when the URL's extension is `webm`, the link
      otherwise; the "Not Found" alert is never reached with a result present. */
  lemma VideoChoice(r: UploadResult)
    requires r.video.Some?
    ensures var view := Render(Some(BaseApiResponse(200, Present(r))));
      && view.Shown? && |view.sections| >= 3
      && view.sections[0] == NameLine(Some(r.video.value.name))
      && (view.sections[1].VideoPlayer? <==> GetFormatFile(r.video.value.url) == "webm")
      && (view.sections[1].OpenVideoLink? <==> GetFormatFile(r.video.value.url) != "webm")
      && view.sections[1].url == r.video.value.url
  {
  }

  /** A present `csv_file`, even `{}`, gives one link per entry in entry order, labelled with
      the capitalised key and ".csv"; only a missing one gives the alert. */
  lemma CsvLinksPerEntry(csvFile: Option<Dict<string>>)
    ensures CsvSection(csvFile).CsvNotFound? <==> csvFile.None?
    ensures csvFile.Some? ==>
      var links := CsvSection(csvFile).links;
      && |links| == |csvFile.value|
      && forall i :: 0 <= i < |links| ==>
           links[i] == (CapitalizeAndRemoveUnderscore(csvFile.value[i].0) + ".csv", csvFile.value[i].1)
    ensures csvFile == Some([]) ==> CsvSection(csvFile) == CsvLinks([])
  {
  }

  /** Counting rows of a table body. */
  function Headers(rows: seq<TableRow>): nat
  {
    if rows == [] then 0 else (if rows[0].GroupHeader? then 1 else 0) + Headers(rows[1..])
  }

  function TotalItems(groups: Dict<seq<PredictionItem>>): nat
  {
    if groups == [] then 0 else |groups[0].1| + TotalItems(groups[1..])
  }

  lemma {:induction false} HeadersAppend(a: seq<TableRow>, b: seq<TableRow>)
    ensures Headers(a + b) == Headers(a) + Headers(b)
  {
    if a != [] {
      var ab := a + b;
      assert ab != [] && ab[0] == a[0] && ab[1..] == a[1..] + b;
      HeadersAppend(a[1..], b);
      assert Headers(ab) == (if a[0].GroupHeader? then 1 else 0) + Headers(a[1..] + b);
    } else {
      assert a + b == b;
    }
  }

  lemma {:induction false} ItemRowsHaveNoHeader(items: seq<PredictionItem>)
    ensures Headers(ItemRows(items)) == 0
  {
    if items != [] {
      assert ItemRows(items)[1..] == ItemRows(items[1..]);
      ItemRowsHaveNoHeader(items[1..]);
    }
  }

  /** The table body has one header row per group and one row per item, so as many rows as
      groups plus items. */
  lemma {:induction false} TableRowCount(groups: Dict<seq<PredictionItem>>)
    ensures Headers(GroupRows(groups)) == |groups|
    ensures |GroupRows(groups)| == |groups| + TotalItems(groups)
  {
    if groups != [] {
      var head := [GroupHeader(CapitalizeAndRemoveUnderscore(groups[0].0))];
      TableRowCount(groups[1..]);
      ItemRowsHaveNoHeader(groups[0].1);
      HeadersAppend(head, ItemRows(groups[0].1));
      HeadersAppend(head + ItemRows(groups[0].1), GroupRows(groups[1..]));
    }
  }

  /** Each group's header is followed by its items, in order: the body of the first group,
      then the rest. */
  lemma GroupRowsOrder(groups: Dict<seq<PredictionItem>>)
    requires groups != []
    ensures var rows := GroupRows(groups); var items := groups[0].1;
      && rows[0] == GroupHeader(CapitalizeAndRemoveUnderscore(groups[0].0))
      && (forall j :: 0 <= j < |items| ==> rows[1 + j] == ItemRow(items[j].name, items[j].count, items[j].percentage))
      && rows[1 + |items|..] == GroupRows(groups[1..])
  {
    var front := [GroupHeader(CapitalizeAndRemoveUnderscore(groups[0].0))] + ItemRows(groups[0].1);
    var rest := GroupRows(groups[1..]);
    assert GroupRows(groups) == front + rest;
    assert |front| == 1 + |groups[0].1|;
    assert (front + rest)[|front|..] == rest;
  }

  /** `testing_times` gives one row per entry, in order, with the capitalised key; the
      `images` and `array_predictions` members never affect what is rendered. */
  lemma TestingTimesRows(times: Dict<real>)
    ensures var rows := TestingTimesSection(times).times;
      && |rows| == |times|
      && forall i :: 0 <= i < |rows| ==> rows[i] == (CapitalizeAndRemoveUnderscore(times[i].0), times[i].1)
  {
  }

  lemma ImagesNeverRendered(code: int, r: UploadResult, images: Option<seq<UploadImage>>, arrays: Option<Dict<seq<string>>>)
    ensures Render(Some(BaseApiResponse(code, Present(r)))) ==
            Render(Some(BaseApiResponse(code, Present(r.(images := images, arrayPredictions := arrays)))))
  {
  }

  /** The sections of a result appear in page order, each optional one exactly when its
      member is present. */
  lemma OptionalSections(r: UploadResult)
    requires r.video.Some?
    ensures var s := Render(Some(BaseApiResponse(200, Present(r)))).sections;
      && |s| == 3 + (if r.result.Some? then 1 else 0) + (if r.listPredictions.Some? then 1 else 0)
                  + (if r.testingTimes.Some? then 1 else 0)
      && (r.result.Some? ==> s[3] == ResultSection(r.result.value))
      && (r.listPredictions.Some? ==>
            s[if r.result.Some? then 4 else 3] == PredictionTable(GroupRows(r.listPredictions.value)))
      && (r.testingTimes.Some? ==> s[|s| - 1] == TestingTimesSection(r.testingTimes.value))
  {
  }
}
