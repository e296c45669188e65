/**
 * `WebcamStream` of services/frontend/src/components/index/webcam.tsx: it lists the video
 * inputs, picks a default camera, records the stream into chunks, and saves and uploads the
 * recording. The browser (camera stream, `MediaRecorder`, the download link and the HTTP
 * post) is reduced to the values the component hands to it.
 */
module Webcam {
  import opened Wrappers

  /** `MediaDeviceInfo`; `name` is its `label`. */
  datatype Device = Device(deviceId: string, kind: string, name: string)

  /** One `dataavailable` blob of the recorder; `id` tells equal-sized chunks apart. */
  datatype Chunk = Chunk(id: nat, size: nat)

  /** A `Blob` built from recorded chunks. */
  datatype VideoBlob = VideoBlob(parts: seq<Chunk>, mimeType: string)

  /** The `MediaRecorder` held in `mediaRecorderRef`. */
  datatype Recorder = Recorder(mimeType: string, recording: bool)

  /** What the component hands to the browser: a download through a hidden link, and a
      multipart post of the same blob. */
  datatype Download = Download(blob: VideoBlob, fileName: string)
  datatype Upload = Upload(url: string, field: string, blob: VideoBlob, fileName: string)

  const VIDEO_INPUT := "videoinput"
  const WEBM := "video/webm"
  const CAPTURE_NAME := "react-webcam-stream-capture.webm"
  const UPLOAD_URL := "http://localhost:5000/upload"

  /** The devices `handleDevices` keeps: the video inputs, in their order. */
  function VideoInputs(mediaDevices: seq<Device>): (r: seq<Device>)
    ensures |r| <= |mediaDevices|
    ensures forall d :: d in r <==> d in mediaDevices && d.kind == VIDEO_INPUT
  {
    if mediaDevices == [] then []
    else (if mediaDevices[0].kind == VIDEO_INPUT then [mediaDevices[0]] else []) + VideoInputs(mediaDevices[1..])
  }

  /** The chunks `handleDataAvailable` keeps from a run of events: the non-empty ones. */
  function Recorded(events: seq<Chunk>): (r: seq<Chunk>)
    ensures |r| <= |events|
    ensures forall c :: c in r <==> c in events && c.size > 0
  {
    if events == [] then []
    else (if events[0].size > 0 then [events[0]] else []) + Recorded(events[1..])
  }

  function TotalSize(chunks: seq<Chunk>): nat
  {
    if chunks == [] then 0 else chunks[0].size + TotalSize(chunks[1..])
  }

  /** JavaScript truthiness of `selectedDeviceId`: `null` and `''` are both falsy. */
  predicate Selected(selected: Option<string>)
  {
    selected.Some? && selected.value != ""
  }

  /** The selection after the default-device effect (lines 121-125). */
  function DefaultDevice(devices: seq<Device>, selected: Option<string>): (r: Option<string>)
    ensures Selected(selected) ==> r == selected
    ensures devices == [] ==> r == selected
    ensures |devices| > 0 && !Selected(selected) ==> r == Some(devices[0].deviceId)
  {
    if |devices| > 0 && !Selected(selected) then Some(devices[0].deviceId) else selected
  }

  /** The device constraint handed to the camera: `selectedDeviceId || undefined`. */
  function CameraDevice(selected: Option<string>): (r: Option<string>)
    ensures r.Some? <==> Selected(selected)
    ensures r.Some? ==> r == selected
  {
    if Selected(selected) then selected else None
  }

  /** The caption of a device in the list: its label, or "Device " and its id when the label
      is empty. */
  function DeviceCaption(d: Device): string
  {
    if d.name != "" then d.name else "Device " + d.deviceId
  }

  datatype CaptureButton = StartCapture | StopCapture

  /** The controls below the camera (lines 142-185). */
  datatype Controls =
    | NoWebcam
    | Shown(selectValue: string, items: seq<(string, string)>, button: CaptureButton, download: bool)

  function ControlsOf(devices: seq<Device>, selected: Option<string>, capturing: bool, chunks: seq<Chunk>): Controls
  {
    if |devices| <= 1 then NoWebcam
    else Shown(
      if Selected(selected) then selected.value else "",
      seq(|devices|, i requires 0 <= i < |devices| => (devices[i].deviceId, DeviceCaption(devices[i]))),
      if capturing then StopCapture else StartCapture,
      |chunks| > 0)
  }

  class WebcamStream {
    var capturing: bool
    var recordedChunks: seq<Chunk>
    var devices: seq<Device>
    var selectedDeviceId: Option<string>
    var recorder: Option<Recorder>
    var downloads: seq<Download>
    var uploads: seq<Upload>
    /** The chunks the recorder delivered since the last download. */
    ghost var delivered: seq<Chunk>

    /** The kept chunks are the non-empty delivered ones. */
    ghost predicate Valid()
      reads this
    {
      recordedChunks == Recorded(delivered)
    }

    constructor ()
      ensures !capturing && recordedChunks == [] && devices == [] && selectedDeviceId == None
      ensures recorder == None && downloads == [] && uploads == [] && delivered == []
      ensures Valid()
    {
      capturing := false;
      recordedChunks := [];
      devices := [];
      selectedDeviceId := None;
      recorder := None;
      downloads := [];
      uploads := [];
      delivered := [];
    }

    /** `handleDataAvailable`: a chunk is appended only when it holds data. */
    method HandleDataAvailable(data: Chunk)
      requires Valid()
      modifies this
      ensures recordedChunks == old(recordedChunks) + (if data.size > 0 then [data] else [])
      ensures delivered == old(delivered) + [data]
      ensures Valid()
      ensures capturing == old(capturing) && devices == old(devices) && selectedDeviceId == old(selectedDeviceId)
      ensures recorder == old(recorder) && downloads == old(downloads) && uploads == old(uploads)
    {
      RecordedSnoc(delivered, data);
      if data.size > 0 {
        recordedChunks := recordedChunks + [data];
      }
      delivered := delivered + [data];
    }

    /** `handleStartCaptureClick`: capturing is set in any case; a webm recorder is created and
        started only when the camera has a stream. */
    method HandleStartCapture(hasStream: bool)
      modifies this
      ensures capturing
      ensures recorder == if hasStream then Some(Recorder(WEBM, true)) else old(recorder)
      ensures recordedChunks == old(recordedChunks) && delivered == old(delivered)
      ensures devices == old(devices) && selectedDeviceId == old(selectedDeviceId)
      ensures downloads == old(downloads) && uploads == old(uploads)
    {
      capturing := true;
      if hasStream {
        recorder := Some(Recorder(WEBM, true));
      }
    }

    /** `handleStopCaptureClick`: without a recorder nothing happens, not even `capturing`. */
    method HandleStopCapture()
      modifies this
      ensures old(recorder).None? ==> capturing == old(capturing) && recorder == None
      ensures old(recorder).Some? ==> !capturing && recorder == Some(old(recorder).value.(recording := false))
      ensures recordedChunks == old(recordedChunks) && delivered == old(delivered)
      ensures devices == old(devices) && selectedDeviceId == old(selectedDeviceId)
      ensures downloads == old(downloads) && uploads == old(uploads)
    {
      if recorder.Some? {
        recorder := Some(recorder.value.(recording := false));
        capturing := false;
      }
    }

    /** `handleDownload`: with chunks, one webm blob of all of them in order is downloaded and
        uploaded under the same file name, and the chunks are cleared; without, nothing. */
    method HandleDownload()
      requires Valid()
      modifies this
      ensures old(recordedChunks) == [] ==>
        recordedChunks == [] && downloads == old(downloads) && uploads == old(uploads) && delivered == old(delivered)
      ensures old(recordedChunks) != [] ==>
        var blob := VideoBlob(old(recordedChunks), WEBM);
        && downloads == old(downloads) + [Download(blob, CAPTURE_NAME)]
        && uploads == old(uploads) + [Upload(UPLOAD_URL, "file", blob, CAPTURE_NAME)]
        && recordedChunks == [] && delivered == []
      ensures Valid()
      ensures capturing == old(capturing) && recorder == old(recorder)
      ensures devices == old(devices) && selectedDeviceId == old(selectedDeviceId)
    {
      if |recordedChunks| > 0 {
        var blob := VideoBlob(recordedChunks, WEBM);
        downloads := downloads + [Download(blob, CAPTURE_NAME)];
        uploads := uploads + [Upload(UPLOAD_URL, "file", blob, CAPTURE_NAME)];
        recordedChunks := [];
        delivered := [];
      }
    }

    /** `handleDevices`, with the result of `enumerateDevices`. */
    method HandleDevices(mediaDevices: seq<Device>)
      modifies this
      ensures devices == VideoInputs(mediaDevices)
      ensures capturing == old(capturing) && recordedChunks == old(recordedChunks) && delivered == old(delivered)
      ensures selectedDeviceId == old(selectedDeviceId) && recorder == old(recorder)
      ensures downloads == old(downloads) && uploads == old(uploads)
    {
      devices := VideoInputs(mediaDevices);
    }

    /** The default-device effect. */
    method SelectDefaultDevice()
      modifies this
      ensures selectedDeviceId == DefaultDevice(old(devices), old(selectedDeviceId))
      ensures devices == old(devices) && capturing == old(capturing) && recordedChunks == old(recordedChunks)
      ensures delivered == old(delivered) && recorder == old(recorder)
      ensures downloads == old(downloads) && uploads == old(uploads)
    {
      if |devices| > 0 && (selectedDeviceId.None? || selectedDeviceId.value == "") {
        selectedDeviceId := Some(devices[0].deviceId);
      }
    }

    /** `onValueChange` of the device list, reachable only while the list is shown. */
    method SelectDevice(value: string)
      requires |devices| > 1
      modifies this
      ensures selectedDeviceId == Some(value)
      ensures devices == old(devices) && capturing == old(capturing) && recordedChunks == old(recordedChunks)
      ensures delivered == old(delivered) && recorder == old(recorder)
      ensures downloads == old(downloads) && uploads == old(uploads)
    {
      selectedDeviceId := Some(value);
    }

    /** The controls as rendered now. */
    function Rendered(): Controls
      reads this
    {
      ControlsOf(devices, selectedDeviceId, capturing, recordedChunks)
    }
  }

  // ---------------------------------------------------------------------------
  // Properties

  lemma {:induction false} RecordedSnoc(events: seq<Chunk>, c: Chunk)
    ensures Recorded(events + [c]) == Recorded(events) + (if c.size > 0 then [c] else [])
  {
    if events != [] {
      assert (events + [c])[0] == events[0] && (events + [c])[1..] == events[1..] + [c];
      RecordedSnoc(events[1..], c);
    } else {
      assert events + [c] == [c];
    }
  }

  /** Dropping empty chunks loses no data: the kept chunks hold as many bytes as all the
      delivered ones, so the uploaded blob is the whole recording. */
  lemma {:induction false} RecordedKeepsSize(events: seq<Chunk>)
    ensures TotalSize(Recorded(events)) == TotalSize(events)
  {
    if events != [] {
      RecordedKeepsSize(events[1..]);
      TotalSizeAppend(if events[0].size > 0 then [events[0]] else [], Recorded(events[1..]));
    }
  }

  lemma {:induction false} TotalSizeAppend(a: seq<Chunk>, b: seq<Chunk>)
    ensures TotalSize(a + b) == TotalSize(a) + TotalSize(b)
  {
    if a != [] {
      assert (a + b)[0] == a[0] && (a + b)[1..] == a[1..] + b;
      TotalSizeAppend(a[1..], b);
    } else {
      assert a + b == b;
    }
  }

  /** `handleDevices` keeps the video inputs in their original order: each kept device is
      followed by the video inputs after it. */
  lemma {:induction false} VideoInputsAppend(a: seq<Device>, b: seq<Device>)
    ensures VideoInputs(a + b) == VideoInputs(a) + VideoInputs(b)
  {
    if a != [] {
      assert (a + b)[0] == a[0] && (a + b)[1..] == a[1..] + b;
      VideoInputsAppend(a[1..], b);
    } else {
      assert a + b == b;
    }
  }

  /** Filtering a list of video inputs again changes nothing. */
  lemma {:induction false} VideoInputsIdempotent(mediaDevices: seq<Device>)
    ensures VideoInputs(VideoInputs(mediaDevices)) == VideoInputs(mediaDevices)
  {
    if mediaDevices != [] {
      var head := if mediaDevices[0].kind == VIDEO_INPUT then [mediaDevices[0]] else [];
      VideoInputsIdempotent(mediaDevices[1..]);
      VideoInputsAppend(head, VideoInputs(mediaDevices[1..]));
      assert VideoInputs(head) == head;
    }
  }

  /** The effect never overwrites a selection; once it has run, running it again changes
      nothing. */
  lemma DefaultDeviceStable(devices: seq<Device>, selected: Option<string>)
    ensures DefaultDevice(devices, DefaultDevice(devices, selected)) == DefaultDevice(devices, selected)
    ensures Selected(DefaultDevice(devices, selected)) <==>
      Selected(selected) || (|devices| > 0 && devices[0].deviceId != "")
  {
  }

  /** The capture controls show only with more than one camera; with none or one, the
      "No webcam detected" notice shows. The button reads "Stop Capture" exactly while
      capturing, and Download shows exactly when chunks were kept. */
  lemma ControlsIff(devices: seq<Device>, selected: Option<string>, capturing: bool, chunks: seq<Chunk>)
    ensures ControlsOf(devices, selected, capturing, chunks).NoWebcam? <==> |devices| <= 1
    ensures var c := ControlsOf(devices, selected, capturing, chunks);
      c.Shown? ==>
        && (c.button == StopCapture <==> capturing)
        && (c.download <==> chunks != [])
        && |c.items| == |devices|
        && (forall i :: 0 <= i < |devices| ==> c.items[i].0 == devices[i].deviceId)
        && (c.selectValue == "" <==> !Selected(selected))
  {
  }
}
