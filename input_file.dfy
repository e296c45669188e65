/**
 * `InputFile` of services/frontend/src/components/index/input-file.tsx: a file picker that,
 * on the first chosen file, remembers it, starts the upload mutation of
 * services/frontend/src/hooks/useModel.ts and then shows the upload's result.
 */
module InputFile {
  import opened Wrappers
  import ResultFetching

  /** A chosen `File`; its contents never matter to the component. */
  datatype File = File(name: string, bytes: seq<bv8>)

  /** `IInputFile`. */
  datatype Selection = Selection(file: File, filename: string)

  /** What the component shows: the picker or the chosen name, then the loading line and the
      rendered result when there is one. */
  datatype Screen = Screen(picker: bool, selectedName: Option<string>, loading: bool, result: Option<ResultFetching.View>)

  /** The screen for a state (lines 46-59). `data` is the body of a successful response. */
  function ScreenOf(input: Option<Selection>, isPending: bool, data: Option<ResultFetching.BaseApiResponse>): Screen
  {
    Screen(
      input.None?,
      if input.Some? then Some(input.value.filename) else None,
      isPending,
      if !isPending && data.Some? then Some(ResultFetching.Render(Some(data.value))) else None)
  }

  class InputFile {
    var input: Option<Selection>
    var isPending: bool
    var data: Option<ResultFetching.BaseApiResponse>
    /** The files passed to `mutate`, oldest first. */
    var mutations: seq<File>

    /** The file picker disappears once a file is chosen, so there is at most one upload: the
        chosen file, and a pending upload or a result only after it. */
    ghost predicate Valid()
      reads this
    {
      && |mutations| <= 1
      && (input.None? <==> mutations == [])
      && (input.Some? ==> mutations == [input.value.file] && input.value.filename == input.value.file.name)
      && (isPending ==> input.Some? && data.None?)
      && (data.Some? ==> input.Some?)
    }

    constructor ()
      ensures input == None && !isPending && data == None && mutations == []
      ensures Valid()
    {
      input := None;
      isPending := false;
      data := None;
      mutations := [];
    }

    /** `handleFileChange`, with the `files` of the event target. It is attached only to the
        picker, which is shown only while no file is chosen. With no file nothing changes;
        otherwise the first file is remembered and uploaded once. */
    method HandleFileChange(files: Option<seq<File>>)
      requires Valid() && input.None?
      modifies this
      ensures files.None? || files.value == [] ==>
        input == old(input) && isPending == old(isPending) && data == old(data) && mutations == old(mutations)
      ensures files.Some? && files.value != [] ==>
        var file := files.value[0];
        && input == Some(Selection(file, file.name))
        && mutations == old(mutations) + [file]
        && isPending && data == None
      ensures Valid()
    {
      if files.Some? && |files.value| > 0 {
        var file := files.value[0];
        input := Some(Selection(file, file.name));
        mutations := mutations + [file];
        isPending := true;
        data := None;
      }
    }

    /** The mutation settles: a successful response's body becomes `data`, a failed request
        (a network error or a status outside 2xx) leaves no data. */
    method Settle(body: Option<ResultFetching.BaseApiResponse>)
      requires Valid() && isPending
      modifies this
      ensures !isPending && data == body
      ensures input == old(input) && mutations == old(mutations)
      ensures Valid()
    {
      isPending := false;
      data := body;
    }

    /** The screen as rendered now. */
    function Rendered(): Screen
      reads this
    {
      ScreenOf(input, isPending, data)
    }
  }

  // ---------------------------------------------------------------------------
  // Properties

  /** The picker shows exactly while no file is chosen, "Loading..." exactly while the upload
      is pending, and the result exactly when the upload is over with data. */
  lemma ScreenIff(input: Option<Selection>, isPending: bool, data: Option<ResultFetching.BaseApiResponse>)
    ensures ScreenOf(input, isPending, data).picker <==> input.None?
    ensures ScreenOf(input, isPending, data).selectedName.Some? <==> input.Some?
    ensures ScreenOf(input, isPending, data).loading <==> isPending
    ensures ScreenOf(input, isPending, data).result.Some? <==> !isPending && data.Some?
    ensures ScreenOf(input, isPending, data).loading ==> ScreenOf(input, isPending, data).result.None?
  {
  }

  /** After a file is chosen the picker never returns, whatever the upload does, and no second
      upload can start. */
  lemma PickerGoneForGood(input: Option<Selection>, body: Option<ResultFetching.BaseApiResponse>)
    requires input.Some?
    ensures !ScreenOf(input, true, None).picker
    ensures !ScreenOf(input, false, body).picker
    ensures ScreenOf(input, false, body).selectedName == Some(input.value.filename)
  {
  }
}
