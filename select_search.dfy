/**
 * The searchable `Select` of services/frontend/src/components/ui/select-search.tsx: a popover
 * listing options, whose `value` toggles when an option is picked and is reported through
 * `onChange`.
 */
module SelectSearch {

  /** One entry of the `options` property; `title` is its `label`. */
  datatype SelectOption = SelectOption(title: string, value: string)

  /** The value after picking `current` while `value` is selected: picking the selected option
      clears the selection, any other option becomes the selection. */
  function NextValue(value: string, current: string): (r: string)
    ensures current == value ==> r == ""
    ensures current != value ==> r == current
  {
    if current == value then "" else current
  }

  /** The opacity of an option's check mark, in percent. */
  function CheckOpacity(value: string, option: SelectOption): (r: nat)
    ensures r == 100 || r == 0
  {
    if value == option.value then 100 else 0
  }

  /** The opacities of all check marks, in option order. */
  function CheckMarks(value: string, options: seq<SelectOption>): (r: seq<nat>)
    ensures |r| == |options|
  {
    seq(|options|, i requires 0 <= i < |options| => CheckOpacity(value, options[i]))
  }

  class Select {
    const options: seq<SelectOption>
    var open: bool
    var value: string
    /** The values passed to `onChange`, oldest first. */
    var changes: seq<string>

    /** The selection is empty or the value of one of the options. */
    ghost predicate Valid()
      reads this
    {
      value == "" || exists i :: 0 <= i < |options| && options[i].value == value
    }

    constructor (options: seq<SelectOption>)
      ensures this.options == options
      ensures !open && value == "" && changes == []
      ensures Valid()
    {
      this.options := options;
      open := false;
      value := "";
      changes := [];
    }

    /** `onOpenChange` of the popover. */
    method SetOpen(o: bool)
      modifies this
      ensures open == o && value == old(value) && changes == old(changes)
    {
      open := o;
    }

    /** `handleOnSelect(current)`: the new value is stored, reported once, and the popover
        closes. */
    method HandleOnSelect(current: string)
      modifies this
      ensures value == NextValue(old(value), current)
      ensures changes == old(changes) + [value]
      ensures !open
    {
      var newValue := if current == value then "" else current;
      value := newValue;
      changes := changes + [newValue];
      open := false;
    }

    /** Picking the `i`-th item of the list calls `handleOnSelect` with that option's value,
        which keeps the selection among the options. */
    method SelectItem(i: nat)
      requires i < |options| && Valid()
      modifies this
      ensures value == NextValue(old(value), options[i].value)
      ensures changes == old(changes) + [value] && !open
      ensures Valid()
    {
      HandleOnSelect(options[i].value);
    }

    /** The check marks as rendered now. */
    function Marks(): (r: seq<nat>)
      reads this
      ensures |r| == |options|
    {
      CheckMarks(value, options)
    }
  }

  // ---------------------------------------------------------------------------
  // Properties

  /** Picking the same option twice returns to the starting value exactly when the start was
      empty or was that option: from any other value the second pick clears the selection. */
  lemma ToggleTwice(value: string, current: string)
    ensures NextValue(NextValue(value, current), current) == value <==> value == "" || value == current
    ensures value != "" && value != current ==> NextValue(NextValue(value, current), current) == ""
  {
  }

  /** A pick clears the selection exactly when it repeats the selected option or is empty. */
  lemma ClearsIff(value: string, current: string)
    ensures NextValue(value, current) == "" <==> current == value || current == ""
  {
  }

  /** The check mark is opaque exactly on the options whose value is selected. With distinct
      option values, at most one mark is opaque. */
  lemma CheckMarkExact(value: string, options: seq<SelectOption>)
    ensures forall i :: 0 <= i < |options| ==>
      (CheckMarks(value, options)[i] == 100 <==> options[i].value == value)
    ensures (forall i, j :: 0 <= i < j < |options| ==> options[i].value != options[j].value) ==>
      forall i, j :: 0 <= i < j < |options| ==> CheckMarks(value, options)[i] == 0 || CheckMarks(value, options)[j] == 0
  {
  }
}
