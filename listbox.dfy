/**
 * The `Listbox` element's selection state machine: the selected index and
 * the options it selects, the typeahead buffer, the `multiple` and
 * `disabled` flags, and the keyboard, mouse and focus handlers that drive
 * them.
 *
 * Every observable field of the element (`selectedIndex`, `typeaheadBuffer`,
 * `multiple`, `selectedOptions`) runs its change callback synchronously when
 * it is assigned a value different from its current one; the setter methods
 * below (`SetSelectedIndex`, `SetTypeaheadBuffer`, `SetMultiple`) make that
 * explicit. `selectedOptions` is always assigned a new array, so its
 * callback runs on every assignment. The element is taken to be connected.
 */
module Listbox {
  import opened Wrappers
  import opened Sequences
  import opened TypeaheadText

  /** A listbox option element: its text, its id and its selection flags. */
  class ListboxOption {
    const text: string
    const disabled: bool
    /** Whether the element carries a `selected` attribute. */
    const selectedAttribute: bool
    var id: string
    var selected: bool
    /** `checked`: `None` stands for `undefined`. */
    var checked: Option<bool>

    constructor (text: string, id: string, disabled: bool, selectedAttribute: bool)
      ensures this.text == text && this.id == id && this.disabled == disabled
      ensures this.selectedAttribute == selectedAttribute
      ensures !selected && checked == None
    {
      this.text := text;
      this.id := id;
      this.disabled := disabled;
      this.selectedAttribute := selectedAttribute;
      this.selected := false;
      this.checked := None;
    }
  }

  /** A slotted child element: a listbox option, or some other element. */
  datatype Slotted = OptionElement(option: ListboxOption) | OtherElement

  /** The listbox options among the slotted elements, in order (`reduce` with `isListboxOption`). */
  function OptionsOf(slotted: seq<Slotted>): (r: seq<ListboxOption>)
    ensures |r| <= |slotted|
    ensures forall i :: 0 <= i < |r| ==> OptionElement(r[i]) in slotted
    ensures forall j :: 0 <= j < |slotted| && slotted[j].OptionElement? ==> slotted[j].option in r
  {
    if |slotted| == 0 then []
    else
      var rest := OptionsOf(slotted[1..]);
      assert forall j :: 1 <= j < |slotted| ==> slotted[j] == slotted[1..][j - 1];
      if slotted[0].OptionElement? then [slotted[0].option] + rest else rest
  }

  /**
   * `OptionsOf` is the order-preserving filter of the slotted elements: it
   * distributes over concatenation, keeps a listbox option and drops any
   * other element, so every option appears once per occurrence and in
   * slot order.
   */
  lemma {:induction false} OptionsOfKeepsOrder(a: seq<Slotted>, b: seq<Slotted>)
    ensures OptionsOf(a + b) == OptionsOf(a) + OptionsOf(b)
    ensures forall o: ListboxOption :: OptionsOf([OptionElement(o)]) == [o]
    ensures OptionsOf([OtherElement]) == []
  {
    if |a| > 0 {
      assert (a + b)[1..] == a[1..] + b;
      OptionsOfKeepsOrder(a[1..], b);
    } else {
      assert a + b == b;
    }
  }

  /** `options[selectedIndex] || null`. */
  function SelectedOption(options: seq<ListboxOption>, selectedIndex: int): Option<ListboxOption>
  {
    if 0 <= selectedIndex < |options| then Some(options[selectedIndex]) else None
  }

  /** `options.filter(el => el.isSameNode(selected))`: every occurrence of the selected option. */
  function SameNodes(options: seq<ListboxOption>, selected: Option<ListboxOption>): (r: seq<ListboxOption>)
    ensures |r| <= |options|
    ensures forall i :: 0 <= i < |r| ==> selected == Some(r[i]) && r[i] in options
    ensures selected.Some? && selected.value in options ==> |r| > 0
  {
    if |options| == 0 then []
    else
      var rest := SameNodes(options[1..], selected);
      if selected == Some(options[0]) then [options[0]] + rest else rest
  }

  /** The `checked` value `selectedOptionsChanged` leaves on an option. */
  function CheckedState(multiple: bool, selectedOptions: seq<ListboxOption>, o: ListboxOption): Option<bool>
  {
    if multiple then Some(|selectedOptions| > 0 && o == selectedOptions[0]) else None
  }

  /** `findIndex(el => el.getAttribute("selected") !== null)`. */
  function FirstWithSelectedAttribute(options: seq<ListboxOption>): (i: int)
    ensures -1 <= i < |options|
    ensures i >= 0 ==> options[i].selectedAttribute && forall j :: 0 <= j < i ==> !options[j].selectedAttribute
    ensures i == -1 ==> forall j :: 0 <= j < |options| ==> !options[j].selectedAttribute
  {
    if |options| == 0 then -1
    else if options[0].selectedAttribute then 0
    else
      var i := FirstWithSelectedAttribute(options[1..]);
      assert forall j :: 1 <= j < |options| ==> options[j] == options[1..][j - 1];
      if i == -1 then -1 else i + 1
  }

  /**
   * The index `setDefaultSelectedOption` selects: the first option carrying
   * a `selected` attribute, or 0 when none does.
   */
  function DefaultSelectedIndex(options: seq<ListboxOption>): int
  {
    var i := FirstWithSelectedAttribute(options);
    if i != -1 then i else 0
  }

  lemma DefaultSelectedIndexIsFirstMarked(options: seq<ListboxOption>)
    ensures var d := DefaultSelectedIndex(options);
      && (|options| > 0 ==> 0 <= d < |options|)
      && (forall j :: 0 <= j < |options| && options[j].selectedAttribute ==> options[d].selectedAttribute && d <= j)
      && ((forall j :: 0 <= j < |options| ==> !options[j].selectedAttribute) ==> d == 0)
  {
  }

  /** The index `selectNextOption` moves to: one further, unless already at or past the last option. */
  function NextIndex(selectedIndex: int, length: int): int
  {
    if selectedIndex < length - 1 then selectedIndex + 1 else selectedIndex
  }

  /** The index `selectPreviousOption` moves to: one back, unless already at or before the first. */
  function PreviousIndex(selectedIndex: int): int
  {
    if selectedIndex > 0 then selectedIndex - 1 else selectedIndex
  }

  /**
   * Stepping never leaves the options: from an index in range, the next and
   * previous indices are in range and at most one step away, and stepping
   * forward then back (or back then forward) returns to where it started
   * unless the first step was blocked at an end.
   */
  lemma NavigationStaysInRange(selectedIndex: int, length: int)
    ensures selectedIndex < length ==> NextIndex(selectedIndex, length) < length
    ensures selectedIndex >= 0 ==> PreviousIndex(selectedIndex) >= 0
    ensures 0 <= selectedIndex < length ==>
      && 0 <= NextIndex(selectedIndex, length) < length
      && 0 <= PreviousIndex(selectedIndex) < length
      && selectedIndex <= NextIndex(selectedIndex, length) <= selectedIndex + 1
      && selectedIndex - 1 <= PreviousIndex(selectedIndex) <= selectedIndex
    ensures selectedIndex >= 0 && selectedIndex < length - 1 ==> PreviousIndex(NextIndex(selectedIndex, length)) == selectedIndex
    ensures 0 < selectedIndex < length ==> NextIndex(PreviousIndex(selectedIndex), length) == selectedIndex
  {
  }

  /** The buffer `handleTypeAhead` builds from a key of at most one character. */
  function TypedBuffer(typeAheadExpired: bool, typeaheadBuffer: string, key: string): string
  {
    (if typeAheadExpired then "" else typeaheadBuffer) + key
  }

  /** `options.filter(o => o.text.trim().match(re))` for the regular expression `^pattern`, flags `gi`. */
  function FilterMatching(options: seq<ListboxOption>, pattern: string): (r: seq<ListboxOption>)
    requires IsLiteralPattern(pattern)
    ensures |r| <= |options|
  {
    if |options| == 0 then []
    else
      var rest := FilterMatching(options[1..], pattern);
      if MatchesPrefix(pattern, Trim(options[0].text)) then [options[0]] + rest else rest
  }

  /** `filter` keeps the options in order: it distributes over concatenation. */
  lemma {:induction false} FilterMatchingKeepsOrder(a: seq<ListboxOption>, b: seq<ListboxOption>, pattern: string)
    requires IsLiteralPattern(pattern)
    ensures FilterMatching(a + b, pattern) == FilterMatching(a, pattern) + FilterMatching(b, pattern)
  {
    if |a| > 0 {
      var ab := a + b;
      assert ab[0] == a[0] && ab[1..] == a[1..] + b;
      FilterMatchingKeepsOrder(a[1..], b, pattern);
      var keep := MatchesPrefix(pattern, Trim(a[0].text));
      var head := if keep then [a[0]] else [];
      assert FilterMatching(ab, pattern) == head + FilterMatching(a[1..] + b, pattern);
      assert FilterMatching(a, pattern) == head + FilterMatching(a[1..], pattern);
    } else {
      assert a + b == b;
    }
  }

  /** A single option is kept exactly when the pattern matches its trimmed text. */
  lemma FilterMatchingSingle(o: ListboxOption, pattern: string)
    requires IsLiteralPattern(pattern)
    ensures FilterMatching([o], pattern) == if MatchesPrefix(pattern, Trim(o.text)) then [o] else []
  {
    assert [o][1..] == [];
  }

  /** `filter` keeps exactly the options whose trimmed text the pattern matches. */
  lemma {:induction false} FilterMatchingKeepsMatches(options: seq<ListboxOption>, pattern: string)
    requires IsLiteralPattern(pattern)
    ensures forall o: ListboxOption :: o in FilterMatching(options, pattern) <==> o in options && MatchesPrefix(pattern, Trim(o.text))
  {
    if |options| > 0 {
      FilterMatchingKeepsMatches(options[1..], pattern);
      assert options == [options[0]] + options[1..];
    }
  }

  /** The first option whose trimmed text starts with the buffer, ignoring case, or -1. */
  function FirstMatchIndex(options: seq<ListboxOption>, buffer: string): (i: int)
    ensures -1 <= i < |options|
    ensures i >= 0 ==> StartsWithIgnoringCase(Trim(options[i].text), buffer)
    ensures i >= 0 ==> forall j :: 0 <= j < i ==> !StartsWithIgnoringCase(Trim(options[j].text), buffer)
    ensures i == -1 ==> forall j :: 0 <= j < |options| ==> !StartsWithIgnoringCase(Trim(options[j].text), buffer)
  {
    if |options| == 0 then -1
    else if StartsWithIgnoringCase(Trim(options[0].text), buffer) then 0
    else
      var i := FirstMatchIndex(options[1..], buffer);
      assert forall j :: 1 <= j < |options| ==> options[j] == options[1..][j - 1];
      if i == -1 then -1 else i + 1
  }

  lemma {:induction false} FilterMatchingStartsAtFirstMatch(options: seq<ListboxOption>, buffer: string)
    ensures IsLiteralPattern(EscapeRegExp(buffer))
    ensures var f := FilterMatching(options, EscapeRegExp(buffer));
      var m := FirstMatchIndex(options, buffer);
      && (|f| > 0 <==> m >= 0)
      && (|f| > 0 ==> f[0] == options[m])
  {
    EscapeRegExpIsLiteral(buffer);
    if |options| > 0 {
      EscapedBufferMatches(buffer, Trim(options[0].text));
      FilterMatchingStartsAtFirstMatch(options[1..], buffer);
    }
  }

  /**
   * `typeaheadBufferChanged` finds the first matching option by filtering
   * and then looking the first survivor up with `indexOf`; that is the
   * first index whose trimmed text starts with the buffer, even when the
   * same option object occurs more than once.
   */
  lemma TypeaheadFindsFirstMatch(options: seq<ListboxOption>, buffer: string)
    ensures IsLiteralPattern(EscapeRegExp(buffer))
    ensures var f := FilterMatching(options, EscapeRegExp(buffer));
      && (|f| > 0 <==> FirstMatchIndex(options, buffer) >= 0)
      && (|f| > 0 ==> IndexOf(options, f[0]) == FirstMatchIndex(options, buffer))
  {
    FilterMatchingStartsAtFirstMatch(options, buffer);
  }

  /** What `keydownHandler` does with a key once the listbox is enabled. */
  datatype KeyAction = SelectFirst | SelectNext | SelectPrevious | SelectLast | TypeAhead | NoAction

  /** The handler's return value (`true`, or `undefined` as false) and whether it called `preventDefault`. */
  datatype KeyResult = KeyResult(returnedTrue: bool, defaultPrevented: bool)

  datatype KeyOutcome = KeyOutcome(action: KeyAction, result: KeyResult)

  /** The `switch` of `keydownHandler`, for an enabled listbox. */
  function Dispatch(key: string, shiftKey: bool, typeAheadExpired: bool): KeyOutcome
  {
    if key == "Home" then
      if !shiftKey then KeyOutcome(SelectFirst, KeyResult(false, true)) else KeyOutcome(NoAction, KeyResult(false, false))
    else if key == "ArrowDown" then
      if !shiftKey then KeyOutcome(SelectNext, KeyResult(false, true)) else KeyOutcome(NoAction, KeyResult(false, false))
    else if key == "ArrowUp" then
      if !shiftKey then KeyOutcome(SelectPrevious, KeyResult(false, true)) else KeyOutcome(NoAction, KeyResult(false, false))
    else if key == "End" then KeyOutcome(SelectLast, KeyResult(false, true))
    else if key == "Tab" || key == "Enter" || key == "Escape" then KeyOutcome(NoAction, KeyResult(true, false))
    else if key == " " && typeAheadExpired then KeyOutcome(NoAction, KeyResult(true, false))
    else if |key| == 1 then KeyOutcome(TypeAhead, KeyResult(true, false))
    else KeyOutcome(NoAction, KeyResult(true, false))
  }

  /**
   * The key dispatch: only the four navigation keys return without `true`,
   * and they are the only keys whose default action is prevented; a space
   * goes to the typeahead exactly when the buffer has not expired; every
   * other single-character key goes to the typeahead; nothing else does.
   */
  lemma DispatchLaws(key: string, shiftKey: bool, typeAheadExpired: bool)
    ensures var out := Dispatch(key, shiftKey, typeAheadExpired);
      && (!out.result.returnedTrue <==> key in ["Home", "ArrowDown", "ArrowUp", "End"])
      && (out.result.defaultPrevented <==> out.action in {SelectFirst, SelectNext, SelectPrevious, SelectLast})
      && (out.action == SelectLast <==> key == "End")
      && (out.action == TypeAhead <==> |key| == 1 && (key != " " || !typeAheadExpired))
  {
  }

  class Listbox {
    var options: seq<ListboxOption>
    var disabled: bool
    var multiple: bool
    var selectedIndex: int
    var selectedOptions: seq<ListboxOption>
    var ariaActiveDescendant: string
    /** `ariaMultiselectable`: `None` stands for `undefined`. */
    var ariaMultiselectable: Option<string>
    var typeaheadBuffer: string
    var typeAheadExpired: bool
    /** Whether a typeahead timeout is scheduled and not yet cleared or run. */
    var typeaheadTimerPending: bool
    var shouldSkipFocus: bool

    /**
     * What `setSelectedOptions` and `selectedOptionsChanged` establish: the
     * selected options are the occurrences of the option at
     * `selectedIndex`, the active descendant is the first one's id, every
     * option's `selected` says whether it is among them, and in multiple
     * mode the first selected option alone is checked.
     */
    ghost predicate SelectionSynced()
      reads this, options, selectedOptions
    {
      && selectedOptions == SameNodes(options, SelectedOption(options, selectedIndex))
      && ariaActiveDescendant == (if |selectedOptions| > 0 then selectedOptions[0].id else "")
      && (forall o :: o in options ==> o.selected == (o in selectedOptions))
      && (forall o :: o in options ==> o.checked == CheckedState(multiple, selectedOptions, o))
    }

    /** What `multipleChanged` establishes about `ariaMultiselectable`. */
    predicate MultiselectableSynced()
      reads this
    {
      ariaMultiselectable == if multiple then Some("true") else None
    }

    ghost predicate Synced()
      reads this, options, selectedOptions
    {
      SelectionSynced() && MultiselectableSynced()
    }

    /** The options and their ids, the flags and `ariaMultiselectable` are as they were. */
    twostate predicate KeepsConfiguration()
      reads this, options
    {
      && options == old(options)
      && (forall o :: o in old(options) ==> o.id == old(o.id))
      && disabled == old(disabled)
      && multiple == old(multiple)
      && ariaMultiselectable == old(ariaMultiselectable)
    }

    /** The typeahead buffer, its expiry flag and its timer are as they were. */
    twostate predicate KeepsTypeahead()
      reads this
    {
      && typeaheadBuffer == old(typeaheadBuffer)
      && typeAheadExpired == old(typeAheadExpired)
      && typeaheadTimerPending == old(typeaheadTimerPending)
    }

    /** The selection mirror, the active descendant and every option's flags are as they were. */
    twostate predicate KeepsSelection()
      reads this, options
    {
      && selectedOptions == old(selectedOptions)
      && ariaActiveDescendant == old(ariaActiveDescendant)
      && options == old(options)
      && (forall o :: o in old(options) ==> o.selected == old(o.selected) && o.checked == old(o.checked))
    }

    /** A new listbox: no options, nothing selected, an expired typeahead. */
    constructor ()
      ensures options == [] && !disabled && !multiple && selectedIndex == -1
      ensures typeaheadBuffer == "" && typeAheadExpired && !typeaheadTimerPending && !shouldSkipFocus
      ensures Synced()
    {
      options := [];
      disabled := false;
      multiple := false;
      selectedIndex := -1;
      selectedOptions := [];
      ariaActiveDescendant := "";
      ariaMultiselectable := None;
      typeaheadBuffer := "";
      typeAheadExpired := true;
      typeaheadTimerPending := false;
      shouldSkipFocus := false;
    }

    /** `length`: the count of options. */
    function Length(): nat
      reads this
    {
      |options|
    }

    /** `firstSelectedOption`. */
    function FirstSelectedOption(): Option<ListboxOption>
      reads this
    {
      if |selectedOptions| > 0 then Some(selectedOptions[0]) else None
    }

    /** The `forEach` of `selectedOptionsChanged`. */
    method MarkSelectedOptions()
      modifies options
      ensures forall o :: o in options ==>
        o.selected == (o in selectedOptions) && o.checked == (if multiple then Some(false) else None)
      ensures forall o :: o in options ==> o.id == old(o.id)
    {
      for i := 0 to |options|
        invariant forall j :: 0 <= j < i ==>
          options[j].selected == (options[j] in selectedOptions)
          && options[j].checked == (if multiple then Some(false) else None)
        invariant forall o :: o in options ==> o.id == old(o.id)
      {
        var o := options[i];
        o.selected := o in selectedOptions;
        o.checked := if multiple then Some(false) else None;
      }
    }

    /**
     * `selectedOptionsChanged`: mark each option selected exactly when it is
     * among the selected options, reset `checked` (false in multiple mode,
     * undefined otherwise), then check the first selected option in
     * multiple mode.
     */
    method SelectedOptionsChanged()
      modifies options, selectedOptions
      ensures forall o :: o in options ==>
        o.selected == (o in selectedOptions) && o.checked == CheckedState(multiple, selectedOptions, o)
      ensures forall o :: o in selectedOptions && o !in options ==>
        o.selected == old(o.selected)
        && o.checked == (if multiple && o == selectedOptions[0] then Some(true) else old(o.checked))
      ensures forall o :: o in options || o in selectedOptions ==> o.id == old(o.id)
    {
      MarkSelectedOptions();
      if multiple && |selectedOptions| > 0 {
        selectedOptions[0].checked := Some(true);
      }
    }

    /**
     * `setSelectedOptions`: select every occurrence of the option at
     * `selectedIndex` (none when the index is out of range), run
     * `selectedOptionsChanged`, then point the active descendant at the
     * first selected option.
     */
    method SetSelectedOptions()
      modifies this, options
      ensures SelectionSynced()
      ensures selectedIndex == old(selectedIndex) && shouldSkipFocus == old(shouldSkipFocus)
      ensures KeepsConfiguration() && KeepsTypeahead()
    {
      var selectedOption := SelectedOption(options, selectedIndex);
      selectedOptions := SameNodes(options, selectedOption);
      SelectedOptionsChanged();
      ariaActiveDescendant := if |selectedOptions| > 0 then selectedOptions[0].id else "";
    }

    /** Assigning `selectedIndex`: a different value is stored and `selectedIndexChanged` runs. */
    method SetSelectedIndex(value: int)
      modifies this, options
      ensures selectedIndex == value
      ensures value != old(selectedIndex) ==> SelectionSynced()
      ensures value == old(selectedIndex) ==> unchanged(this) && unchanged(options)
      ensures shouldSkipFocus == old(shouldSkipFocus)
      ensures KeepsConfiguration() && KeepsTypeahead()
    {
      if value != selectedIndex {
        selectedIndex := value;
        SetSelectedOptions();
      }
    }

    /** `selectFirstOption`: select index 0 unless disabled. */
    method SelectFirstOption()
      modifies this, options
      ensures selectedIndex == if old(disabled) then old(selectedIndex) else 0
      ensures old(Synced()) ==> Synced()
      ensures selectedIndex != old(selectedIndex) ==> SelectionSynced()
      ensures selectedIndex == old(selectedIndex) ==> unchanged(this) && unchanged(options)
      ensures shouldSkipFocus == old(shouldSkipFocus)
      ensures KeepsConfiguration() && KeepsTypeahead()
    {
      if !disabled {
        SetSelectedIndex(0);
      }
    }

    /** `selectLastOption`: select the last index unless disabled. */
    method SelectLastOption()
      modifies this, options
      ensures selectedIndex == if old(disabled) then old(selectedIndex) else |options| - 1
      ensures old(Synced()) ==> Synced()
      ensures selectedIndex != old(selectedIndex) ==> SelectionSynced()
      ensures selectedIndex == old(selectedIndex) ==> unchanged(this) && unchanged(options)
      ensures shouldSkipFocus == old(shouldSkipFocus)
      ensures KeepsConfiguration() && KeepsTypeahead()
    {
      if !disabled {
        SetSelectedIndex(|options| - 1);
      }
    }

    /** `selectNextOption`: step forward unless disabled or already at the last option. */
    method SelectNextOption()
      modifies this, options
      ensures selectedIndex == if old(disabled) then old(selectedIndex) else NextIndex(old(selectedIndex), |options|)
      ensures old(Synced()) ==> Synced()
      ensures selectedIndex != old(selectedIndex) ==> SelectionSynced()
      ensures selectedIndex == old(selectedIndex) ==> unchanged(this) && unchanged(options)
      ensures shouldSkipFocus == old(shouldSkipFocus)
      ensures KeepsConfiguration() && KeepsTypeahead()
    {
      if !disabled && selectedIndex < |options| - 1 {
        SetSelectedIndex(selectedIndex + 1);
      }
    }

    /** `selectPreviousOption`: step back unless disabled or already at the first option. */
    method SelectPreviousOption()
      modifies this, options
      ensures selectedIndex == if old(disabled) then old(selectedIndex) else PreviousIndex(old(selectedIndex))
      ensures old(Synced()) ==> Synced()
      ensures selectedIndex != old(selectedIndex) ==> SelectionSynced()
      ensures selectedIndex == old(selectedIndex) ==> unchanged(this) && unchanged(options)
      ensures shouldSkipFocus == old(shouldSkipFocus)
      ensures KeepsConfiguration() && KeepsTypeahead()
    {
      if !disabled && selectedIndex > 0 {
        SetSelectedIndex(selectedIndex - 1);
      }
    }

    /** `setDefaultSelectedOption`: select the first option with a `selected` attribute, else index 0. */
    method SetDefaultSelectedOption()
      modifies this, options
      ensures selectedIndex == DefaultSelectedIndex(options)
      ensures old(Synced()) ==> Synced()
      ensures selectedIndex != old(selectedIndex) ==> SelectionSynced()
      ensures selectedIndex == old(selectedIndex) ==> unchanged(this) && unchanged(options)
      ensures old(SelectionSynced()) ==> SelectionSynced()
      ensures shouldSkipFocus == old(shouldSkipFocus)
      ensures KeepsConfiguration() && KeepsTypeahead()
    {
      var index := FirstWithSelectedAttribute(options);
      if index != -1 {
        SetSelectedIndex(index);
        return;
      }
      SetSelectedIndex(0);
    }

    /**
     * `typeaheadBufferChanged`: select the first option whose trimmed text
     * the `^pattern` expression of the escaped buffer matches, ignoring
     * case; keep the index when none matches; then clear the expiry flag.
     */
    method TypeaheadBufferChanged()
      modifies this, options
      ensures var m := FirstMatchIndex(options, typeaheadBuffer);
        selectedIndex == if m >= 0 then m else old(selectedIndex)
      ensures !typeAheadExpired
      ensures typeaheadBuffer == old(typeaheadBuffer) && typeaheadTimerPending == old(typeaheadTimerPending)
      ensures old(Synced()) ==> Synced()
      ensures selectedIndex != old(selectedIndex) ==> SelectionSynced()
      ensures shouldSkipFocus == old(shouldSkipFocus)
      ensures KeepsConfiguration()
      ensures selectedIndex == old(selectedIndex) ==> KeepsSelection()
    {
      SelectTypeaheadMatch();
      typeAheadExpired := false;
    }

    /** The search of `typeaheadBufferChanged`: filter the options, then look the first survivor up. */
    method SelectTypeaheadMatch()
      modifies this, options
      ensures var m := FirstMatchIndex(options, typeaheadBuffer);
        selectedIndex == if m >= 0 then m else old(selectedIndex)
      ensures old(Synced()) ==> Synced()
      ensures selectedIndex != old(selectedIndex) ==> SelectionSynced()
      ensures selectedIndex == old(selectedIndex) ==> unchanged(this) && unchanged(options)
      ensures shouldSkipFocus == old(shouldSkipFocus)
      ensures KeepsConfiguration() && KeepsTypeahead()
    {
      TypeaheadFindsFirstMatch(options, typeaheadBuffer);
      var pattern := EscapeRegExp(typeaheadBuffer);
      var filteredOptions := FilterMatching(options, pattern);
      var index := if |filteredOptions| > 0 then IndexOf(options, filteredOptions[0]) else -1;
      if index > -1 {
        SetSelectedIndex(index);
      }
    }

    /** Assigning `typeaheadBuffer`: a different value is stored and `typeaheadBufferChanged` runs. */
    method SetTypeaheadBuffer(value: string)
      modifies this, options
      ensures typeaheadBuffer == value
      ensures value != old(typeaheadBuffer) ==>
        && !typeAheadExpired
        && var m := FirstMatchIndex(options, value);
           selectedIndex == if m >= 0 then m else old(selectedIndex)
      ensures value == old(typeaheadBuffer) ==> unchanged(this) && unchanged(options)
      ensures typeaheadTimerPending == old(typeaheadTimerPending)
      ensures old(Synced()) ==> Synced()
      ensures selectedIndex != old(selectedIndex) ==> SelectionSynced()
      ensures shouldSkipFocus == old(shouldSkipFocus)
      ensures KeepsConfiguration()
      ensures selectedIndex == old(selectedIndex) ==> KeepsSelection()
    {
      if value != typeaheadBuffer {
        typeaheadBuffer := value;
        TypeaheadBufferChanged();
      }
    }

    /**
     * `handleTypeAhead`: restart the expiry timer; ignore keys longer than
     * one character; otherwise append the key to the buffer, starting afresh
     * when the previous typeahead has expired. An unchanged buffer (such as
     * the same single key typed again after expiry) runs no search.
     */
    method HandleTypeAhead(key: string)
      modifies this, options
      ensures typeaheadTimerPending
      ensures |key| > 1 ==> typeaheadBuffer == old(typeaheadBuffer) && typeAheadExpired == old(typeAheadExpired)
      ensures |key| > 1 ==> selectedIndex == old(selectedIndex)
      ensures |key| <= 1 ==> TypedAhead(key)
      ensures old(Synced()) ==> Synced()
      ensures selectedIndex != old(selectedIndex) ==> SelectionSynced()
      ensures shouldSkipFocus == old(shouldSkipFocus)
      ensures KeepsConfiguration()
      ensures selectedIndex == old(selectedIndex) ==> KeepsSelection()
    {
      typeaheadTimerPending := true;
      if |key| > 1 {
        return;
      }
      SetTypeaheadBuffer(TypedBuffer(typeAheadExpired, typeaheadBuffer, key));
    }

    /** The scheduled typeahead timeout runs: the buffer has expired. */
    method TypeaheadTimeoutElapsed()
      requires typeaheadTimerPending
      modifies this
      ensures typeAheadExpired && !typeaheadTimerPending
      ensures typeaheadBuffer == old(typeaheadBuffer) && selectedIndex == old(selectedIndex)
      ensures selectedOptions == old(selectedOptions) && ariaActiveDescendant == old(ariaActiveDescendant)
      ensures shouldSkipFocus == old(shouldSkipFocus)
      ensures KeepsConfiguration()
    {
      typeAheadExpired := true;
      typeaheadTimerPending := false;
    }

    /**
     * `multipleChanged`: reset every option's `checked`, set
     * `ariaMultiselectable`, then re-run `setSelectedOptions`.
     */
    method MultipleChanged()
      modifies this, options
      ensures Synced()
      ensures selectedIndex == old(selectedIndex) && shouldSkipFocus == old(shouldSkipFocus)
      ensures options == old(options) && disabled == old(disabled) && multiple == old(multiple)
      ensures forall o :: o in old(options) ==> o.id == old(o.id)
      ensures KeepsTypeahead()
    {
      for i := 0 to |options|
        invariant selectedIndex == old(selectedIndex) && shouldSkipFocus == old(shouldSkipFocus)
        invariant KeepsConfiguration() && KeepsTypeahead()
      {
        options[i].checked := if multiple then Some(false) else None;
      }
      ariaMultiselectable := if multiple then Some("true") else None;
      SetSelectedOptions();
    }

    /** Assigning `multiple`: a different value is stored and `multipleChanged` runs. */
    method SetMultiple(value: bool)
      modifies this, options
      ensures multiple == value
      ensures value != old(multiple) ==> Synced()
      ensures value == old(multiple) ==> unchanged(this) && unchanged(options)
      ensures old(Synced()) ==> Synced()
      ensures selectedIndex == old(selectedIndex) && shouldSkipFocus == old(shouldSkipFocus)
      ensures options == old(options) && disabled == old(disabled)
      ensures forall o :: o in old(options) ==> o.id == old(o.id)
      ensures KeepsTypeahead()
    {
      if value != multiple {
        multiple := value;
        MultipleChanged();
      }
    }

    /** Assigning `disabled`. */
    method SetDisabled(value: bool)
      modifies this
      ensures disabled == value
      ensures options == old(options) && multiple == old(multiple) && ariaMultiselectable == old(ariaMultiselectable)
      ensures selectedIndex == old(selectedIndex) && selectedOptions == old(selectedOptions)
      ensures ariaActiveDescendant == old(ariaActiveDescendant) && shouldSkipFocus == old(shouldSkipFocus)
      ensures KeepsTypeahead()
      ensures old(Synced()) ==> Synced()
    {
      disabled := value;
    }

    /**
     * `slottedOptionsChanged`: the options become the listbox options among
     * the slotted elements; an option without an id gets
     * `"option-" + idSuffix(n)`, `n` counting the ids generated so far in
     * the call; then the selection is re-synchronised and the default
     * option selected.
     */
    method SlottedOptionsChanged(next: seq<Slotted>, idSuffix: nat -> string)
      modifies this, OptionsOf(next)
      ensures options == OptionsOf(next)
      ensures forall o :: o in options ==> o.id != ""
      ensures forall o :: o in options && old(o.id) != "" ==> o.id == old(o.id)
      ensures selectedIndex == DefaultSelectedIndex(options)
      ensures SelectionSynced()
      ensures old(MultiselectableSynced()) ==> Synced()
      ensures disabled == old(disabled) && multiple == old(multiple) && ariaMultiselectable == old(ariaMultiselectable)
      ensures shouldSkipFocus == old(shouldSkipFocus)
      ensures KeepsTypeahead()
    {
      options := OptionsOf(next);
      AssignMissingIds(idSuffix);
      SetSelectedOptions();
      SetDefaultSelectedOption();
    }

    /** The `forEach` of `slottedOptionsChanged` that gives every option an id. */
    method AssignMissingIds(idSuffix: nat -> string)
      modifies options
      ensures forall o :: o in options ==> o.id != ""
      ensures forall o :: o in options && old(o.id) != "" ==> o.id == old(o.id)
      ensures forall o :: o in options ==> o.selected == old(o.selected) && o.checked == old(o.checked)
    {
      var generated: nat := 0;
      for i := 0 to |options|
        invariant forall j :: 0 <= j < i ==> options[j].id != ""
        invariant forall o :: o in options && old(o.id) != "" ==> o.id == old(o.id)
        invariant forall o :: o in options ==> o.selected == old(o.selected) && o.checked == old(o.checked)
      {
        var o := options[i];
        if o.id == "" {
          o.id := "option-" + idSuffix(generated);
          generated := generated + 1;
        }
      }
    }

    /**
     * `clickHandler`: a click inside an enabled option selects that
     * option's first index in the options (-1 when it is not one of them)
     * and returns true; otherwise nothing happens.
     */
    method ClickHandler(captured: Option<ListboxOption>) returns (returnedTrue: bool)
      modifies this, options
      ensures returnedTrue <==> captured.Some? && !captured.value.disabled
      ensures selectedIndex == if returnedTrue then IndexOf(options, captured.value) else old(selectedIndex)
      ensures old(Synced()) ==> Synced()
      ensures selectedIndex != old(selectedIndex) ==> SelectionSynced()
      ensures selectedIndex == old(selectedIndex) ==> unchanged(this) && unchanged(options)
      ensures shouldSkipFocus == old(shouldSkipFocus)
      ensures KeepsConfiguration() && KeepsTypeahead()
    {
      if captured.Some? && !captured.value.disabled {
        SetSelectedIndex(IndexOf(options, captured.value));
        return true;
      }
      return false;
    }

    /**
     * `focusinHandler`: when focus lands on the listbox itself and is not
     * to be skipped, re-synchronise the selection; either way clear the
     * skip flag.
     */
    method FocusinHandler(targetIsListbox: bool)
      modifies this, options
      ensures !shouldSkipFocus
      ensures !old(shouldSkipFocus) && targetIsListbox ==> SelectionSynced()
      ensures old(Synced()) ==> Synced()
      ensures selectedIndex == old(selectedIndex)
      ensures KeepsConfiguration() && KeepsTypeahead()
    {
      if !shouldSkipFocus && targetIsListbox {
        SetSelectedOptions();
      }
      shouldSkipFocus := false;
    }

    /** `mousedownHandler`: skip the next focus when focus is outside the listbox. */
    method MousedownHandler(activeElementInside: bool) returns (returnedTrue: bool)
      modifies this
      ensures returnedTrue
      ensures shouldSkipFocus == !activeElementInside
      ensures selectedIndex == old(selectedIndex) && selectedOptions == old(selectedOptions)
      ensures ariaActiveDescendant == old(ariaActiveDescendant)
      ensures KeepsConfiguration() && KeepsTypeahead()
      ensures old(Synced()) ==> Synced()
    {
      shouldSkipFocus := !activeElementInside;
      return true;
    }

    /**
     * What typing `key` into the typeahead did: the timer is pending and the
     * buffer is `TypedBuffer`; a changed buffer selected its first match (if
     * any) and cleared the expiry flag; an unchanged one left both alone.
     */
    twostate predicate TypedAhead(key: string)
      reads this
    {
      && typeaheadTimerPending
      && typeaheadBuffer == TypedBuffer(old(typeAheadExpired), old(typeaheadBuffer), key)
      && (typeaheadBuffer != old(typeaheadBuffer) ==>
            && !typeAheadExpired
            && var m := FirstMatchIndex(options, typeaheadBuffer);
               selectedIndex == if m >= 0 then m else old(selectedIndex))
      && (typeaheadBuffer == old(typeaheadBuffer) ==>
            typeAheadExpired == old(typeAheadExpired) && selectedIndex == old(selectedIndex))
    }

    /** The effect of each `KeyAction` on the selected index and the typeahead state. */
    twostate predicate Performed(action: KeyAction, key: string)
      reads this
    {
      match action
      case SelectFirst => selectedIndex == 0 && KeepsTypeahead()
      case SelectNext => selectedIndex == NextIndex(old(selectedIndex), |options|) && KeepsTypeahead()
      case SelectPrevious => selectedIndex == PreviousIndex(old(selectedIndex)) && KeepsTypeahead()
      case SelectLast => selectedIndex == |options| - 1 && KeepsTypeahead()
      case NoAction => selectedIndex == old(selectedIndex) && KeepsTypeahead()
      case TypeAhead => TypedAhead(key)
    }

    /**
     * `keydownHandler`: a disabled listbox returns true and changes nothing;
     * otherwise the skip-focus flag is cleared and the key is handled as
     * `Dispatch` says.
     */
    method KeydownHandler(key: string, shiftKey: bool) returns (r: KeyResult)
      modifies this, options
      ensures old(disabled) ==> r == KeyResult(true, false) && unchanged(this) && unchanged(options)
      ensures !old(disabled) ==>
        var out := Dispatch(key, shiftKey, old(typeAheadExpired));
        r == out.result && !shouldSkipFocus && Performed(out.action, key)
      ensures old(Synced()) ==> Synced()
      ensures KeepsConfiguration()
      ensures selectedIndex == old(selectedIndex) ==> KeepsSelection()
    {
      if disabled {
        return KeyResult(true, false);
      }
      shouldSkipFocus := false;
      r := HandleEnabledKey(key, shiftKey);
    }

    /** The `switch` of `keydownHandler`, once the listbox is known to be enabled. */
    method HandleEnabledKey(key: string, shiftKey: bool) returns (r: KeyResult)
      requires !disabled
      modifies this, options
      ensures var out := Dispatch(key, shiftKey, old(typeAheadExpired));
        r == out.result && Performed(out.action, key)
      ensures shouldSkipFocus == old(shouldSkipFocus)
      ensures old(Synced()) ==> Synced()
      ensures KeepsConfiguration()
      ensures selectedIndex == old(selectedIndex) ==> KeepsSelection()
    {
      if key == "Home" || key == "ArrowDown" || key == "ArrowUp" || key == "End" {
        r := HandleNavigationKey(key, shiftKey);
        return;
      } else if key == "Tab" {
        return KeyResult(true, false);
      } else if key == "Enter" || key == "Escape" {
        return KeyResult(true, false);
      }
      if key == " " && typeAheadExpired {
        return KeyResult(true, false);
      }
      if |key| == 1 {
        HandleTypeAhead(key);
      }
      return KeyResult(true, false);
    }

    /** The `Home`, `ArrowDown`, `ArrowUp` and `End` cases of `keydownHandler`. */
    method HandleNavigationKey(key: string, shiftKey: bool) returns (r: KeyResult)
      requires !disabled && (key == "Home" || key == "ArrowDown" || key == "ArrowUp" || key == "End")
      modifies this, options
      ensures var out := Dispatch(key, shiftKey, old(typeAheadExpired));
        r == out.result && Performed(out.action, key)
      ensures shouldSkipFocus == old(shouldSkipFocus)
      ensures old(Synced()) ==> Synced()
      ensures KeepsConfiguration()
      ensures selectedIndex == old(selectedIndex) ==> KeepsSelection()
    {
      if key == "Home" {
        if !shiftKey {
          SelectFirstOption();
          return KeyResult(false, true);
        }
        return KeyResult(false, false);
      } else if key == "ArrowDown" {
        if !shiftKey {
          SelectNextOption();
          return KeyResult(false, true);
        }
        return KeyResult(false, false);
      } else if key == "ArrowUp" {
        if !shiftKey {
          SelectPreviousOption();
          return KeyResult(false, true);
        }
        return KeyResult(false, false);
      }
      SelectLastOption();
      return KeyResult(false, true);
    }
  }
}
