/**
 * The station input's suggestion list: the component state `suggestions`,
 * `showSuggestions` and `selectedIndex`, and the text `value` its parent
 * keeps (every `onChange` call stores its argument there), driven by the
 * input, selection, key and focus handlers.
 */
module StationAutocomplete {
  import opened Stations

  /** The keys the key handler distinguishes; every other key is `OtherKey`. */
  datatype Key = ArrowDown | ArrowUp | Enter | Escape | OtherKey

  /** The text a selected station puts in the input: `name (code)`. */
  function Label(st: Station): (s: string)
    ensures |s| == |st.name| + |st.code| + 3
    ensures s[..|st.name|] == st.name && s[|st.name|..|st.name| + 2] == " ("
    ensures s[|st.name| + 2..|s| - 1] == st.code && s[|s| - 1] == ')'
  {
    st.name + " (" + st.code + ")"
  }

  class Autocomplete {
    var value: string
    var suggestions: seq<Station>
    var showSuggestions: bool
    var selectedIndex: int

    /**
     * The highlighted index is -1 (nothing highlighted) or a position in the
     * list; it may dangle only while the list is empty.
     */
    ghost predicate Valid()
      reads this
    {
      -1 <= selectedIndex && (suggestions != [] ==> selectedIndex < |suggestions|)
    }

    constructor (value: string)
      ensures this.value == value && suggestions == [] && !showSuggestions && selectedIndex == -1
      ensures Valid()
    {
      this.value := value;
      suggestions := [];
      showSuggestions := false;
      selectedIndex := -1;
    }

    /** `handleInputChange`: forward the text, then refresh or clear the suggestions. */
    method InputChange(input: string)
      modifies this
      ensures value == input
      ensures |input| >= MinQueryLength ==>
        suggestions == SearchStations(input) && showSuggestions && selectedIndex == -1
      ensures |input| < MinQueryLength ==>
        suggestions == [] && !showSuggestions && selectedIndex == old(selectedIndex)
      ensures old(Valid()) ==> Valid()
    {
      value := input;
      if |input| >= MinQueryLength {
        suggestions := SearchStations(input);
        showSuggestions := true;
        selectedIndex := -1;
      } else {
        suggestions := [];
        showSuggestions := false;
      }
    }

    /** `handleSelectStation`: put the station's label in the input and close the list. */
    method SelectStation(st: Station)
      modifies this
      ensures value == Label(st)
      ensures suggestions == [] && !showSuggestions && selectedIndex == old(selectedIndex)
      ensures old(Valid()) ==> Valid()
    {
      value := Label(st);
      showSuggestions := false;
      suggestions := [];
    }

    /**
     * `handleKeyDown`. `thrown` is true when Enter reads a highlighted index
     * outside the list: the element is then `undefined` and the selection
     * handler throws before changing anything.
     */
    method KeyDown(key: Key) returns (thrown: bool)
      modifies this
      ensures thrown ==> key == Enter && showSuggestions && !(old(selectedIndex) < |suggestions|)
      // Hidden or empty list: nothing happens.
      ensures !old(showSuggestions) || old(suggestions) == [] ==>
        !thrown && value == old(value) && suggestions == old(suggestions) &&
        showSuggestions == old(showSuggestions) && selectedIndex == old(selectedIndex)
      // Otherwise each key does what its case says.
      ensures old(showSuggestions) && old(suggestions) != [] ==>
        match key
        case ArrowDown =>
          !thrown && value == old(value) && suggestions == old(suggestions) && showSuggestions &&
          selectedIndex == (if old(selectedIndex) < |old(suggestions)| - 1 then old(selectedIndex) + 1 else old(selectedIndex))
        case ArrowUp =>
          !thrown && value == old(value) && suggestions == old(suggestions) && showSuggestions &&
          selectedIndex == (if old(selectedIndex) > 0 then old(selectedIndex) - 1 else -1)
        case Enter =>
          selectedIndex == old(selectedIndex) &&
          if old(selectedIndex) < 0 then
            !thrown && value == old(value) && suggestions == old(suggestions) && showSuggestions
          else if old(selectedIndex) < |old(suggestions)| then
            !thrown && value == Label(old(suggestions)[old(selectedIndex)]) && suggestions == [] && !showSuggestions
          else
            thrown && value == old(value) && suggestions == old(suggestions) && showSuggestions
        case Escape =>
          !thrown && value == old(value) && suggestions == old(suggestions) && !showSuggestions &&
          selectedIndex == old(selectedIndex)
        case OtherKey =>
          !thrown && value == old(value) && suggestions == old(suggestions) && showSuggestions &&
          selectedIndex == old(selectedIndex)
      // The handlers keep the bound, so Enter never throws from a valid state.
      ensures old(Valid()) ==> Valid() && !thrown
    {
      thrown := false;
      if !showSuggestions || |suggestions| == 0 {
        return;
      }
      match key {
        case ArrowDown =>
          selectedIndex := if selectedIndex < |suggestions| - 1 then selectedIndex + 1 else selectedIndex;
        case ArrowUp =>
          selectedIndex := if selectedIndex > 0 then selectedIndex - 1 else -1;
        case Enter =>
          if selectedIndex >= 0 {
            if selectedIndex < |suggestions| {
              SelectStation(suggestions[selectedIndex]);
            } else {
              thrown := true;
            }
          }
        case Escape =>
          showSuggestions := false;
        case OtherKey =>
      }
    }

    /**
     * The input's `onFocus`: with two or more characters, recompute and show
     * the suggestions. The highlighted index is not reset, so the bound is
     * kept only when the recomputed list still covers it.
     */
    method Focus()
      modifies this
      ensures value == old(value) && selectedIndex == old(selectedIndex)
      ensures |value| >= MinQueryLength ==> suggestions == SearchStations(value) && showSuggestions
      ensures |value| < MinQueryLength ==>
        suggestions == old(suggestions) && showSuggestions == old(showSuggestions)
      ensures old(Valid()) && (|value| < MinQueryLength || selectedIndex < |SearchStations(value)|) ==> Valid()
    {
      if |value| >= MinQueryLength {
        suggestions := SearchStations(value);
        showSuggestions := true;
      }
    }
  }
}
