/** The multi-select drop-down: what toggling one option and "select all"
    make of the selection, the text of its header and which boxes are ticked.
    The selection and the options are lists of option labels. */
module MultiSelect {
  import opened Wrappers
  import opened Text
  import opened Lists

  /** The test `item !== option`. */
  function Other(option: string): string -> bool {
    item => item != option
  }

  /** `toggleOption(option)`: a selected option is removed (every occurrence
      of it), any other is appended. */
  function Toggle(selected: seq<string>, option: string): (r: seq<string>)
    ensures OptionChecked(r, option) <==> !OptionChecked(selected, option)
  {
    if option in selected then
      FilterMembership(selected, Other(option));
      Filter(selected, Other(option))
    else selected + [option]
  }

  /** `handleSelectAll()`: clear when as many labels are selected as there are
      options, otherwise select a copy of all options. */
  function SelectAll(selected: seq<string>, options: seq<string>): (r: seq<string>)
    ensures r == [] <==> |selected| == |options| || |options| == 0
    ensures r != [] ==> forall o :: o in options ==> o in r
  {
    if |selected| == |options| then [] else options
  }

  /** The header text. */
  function HeaderLabel(selected: seq<string>, options: seq<string>, placeholder: string): (h: string)
    ensures |selected| > 0 && |selected| != |options| ==> |h| > 15 && h[|h| - 15..] == " selecionada(s)"
  {
    if |selected| == 0 then placeholder
    else if |selected| == |options| then "Todas as Cidades"
    else IntToString(|selected|) + " selecionada(s)"
  }

  /** Whether the "Todas" box is ticked. */
  predicate AllChecked(selected: seq<string>, options: seq<string>)
    ensures AllChecked(selected, options) ==> |selected| > 0
  {
    |selected| == |options| && |options| > 0
  }

  /** Whether an option's box is ticked. */
  predicate OptionChecked(selected: seq<string>, option: string)
    ensures OptionChecked(selected, option) ==> |selected| > 0
  {
    option in selected
  }

  /** An option that is not selected is appended at the end. */
  lemma ToggleAbsent(selected: seq<string>, option: string)
    requires option !in selected
    ensures Toggle(selected, option) == selected + [option]
    ensures OptionChecked(Toggle(selected, option), option)
  {
  }

  /** A selected option is removed with all its occurrences; the others stay
      in their order, with their multiplicities. */
  lemma TogglePresent(selected: seq<string>, option: string)
    requires option in selected
    ensures option !in Toggle(selected, option)
    ensures IsSubsequence(Toggle(selected, option), selected)
    ensures multiset(Toggle(selected, option)) == multiset(selected)[option := 0]
  {
    FilterMembership(selected, Other(option));
    FilterIsSubsequence(selected, Other(option));
    RemoveMultiset(selected, option);
  }

  lemma {:induction false} RemoveMultiset(s: seq<string>, option: string)
    ensures multiset(Filter(s, Other(option))) == multiset(s)[option := 0]
  {
    if |s| > 0 {
      RemoveMultiset(s[1..], option);
      assert s == [s[0]] + s[1..];
    }
  }

  /** Toggling changes whether `option` is selected and nothing else. */
  lemma ToggleMembership(selected: seq<string>, option: string)
    ensures forall x :: x in Toggle(selected, option) <==> if x == option then option !in selected else x in selected
  {
    FilterMembership(selected, Other(option));
  }

  /** Toggling an unselected option twice gives back the selection. */
  lemma ToggleTwice(selected: seq<string>, option: string)
    requires option !in selected
    ensures Toggle(Toggle(selected, option), option) == selected
  {
    var s := selected + [option];
    assert option in s;
    FilterAppend(selected, [option], Other(option));
    FilterAllPass(selected, Other(option));
    assert Filter([option], Other(option)) == [];
  }

  /** A selection without repeated labels keeps none after a toggle. */
  lemma ToggleNoDuplicates(selected: seq<string>, option: string)
    requires NoDuplicates(selected)
    ensures NoDuplicates(Toggle(selected, option))
  {
    if option in selected {
      FilterNoDuplicates(selected, Other(option));
    } else {
      var r := selected + [option];
      forall i, j | 0 <= i < j < |r| ensures r[i] != r[j] {
        if j == |selected| {
          assert r[i] == selected[i];
        }
      }
    }
  }

  /** Select-all alternates: from a selection of other length it selects every
      option, which ticks "Todas" and labels the header `Todas as Cidades` when
      there are options, and the next select-all clears. */
  lemma SelectAllAlternates(selected: seq<string>, options: seq<string>, placeholder: string)
    requires |selected| != |options|
    ensures SelectAll(selected, options) == options
    ensures forall o :: o in options ==> OptionChecked(SelectAll(selected, options), o)
    ensures |options| > 0 ==> AllChecked(SelectAll(selected, options), options)
    ensures |options| > 0 ==> HeaderLabel(SelectAll(selected, options), options, placeholder) == "Todas as Cidades"
    ensures SelectAll(SelectAll(selected, options), options) == []
  {
  }

  /** Only lengths are compared: a selection as long as the options counts as
      all of them even when it misses one, so select-all clears it. */
  lemma LengthOnlyComparison()
    ensures var selected, options := ["SINOP", "SINOP"], ["SINOP", "SORRISO"];
      && !OptionChecked(selected, "SORRISO")
      && AllChecked(selected, options)
      && HeaderLabel(selected, options, "Selecione...") == "Todas as Cidades"
      && SelectAll(selected, options) == []
  {
    var selected := ["SINOP", "SINOP"];
    assert "SORRISO" !in selected by {
      assert selected[0] != "SORRISO" && selected[1] != "SORRISO";
    }
  }

  /** The header shows the placeholder for an empty selection, `Todas as
      Cidades` for a full-length one and the count otherwise. */
  lemma HeaderLabelSpec(selected: seq<string>, options: seq<string>, placeholder: string)
    ensures |selected| == 0 ==> HeaderLabel(selected, options, placeholder) == placeholder
    ensures |selected| > 0 && |selected| == |options| ==> HeaderLabel(selected, options, placeholder) == "Todas as Cidades"
    ensures |selected| > 0 && |selected| != |options| ==>
      HeaderLabel(selected, options, placeholder) == NatToString(|selected|) + " selecionada(s)"
      && ParseInt(NatToString(|selected|)) == Some(|selected|)
    ensures AllChecked(selected, options) ==> HeaderLabel(selected, options, placeholder) == "Todas as Cidades"
  {
    ParseIntIntToString(|selected|);
  }
}
