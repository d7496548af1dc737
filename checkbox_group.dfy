/**
 * The checkbox group: a multi-select whose "not a member" option excludes
 * every other choice, both when a box is ticked and in which boxes are
 * disabled.
 */
module CheckboxGroup {
  import opened Js
  import opened Survey

  const NOT_A_MEMBER := "NOT_A_MEMBER"

  /** The selection never holds "not a member" beside anything else. */
  predicate Exclusive(values: seq<string>)
  {
    NOT_A_MEMBER in values ==> forall i :: 0 <= i < |values| ==> values[i] == NOT_A_MEMBER
  }

  /**
   * `handleCheckboxChange`: the list handed to `onChange` when the box for
   * `optionValue` is ticked (`checked`) or cleared.
   */
  function HandleCheckboxChange(values: seq<string>, optionValue: string, checked: bool): (r: seq<string>)
    ensures optionValue == NOT_A_MEMBER && checked ==> r == [NOT_A_MEMBER]
    ensures optionValue != NOT_A_MEMBER && checked ==>
      |r| > 0 && r[|r| - 1] == optionValue && r[..|r| - 1] == Without(values, NOT_A_MEMBER)
    ensures !checked ==> r == Without(values, optionValue)
  {
    if optionValue == NOT_A_MEMBER then
      if checked then [NOT_A_MEMBER] else Without(values, optionValue)
    else
      if checked then
        var newValues := Without(values, NOT_A_MEMBER);
        assert (newValues + [optionValue])[..|newValues|] == newValues;
        newValues + [optionValue]
      else Without(values, optionValue)
  }

  /** Ticking any box leaves an exclusive selection, whatever came before. */
  lemma CheckingIsExclusive(values: seq<string>, optionValue: string)
    ensures Exclusive(HandleCheckboxChange(values, optionValue, true))
  {
    var r := HandleCheckboxChange(values, optionValue, true);
    if optionValue != NOT_A_MEMBER {
      var w := Without(values, NOT_A_MEMBER);
      assert r == w + [optionValue];
      assert NOT_A_MEMBER !in w;
    }
  }

  /** Clearing a box keeps an exclusive selection exclusive. */
  lemma UncheckingKeepsExclusive(values: seq<string>, optionValue: string)
    requires Exclusive(values)
    ensures Exclusive(HandleCheckboxChange(values, optionValue, false))
  {
    var r := HandleCheckboxChange(values, optionValue, false);
    if NOT_A_MEMBER in r {
      forall i | 0 <= i < |r| ensures r[i] == NOT_A_MEMBER {
        assert r[i] in values;
      }
    }
  }

  /**
   * The disabled rule: "not a member" is disabled while anything else is
   * selected, every other box while "not a member" is.
   */
  predicate IsDisabled(optionValue: string, values: seq<string>)
  {
    if optionValue == NOT_A_MEMBER then
      exists i :: 0 <= i < |values| && values[i] != NOT_A_MEMBER && values[i] != optionValue
    else
      NOT_A_MEMBER in values
  }

  /**
   * Through enabled boxes, ticking never throws away an earlier choice:
   * everything selected before is still selected, and the ticked value too.
   */
  lemma EnabledCheckKeepsSelection(values: seq<string>, optionValue: string)
    requires !IsDisabled(optionValue, values)
    ensures var r := HandleCheckboxChange(values, optionValue, true);
      optionValue in r && forall i :: 0 <= i < |values| ==> values[i] in r
  {
    var r := HandleCheckboxChange(values, optionValue, true);
    if optionValue != NOT_A_MEMBER {
      WithoutAbsent(values, NOT_A_MEMBER);
      assert r == values + [optionValue];
    } else {
      forall i | 0 <= i < |values| ensures values[i] in r {
        assert values[i] == NOT_A_MEMBER;
      }
    }
  }

  /** A box is shown ticked when its value is selected. */
  predicate IsChecked(optionValue: string, values: seq<string>)
  {
    optionValue in values
  }

  /** Ticking a box shows it ticked; clearing it shows it cleared. */
  lemma ChangeShowsOnBox(values: seq<string>, optionValue: string, checked: bool)
    ensures IsChecked(optionValue, HandleCheckboxChange(values, optionValue, checked)) == checked
  {
    var r := HandleCheckboxChange(values, optionValue, checked);
    if checked && optionValue != NOT_A_MEMBER {
      assert r[|r| - 1] == optionValue;
    }
  }
}
