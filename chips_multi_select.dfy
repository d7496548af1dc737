/** The chip multi-select: pressing a chip toggles its value in the selection. */
module ChipsMultiSelect {
  import opened Js
  import opened Survey

  /** `toggleChip`: drop every copy of a selected value, append an unselected one. */
  function Toggle(values: seq<string>, x: string): (r: seq<string>)
    ensures x in values ==> r == Without(values, x)
    ensures x !in values ==> r == values + [x]
  {
    if x in values then Without(values, x) else values + [x]
  }

  /** The chip is highlighted when its value is selected. */
  predicate IsActive(optionValue: string, values: seq<string>)
  {
    optionValue in values
  }

  /** Pressing a chip flips its highlight. */
  lemma ToggleFlipsActive(values: seq<string>, x: string)
    ensures IsActive(x, Toggle(values, x)) == !IsActive(x, values)
  {
    if x !in values {
      assert Toggle(values, x)[|values|] == x;
    }
  }

  /** Pressing an unselected chip twice gives the original selection back. */
  lemma ToggleTwice(values: seq<string>, x: string)
    requires x !in values
    ensures Toggle(Toggle(values, x), x) == values
  {
    assert Toggle(values, x)[|values|] == x;
    WithoutConcat(values, [x], x);
    WithoutAbsent(values, x);
    assert Without([x], x) == [];
  }

  /** A toggle touches no other value: apart from `x`, the selection is the same list in the same order. */
  lemma ToggleKeepsOthers(values: seq<string>, x: string)
    ensures Without(Toggle(values, x), x) == Without(values, x)
  {
    if x in values {
      WithoutIdempotent(values, x);
    } else {
      WithoutConcat(values, [x], x);
      assert Without([x], x) == [];
    }
  }
}
