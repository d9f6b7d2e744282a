/**
  The scenarios of Tests/MultiPickerTests/MultiPickerTests.swift, stated over
  the model: a three-case enum, its options, toggling, and its identities.
*/
module Scenarios {
  import opened Identity
  import opened PickerStyle
  import opened Picker

  datatype Fruit = Apple | Banana | Cherry

  const FruitType: TypeTag := "Fruit"

  /** `Fruit.allCases`. */
  const AllFruits: seq<Fruit> := [Apple, Banana, Cherry]

  /** `description`: the capitalised raw value. */
  function Description(f: Fruit): string {
    match f
    case Apple => "Apple"
    case Banana => "Banana"
    case Cherry => "Cherry"
  }

  function FruitLabel(f: Fruit): View {
    TextView(Verbatim(Description(f)))
  }

  /** "Options reflect selection state": with apple and cherry selected, flags read true, false, true. */
  lemma OptionsReflectSelection()
    ensures var options := BuildOptions(FruitType, FruitLabel, AllFruits, {Apple, Cherry});
      && |options| == 3
      && options[0].isSelected
      && !options[1].isSelected
      && options[2].isSelected
  {
  }

  /** "Toggle closure mutates selection": {apple} toggles banana to {apple, banana}, then apple to {banana}. */
  lemma ToggleMutatesSelection()
    ensures Toggled({Apple}, Banana) == {Apple, Banana}
    ensures Toggled(Toggled({Apple}, Banana), Apple) == {Banana}
  {
    assert Toggled({Apple}, Banana) == {Apple, Banana};
  }

  /** The same scenario run through a picker bound to the caller's set. */
  method ToggleThroughPicker() returns (afterBanana: set<Fruit>, afterApple: set<Fruit>)
    ensures afterBanana == {Apple, Banana}
    ensures afterApple == {Banana}
  {
    var selected := new Binding({Apple});
    var picker := new MultiPicker.Describing(Verbatim("Fruit"), AllFruits, selected, FruitType, Description);
    picker.ToggleSelection(Banana);
    afterBanana := selected.wrappedValue;
    picker.ToggleSelection(Apple);
    afterApple := selected.wrappedValue;
  }

  /** "Option identifiers are unique": the three cases give a set of three identities. */
  lemma OptionIdentifiersUnique()
    ensures var options := BuildOptions(FruitType, FruitLabel, AllFruits, {});
      |set i | 0 <= i < |options| :: options[i].id| == |AllFruits|
  {
    var options := BuildOptions(FruitType, FruitLabel, AllFruits, {});
    var ids := set i | 0 <= i < |options| :: options[i].id;
    assert ids == {Wrap(FruitType, Apple), Wrap(FruitType, Banana), Wrap(FruitType, Cherry)} by {
      assert options[0].id == Wrap(FruitType, Apple);
      assert options[1].id == Wrap(FruitType, Banana);
      assert options[2].id == Wrap(FruitType, Cherry);
    }
  }

  /** "Equal values produce equal identifiers": apple equals apple and differs from banana. */
  lemma IdentifierEquality()
    ensures Wrap(FruitType, Apple).Equals(SameValue, Wrap(FruitType, Apple))
    ensures !Wrap(FruitType, Apple).Equals(SameValue, Wrap(FruitType, Banana))
  {
  }
}
