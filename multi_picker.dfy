/**
  The picker component (Sources/MultiPicker/MultiPicker.swift).

  A picker holds its title, the source values, a binding to the caller's
  selection set and a label builder. Its body is one option per source value,
  in source order, handed to the active style. An option's toggle inserts its
  value into the bound set, or removes it if present.

  `SelectionValue`'s concrete type, which Swift supplies as a generic
  argument, is the `selectionValueType` tag the identities are built with.
*/
module Picker {
  import opened Identity
  import opened PickerStyle

  /** `Binding<Set<SelectionValue>>`: storage the caller owns and the picker writes through. */
  class Binding<V(==)> {
    var wrappedValue: set<V>

    constructor (initial: set<V>)
      ensures wrappedValue == initial
    {
      wrappedValue := initial;
    }
  }

  /** The selection after toggling `value`: removed if present, inserted otherwise. */
  function Toggled<V>(selection: set<V>, value: V): set<V> {
    if value in selection then selection - {value} else selection + {value}
  }

  // ---------------------------------------------------------------------------
  // Properties of toggling
  // ---------------------------------------------------------------------------

  /** After a toggle, the value is selected exactly when it was not before. */
  lemma ToggleFlipsMembership<V>(selection: set<V>, value: V)
    ensures value in Toggled(selection, value) <==> value !in selection
  {
  }

  /** A toggle changes the membership of no other value. */
  lemma ToggleLeavesOthers<V>(selection: set<V>, value: V, other: V)
    requires other != value
    ensures other in Toggled(selection, value) <==> other in selection
  {
  }

  /** Toggling the same value twice restores the selection. */
  lemma ToggleTwiceRestores<V>(selection: set<V>, value: V)
    ensures Toggled(Toggled(selection, value), value) == selection
  {
  }

  /** A toggle is the symmetric difference with `{value}`. */
  lemma ToggleIsSymmetricDifference<V>(selection: set<V>, value: V)
    ensures Toggled(selection, value) == (selection - {value}) + ({value} - selection)
  {
  }

  // ---------------------------------------------------------------------------
  // Building the options
  // ---------------------------------------------------------------------------

  /** The option `body` builds for `option`, given the selection at build time. */
  function MakeOption<V(==)>(valueType: TypeTag, itemLabel: V -> View, selection: set<V>, option: V): Option<V, set<V>> {
    Option(
      Wrap(valueType, option),
      () => AnyView(itemLabel(option)),
      option in selection,
      (current: set<V>) => Toggled(current, option))
  }

  /**
    `options.map { ... }` in `body`: one option per source, in order, whose
    identity wraps that source, whose flag is its membership at build time,
    whose toggle toggles that source in whatever the selection then is, and
    whose label is the source's label.
  */
  function BuildOptions<V(==)>(valueType: TypeTag, itemLabel: V -> View, sources: seq<V>, selection: set<V>)
    : (r: seq<Option<V, set<V>>>)
    ensures |r| == |sources|
    ensures forall i :: 0 <= i < |sources| ==>
      && r[i].id == Wrap(valueType, sources[i])
      && (r[i].isSelected <==> sources[i] in selection)
      && r[i].Label() == AnyView(itemLabel(sources[i]))
  {
    seq(|sources|, i requires 0 <= i < |sources| => MakeOption(valueType, itemLabel, selection, sources[i]))
  }

  /** Option `i`'s toggle toggles source `i` in the selection current when it runs, whatever it was at build time. */
  lemma BuiltToggleTogglesSource<V>(valueType: TypeTag, itemLabel: V -> View, sources: seq<V>, selection: set<V>, i: nat, current: set<V>)
    requires i < |sources|
    ensures BuildOptions(valueType, itemLabel, sources, selection)[i].Toggle(current) == Toggled(current, sources[i])
  {
  }

  /** Sources that no two positions consider equal give identities no two options consider equal. */
  lemma DistinctSourcesGiveDistinctIds<V>(
    eq: ValueEquality<V>, valueType: TypeTag, itemLabel: V -> View, sources: seq<V>, selection: set<V>)
    requires forall i, j :: 0 <= i < |sources| && 0 <= j < |sources| && i != j ==> !eq(valueType, sources[i], sources[j])
    ensures var r := BuildOptions(valueType, itemLabel, sources, selection);
      forall i, j :: 0 <= i < |r| && 0 <= j < |r| && i != j ==> !r[i].id.Equals(eq, r[j].id)
  {
    var r := BuildOptions(valueType, itemLabel, sources, selection);
    forall i, j | 0 <= i < |r| && 0 <= j < |r| && i != j
      ensures !r[i].id.Equals(eq, r[j].id)
    {
      EqualsIff(eq, valueType, sources[i], valueType, sources[j]);
    }
  }

  /**
    With Dafny's equality as the values' `==` (the equality the selection set
    uses), two options' ids are equal exactly when their sources are.
  */
  lemma IdsEqualExactlyWhenSourcesEqual<V>(valueType: TypeTag, itemLabel: V -> View, sources: seq<V>, selection: set<V>)
    ensures var r := BuildOptions(valueType, itemLabel, sources, selection);
      forall i, j :: 0 <= i < |r| && 0 <= j < |r| ==> (r[i].id.Equals(SameValue, r[j].id) <==> sources[i] == sources[j])
  {
  }

  /** Nothing de-duplicates the sources: a repeated source yields two options with one identity. */
  lemma DuplicateSourcesShareId<V>(valueType: TypeTag, itemLabel: V -> View, sources: seq<V>, selection: set<V>, i: nat, j: nat)
    requires i < |sources| && j < |sources| && sources[i] == sources[j]
    ensures var r := BuildOptions(valueType, itemLabel, sources, selection);
      r[i].id == r[j].id && r[i].isSelected == r[j].isSelected
  {
  }

  /**
    One round of the render loop: run option `k`'s toggle on the selection,
    then rebuild. Option `k` flips its flag, and every option for a different
    value keeps its flag.
  */
  lemma RebuildAfterToggle<V>(valueType: TypeTag, itemLabel: V -> View, sources: seq<V>, selection: set<V>, k: nat)
    requires k < |sources|
    ensures
      var before := BuildOptions(valueType, itemLabel, sources, selection);
      var after := BuildOptions(valueType, itemLabel, sources, before[k].Toggle(selection));
      && |after| == |before| == |sources|
      && after[k].isSelected == !before[k].isSelected
      && forall j :: 0 <= j < |sources| && sources[j] != sources[k] ==> after[j].isSelected == before[j].isSelected
  {
    var before := BuildOptions(valueType, itemLabel, sources, selection);
    BuiltToggleTogglesSource(valueType, itemLabel, sources, selection, k, selection);
    ToggleFlipsMembership(selection, sources[k]);
    forall j | 0 <= j < |sources| && sources[j] != sources[k]
      ensures sources[j] in Toggled(selection, sources[k]) <==> sources[j] in selection
    {
      ToggleLeavesOthers(selection, sources[k], sources[j]);
    }
  }

  // ---------------------------------------------------------------------------
  // The component
  // ---------------------------------------------------------------------------

  /**
    `MultiPicker`. Each pair of Swift initialisers that differ only in taking
    the title as a `LocalizedStringKey` or a `String` is one constructor here,
    taking `Text.Localized(key)` or `Text.Verbatim(string)`.
  */
  class MultiPicker<V(==)> {
    const title: Text
    const options: seq<V>
    const selection: Binding<V>
    const itemLabel: V -> View
    const selectionValueType: TypeTag

    /** The `@ViewBuilder itemLabel:` initialisers. */
    constructor (title: Text, sources: seq<V>, selection: Binding<V>, selectionValueType: TypeTag, itemLabel: V -> View)
      ensures this.title == title && options == sources && this.selection == selection
      ensures this.selectionValueType == selectionValueType
      ensures forall v :: this.itemLabel(v) == itemLabel(v)
    {
      this.title := title;
      this.options := sources;
      this.selection := selection;
      this.selectionValueType := selectionValueType;
      this.itemLabel := itemLabel;
    }

    /** The `labelKeyPath:` initialisers: the label is the text of the value's string field. */
    constructor LabelKeyPath(title: Text, sources: seq<V>, selection: Binding<V>, selectionValueType: TypeTag, labelKeyPath: V -> string)
      ensures this.title == title && options == sources && this.selection == selection
      ensures this.selectionValueType == selectionValueType
      ensures forall v :: itemLabel(v) == TextView(Verbatim(labelKeyPath(v)))
    {
      this.title := title;
      this.options := sources;
      this.selection := selection;
      this.selectionValueType := selectionValueType;
      this.itemLabel := (v: V) => TextView(Verbatim(labelKeyPath(v)));
    }

    /** The initialisers for `CustomStringConvertible` values: the label is the value's `description`. */
    constructor Describing(title: Text, sources: seq<V>, selection: Binding<V>, selectionValueType: TypeTag, description: V -> string)
      ensures this.title == title && options == sources && this.selection == selection
      ensures this.selectionValueType == selectionValueType
      ensures forall v :: itemLabel(v) == TextView(Verbatim(description(v)))
    {
      this.title := title;
      this.options := sources;
      this.selection := selection;
      this.selectionValueType := selectionValueType;
      this.itemLabel := (v: V) => TextView(Verbatim(description(v)));
    }

    /** `toggleSelection(_:)`: removes `option` from the bound set if present, inserts it otherwise. */
    method ToggleSelection(option: V)
      modifies selection
      ensures selection.wrappedValue == Toggled(old(selection.wrappedValue), option)
    {
      if option in selection.wrappedValue {
        selection.wrappedValue := selection.wrappedValue - {option};
      } else {
        selection.wrappedValue := selection.wrappedValue + {option};
      }
    }

    /**
      `body`: the active style's body for a configuration with this title and
      one option per source, as of the current selection.
    */
    function Body(environment: EnvironmentValues): (b: ErasedBody<V, set<V>>)
      reads selection
      ensures b.body.style == environment.MultiPickerStyle().style
      ensures b.body.configuration.title == title
      ensures b.body.configuration.options == BuildOptions(selectionValueType, itemLabel, options, selection.wrappedValue)
    {
      environment.MultiPickerStyle().MakeBody(
        Configuration(title, BuildOptions(selectionValueType, itemLabel, options, selection.wrappedValue)))
    }

    /**
      A style calling `toggle()` on option `i` of the body: the stored action
      runs once on the bound selection, which toggles exactly source `i`.
    */
    method ToggleOption(environment: EnvironmentValues, i: nat)
      requires i < |options|
      modifies selection
      ensures selection.wrappedValue == Toggled(old(selection.wrappedValue), options[i])
    {
      var option := Body(environment).body.configuration.options[i];
      BuiltToggleTogglesSource(selectionValueType, itemLabel, options, selection.wrappedValue, i, selection.wrappedValue);
      selection.wrappedValue := option.Toggle(selection.wrappedValue);
    }
  }
}
