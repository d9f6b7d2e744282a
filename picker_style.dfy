/**
  The style contract, the configuration handed to a style, and the ambient
  "active style" (Sources/MultiPicker/MultiPickerStyle.swift).

  Rendering is not modelled: a style's body is the symbolic value
  `StyledBody(style, configuration)`, which records what the style was given.
  A toggle action, which in Swift mutates state the option's creator closed
  over, is a transformer of that state (type parameter `S`).
*/
module PickerStyle {
  import Wrappers
  import opened Identity

  /** SwiftUI `Text`, from a localisation key or verbatim. */
  datatype Text = Localized(key: string) | Verbatim(content: string)

  /** A label view: text, or a view built by the caller that is not inspected. */
  datatype View = TextView(text: Text) | CustomView(name: string)

  /** `AnyView`: a type-erased label. */
  datatype AnyView = AnyView(view: View)

  /**
    `MultiPickerStyleConfiguration.Option`: identity, lazily built label,
    selection flag and toggle action, fixed at construction.
  */
  datatype Option<U, !S> = Option(
    id: AnyHashableSendable<U>,
    labelProducer: () -> AnyView,
    isSelected: bool,
    toggleAction: S -> S)
  {
    /** `label`: runs the stored producer. */
    function Label(): AnyView {
      labelProducer()
    }

    /** `toggle()`: the new state after running the stored action once on `state`. */
    function Toggle(state: S): S {
      toggleAction(state)
    }
  }

  /** `MultiPickerStyleConfiguration`: the title and the options, in order. */
  datatype Configuration<U, !S> = Configuration(title: Text, options: seq<Option<U, S>>)

  /** The four built-in styles and any style a client writes. */
  datatype StyleKind = Checkbox | Chips | InlineList | Menu | Custom(name: string)

  /** What a style makes of a configuration. */
  datatype StyledBody<U, !S> = StyledBody(style: StyleKind, configuration: Configuration<U, S>)

  /** The `AnyView(VStack { ... })` that `AnyMultiPickerStyle` wraps a style's body in. */
  datatype ErasedBody<U, !S> = ErasedVStack(body: StyledBody<U, S>)

  /** `AnyMultiPickerStyle`: a style stored without its concrete type. */
  datatype AnyMultiPickerStyle = AnyMultiPickerStyle(style: StyleKind) {

    /** `makeBody(configuration:)` hands the configuration, unchanged, to the wrapped style. */
    function MakeBody<U, S>(configuration: Configuration<U, S>): (r: ErasedBody<U, S>)
      ensures r.body.style == style
      ensures r.body.configuration == configuration
    {
      ErasedVStack(StyledBody(style, configuration))
    }
  }

  /** `MultiPickerStyleKey.defaultValue`. */
  const DefaultStyle: AnyMultiPickerStyle := AnyMultiPickerStyle(Menu)

  /** The part of `EnvironmentValues` this package uses: its own style entry, if set. */
  datatype EnvironmentValues = EnvironmentValues(styleEntry: Wrappers.Option<AnyMultiPickerStyle>) {

    /** The `multiPickerStyle` getter: the entry, or the default. */
    function MultiPickerStyle(): (s: AnyMultiPickerStyle)
      ensures styleEntry.None? ==> s == AnyMultiPickerStyle(Menu)
      ensures styleEntry.Some? ==> s == styleEntry.value
    {
      styleEntry.GetOr(DefaultStyle)
    }

    /** The `multiPickerStyle` setter. */
    function SetMultiPickerStyle(style: AnyMultiPickerStyle): (e: EnvironmentValues)
      ensures e.MultiPickerStyle() == style
    {
      this.(styleEntry := Wrappers.Some(style))
    }
  }

  /** Environment values in which no ancestor has set a style. */
  const EmptyEnvironment: EnvironmentValues := EnvironmentValues(Wrappers.None)

  /** A view modifier on an ancestor: `.multiPickerStyle(s)`, or any other one. */
  datatype Modifier = StyleModifier(style: StyleKind) | OtherModifier(name: string)

  /** `.multiPickerStyle(s)` applied to the environment it receives. */
  function ApplyModifier(env: EnvironmentValues, m: Modifier): (e: EnvironmentValues)
    ensures m.StyleModifier? ==> e.MultiPickerStyle() == AnyMultiPickerStyle(m.style)
    ensures m.OtherModifier? ==> e == env
  {
    match m
    case StyleModifier(s) => env.SetMultiPickerStyle(AnyMultiPickerStyle(s))
    case OtherModifier(_) => env
  }

  /** The environment a view sees below `ancestors`, outermost first. */
  function EnvironmentBelow(root: EnvironmentValues, ancestors: seq<Modifier>): EnvironmentValues
    decreases |ancestors|
  {
    if ancestors == [] then root
    else ApplyModifier(EnvironmentBelow(root, ancestors[..|ancestors| - 1]), ancestors[|ancestors| - 1])
  }

  /** With no style modifier above it, a picker uses the menu style. */
  lemma {:induction false} DefaultIsMenu(ancestors: seq<Modifier>)
    requires forall k :: 0 <= k < |ancestors| ==> ancestors[k].OtherModifier?
    ensures EnvironmentBelow(EmptyEnvironment, ancestors).MultiPickerStyle() == AnyMultiPickerStyle(Menu)
    decreases |ancestors|
  {
    if ancestors != [] {
      DefaultIsMenu(ancestors[..|ancestors| - 1]);
    }
  }

  /**
    The closest `.multiPickerStyle(s)` above a picker decides its style; any
    style set further out is replaced for that subtree.
  */
  lemma {:induction false} ClosestStyleWins(root: EnvironmentValues, ancestors: seq<Modifier>, k: nat)
    requires k < |ancestors| && ancestors[k].StyleModifier?
    requires forall j :: k < j < |ancestors| ==> ancestors[j].OtherModifier?
    ensures EnvironmentBelow(root, ancestors).MultiPickerStyle() == AnyMultiPickerStyle(ancestors[k].style)
    decreases |ancestors|
  {
    if k < |ancestors| - 1 {
      ClosestStyleWins(root, ancestors[..|ancestors| - 1], k);
    }
  }
}
