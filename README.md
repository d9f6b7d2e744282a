# MultiPicker, modelled in Dafny

A model of the logic inside the SwiftUI multi-selection picker `MultiPicker`.
It covers four parts:

- **Flow layout** (`FlowLayoutModel`, `flow_layout.dfy`). This is the wrapping-row layout of the chips style. `FlowLayout.Arrange` is the `arrange(in:subviews:)` loop, kept as a loop. It is proved equal to `Arranged`, a fold of one loop iteration (`Place`) over prefixes of the items. Lemmas about `Arranged` then prove the promised properties. `SizeThatFits` and `PlaceSubviews` are the two `Layout` entry points.
- **Identity** (`Identity`, `identity.dfy`). `AnyHashableSendable` boxes a value together with its concrete type. Each type's own `==` and hash are parameters, indexed by a type tag.
- **Style and configuration** (`PickerStyle`, `picker_style.dfy`). This holds the immutable `Option` and `Configuration` records, the type-erased `AnyMultiPickerStyle`, and the environment entry that holds the active style. That entry defaults to the menu style. A path of ancestor modifiers decides which style a picker sees.
- **Picker** (`Picker`, `multi_picker.dfy`). The caller's `@Binding` set is a `Binding` object whose `wrappedValue` the picker reassigns in `ToggleSelection`. Option construction in `body` is the pure function `BuildOptions`. The six initialisers become three constructors.
- **Scenarios** (`Scenarios`, `scenarios.dfy`). These are the four test cases of the package's test suite, stated over the model.

Representation choices:

- `CGFloat` is `real`, so the arithmetic is exact.
- A missing proposed width (`?? .infinity`) is `MaxWidth.Infinity`, which no right edge exceeds.
- Each subview's measured size is an input.
- An option's toggle closure writes to the binding it captured. Here it is a transformer of the selection, `set<V> -> set<V>`. `MultiPicker.ToggleOption` applies it to the bound set.
- Labels are the values `View`/`AnyView`: text, or an uninspected custom view.
- A style's body is the symbolic `StyledBody(style, configuration)`.

Each call to `arrange` takes the subviews' measured sizes as an input. Both `sizeThatFits` and `placeSubviews` call `arrange`, which measures every subview, so the model claims nothing about how often a subview is measured.

## Model

| member | source | states |
|---|---|---|
| FlowLayoutModel.FlowLayout.Arrange | Sources/MultiPicker/Styles/ChipsMultiPickerStyle.swift:23-44 | the placement loop returns exactly the size and positions of the fold `Arranged`, and one position per subview |
| FlowLayoutModel.FlowLayout.SizeThatFits | Sources/MultiPicker/Styles/ChipsMultiPickerStyle.swift:8-11 | the size is the arrangement's size in the proposed width, or with no width limit when none is proposed |
| FlowLayoutModel.FlowLayout.PlaceSubviews | Sources/MultiPicker/Styles/ChipsMultiPickerStyle.swift:13-21 | subview i is placed at the bounds' origin plus position i of the arrangement in the bounds' width, for every subview |
| FlowLayoutModel.ArrangedOnePositionPerItem | Sources/MultiPicker/Styles/ChipsMultiPickerStyle.swift:30-37 | one position per item, in item order: the positions of a prefix of the items are that prefix of the positions |
| FlowLayoutModel.ArrangedEmpty | Sources/MultiPicker/Styles/ChipsMultiPickerStyle.swift:24-43 | no items give size (0, 0) and no positions |
| FlowLayoutModel.FirstItemAtOrigin | Sources/MultiPicker/Styles/ChipsMultiPickerStyle.swift:25-37 | the first item is at (0, 0) whatever the width limit and its size |
| FlowLayoutModel.StartsRowOrFits | Sources/MultiPicker/Styles/ChipsMultiPickerStyle.swift:32-37 | every item starts its row (x = 0) or ends within the limit; an item wider than the limit is still placed |
| FlowLayoutModel.RowAdvance | Sources/MultiPicker/Styles/ChipsMultiPickerStyle.swift:32-39 | item i wraps exactly when the previous right edge plus gap is positive and it would cross the limit; it then sits at x = 0, one row height (tallest item of the previous row) plus gap lower; otherwise at previous x + width + gap on the same y |
| FlowLayoutModel.RowOfFollowsWraps | Sources/MultiPicker/Styles/ChipsMultiPickerStyle.swift:30-37 | the first item opens the first row; item i opens a row of its own exactly when it wraps (previous right edge plus gap positive and crossing the limit), and otherwise joins the row of item i - 1 |
| FlowLayoutModel.RowShape | Sources/MultiPicker/Styles/ChipsMultiPickerStyle.swift:32-38 | the row holding item i starts at an item with x = 0 and all its items up to i share one y |
| FlowLayoutModel.RowsDescend | Sources/MultiPicker/Styles/ChipsMultiPickerStyle.swift:33-35 | y never decreases along the items |
| FlowLayoutModel.BoundingSize | Sources/MultiPicker/Styles/ChipsMultiPickerStyle.swift:38-43 | width is the largest right edge (reached by some item), height is the last row's y plus its tallest item, and every item lies inside the box |
| FlowLayoutModel.CapacityIsRowCapacity | Sources/MultiPicker/Styles/ChipsMultiPickerStyle.swift:32-39 | for any positive width + gap, k = max(1, floor((W + s) / (w + s))) identical items fit in a row of width W and k + 1 do not (or k = 1), so the row capacity always exists |
| FlowLayoutModel.SameSizeItemsFormGrid | Sources/MultiPicker/Styles/ChipsMultiPickerStyle.swift:32-39 | identical items of non-negative size in a finite width W form a grid: with k = max(1, floor((W + s) / (w + s))), item i is `i % k` steps of width + gap across and `i / k` steps of height + gap down, so every row but the last holds exactly k items |
| FlowLayoutModel.UnboundedSingleRow | Sources/MultiPicker/Styles/ChipsMultiPickerStyle.swift:32-39 | with no width limit nothing wraps: every y is 0, items follow one another a gap apart, height is the tallest item |
| Identity.Wrap | Sources/MultiPicker/AnyHashableSendable.swift:22-24 | `init` cannot fail, and the wrapper holds the item's static type and the item itself |
| Identity.ConcreteHashableBox.IsEqual | Sources/MultiPicker/AnyHashableSendable.swift:13-16 | a box of another type is never equal; a box of the same type is equal exactly when that type's `==` holds of the two values |
| Identity.ConcreteHashableBox.Hash | Sources/MultiPicker/AnyHashableSendable.swift:9-11 | the box's hash is the wrapped value's own hash under its type's hash |
| Identity.AnyHashableSendable.Equals | Sources/MultiPicker/AnyHashableSendable.swift:30-32 | two wrappers are equal exactly when their types match and that type's `==` holds of the values |
| Identity.AnyHashableSendable.Hash | Sources/MultiPicker/AnyHashableSendable.swift:26-28 | the wrapper's hash is the wrapped value's own hash, through the box |
| Identity.WrapKeepsTypeAndValue | Sources/MultiPicker/AnyHashableSendable.swift:22-24 | wrapping is total and keeps both the concrete type and the value: two wraps are identical iff type and value are |
| Identity.EqualsIff | Sources/MultiPicker/AnyHashableSendable.swift:13-15 | two wrappers are equal iff their types match and that type's `==` holds of the values |
| Identity.DifferentTypesNeverEqual | Sources/MultiPicker/AnyHashableSendable.swift:14 | wrappers of different concrete types are unequal in both directions, whatever `==` says |
| Identity.EqualsIsEquivalence | Sources/MultiPicker/AnyHashableSendable.swift:30-32 | with a lawful `==` per type, wrapper `==` is reflexive, symmetric and transitive |
| Identity.HashConsistentWithEquals | Sources/MultiPicker/AnyHashableSendable.swift:26-28 | the hash is the wrapped value's own hash, so with a lawful hash equal wrappers hash alike |
| Identity.EqualsIsIdentityForStructuralEquality | Sources/MultiPicker/AnyHashableSendable.swift:13-15 | when `==` is value identity (as for an enum), equal values give equal ids and distinct values distinct ids |
| PickerStyle.AnyMultiPickerStyle.MakeBody | Sources/MultiPicker/MultiPickerStyle.swift:44-53 | the erased style hands the configuration unchanged to the style it wraps |
| PickerStyle.EnvironmentValues.MultiPickerStyle | Sources/MultiPicker/MultiPickerStyle.swift:58-64 | an unset entry reads as the menu style; a set entry reads as itself |
| PickerStyle.EnvironmentValues.SetMultiPickerStyle | Sources/MultiPicker/MultiPickerStyle.swift:65 | after setting, the entry reads as the style set |
| PickerStyle.ApplyModifier | Sources/MultiPicker/MultiPickerStyle.swift:69-72 | `.multiPickerStyle(s)` makes the environment below it read style s; any other modifier leaves the environment unchanged |
| PickerStyle.DefaultIsMenu | Sources/MultiPicker/MultiPickerStyle.swift:58-60 | a picker with no `.multiPickerStyle` above it uses the menu style, whatever other modifiers are above it |
| PickerStyle.ClosestStyleWins | Sources/MultiPicker/MultiPickerStyle.swift:69-72 | the closest `.multiPickerStyle(s)` above a picker decides its style, replacing any set further out |
| Picker.ToggleFlipsMembership | Sources/MultiPicker/MultiPicker.swift:25-31 | after a toggle of v, v is selected iff it was not before |
| Picker.ToggleLeavesOthers | Sources/MultiPicker/MultiPicker.swift:25-31 | a toggle of v changes the membership of no other value |
| Picker.ToggleTwiceRestores | Sources/MultiPicker/MultiPicker.swift:25-31 | toggling v twice restores the selection |
| Picker.ToggleIsSymmetricDifference | Sources/MultiPicker/MultiPicker.swift:25-31 | a toggle of v is the symmetric difference with {v} |
| Picker.MultiPicker.ToggleSelection | Sources/MultiPicker/MultiPicker.swift:25-31 | the bound set becomes the old set with v toggled; nothing else is written |
| Picker.BuildOptions | Sources/MultiPicker/MultiPicker.swift:14-21 | one option per source, in order, with id = wrap(source i), flag = membership of source i at build time, label = the source's label |
| Picker.BuiltToggleTogglesSource | Sources/MultiPicker/MultiPicker.swift:19 | option i's toggle toggles exactly source i in the selection current when it runs |
| Picker.DistinctSourcesGiveDistinctIds | Sources/MultiPicker/MultiPicker.swift:16 | sources no two of which are `==` give pairwise unequal ids |
| Picker.IdsEqualExactlyWhenSourcesEqual | Sources/MultiPicker/MultiPicker.swift:14-16 | with Dafny equality as the values' `==`, the ids of options i and j are equal exactly when sources i and j are |
| Picker.DuplicateSourcesShareId | Sources/MultiPicker/MultiPicker.swift:14-18 | a repeated source yields two options with the same id and flag: nothing de-duplicates |
| Picker.RebuildAfterToggle | Sources/MultiPicker/MultiPicker.swift:18-19 | toggling option k and rebuilding flips option k's flag and keeps every option of another value |
| Picker.MultiPicker.Body | Sources/MultiPicker/MultiPicker.swift:11-23 | the active style receives the picker's title and exactly the options `BuildOptions` gives for the sources and the current selection |
| Picker.MultiPicker.ToggleOption | Sources/MultiPicker/MultiPickerStyle.swift:23 | a style running `toggle()` on option i of the body toggles exactly source i in the bound set |
| Picker.MultiPicker.constructor | Sources/MultiPicker/MultiPicker.swift:37-59 | the item-label initialisers store title, sources, binding and label builder unchanged |
| Picker.MultiPicker.LabelKeyPath | Sources/MultiPicker/MultiPicker.swift:65-87 | the key-path initialisers store the sources unchanged and label each value with the text of its string field |
| Picker.MultiPicker.Describing | Sources/MultiPicker/MultiPicker.swift:93-113 | the description initialisers store the sources unchanged and label each value with the text of its `description` |
| Scenarios.OptionsReflectSelection | Tests/MultiPickerTests/MultiPickerTests.swift:18-31 | with apple and cherry selected, the options' flags are true, false, true |
| Scenarios.ToggleMutatesSelection | Tests/MultiPickerTests/MultiPickerTests.swift:35-50 | from {apple}, toggling banana gives {apple, banana}, then toggling apple gives {banana} |
| Scenarios.ToggleThroughPicker | Tests/MultiPickerTests/MultiPickerTests.swift:35-50 | the same two toggles run through a picker's `ToggleSelection` on a bound set |
| Scenarios.OptionIdentifiersUnique | Tests/MultiPickerTests/MultiPickerTests.swift:54-65 | the options of the three enum cases have three distinct ids |
| Scenarios.IdentifierEquality | Tests/MultiPickerTests/MultiPickerTests.swift:69-75 | wrap(apple) equals wrap(apple) and differs from wrap(banana) |

## Left out

- Rendering. No style's `makeBody` content is modelled: the checkbox, inline-list, menu and chips bodies, with their `Text`, `Toggle`, `Button`, fonts and colours. A style's body is recorded only as the configuration it receives.
- The unused `chipBackground` colour, the `#Preview` blocks and their private types, and `Package.swift` are not modelled, because they hold no logic.
- Floating point. `CGFloat` is an exact `real`, so rounding, NaN and infinite sizes are not modelled. The only infinity modelled is the missing proposed width.
- Measurement. `sizeThatFits(.unspecified)` on each subview is an input sequence of sizes. The proposal's height, the layout cache and the `.unspecified` proposal passed to `place` are not modelled.
- Hashing. `Hasher` is not modelled: a type's `hash(into:)` is the integer it produces.
- Concurrency annotations. `Sendable` and `@MainActor` carry no behaviour and are not modelled.
- Framework plumbing. SwiftUI's `@Binding` and `@Environment` propagation are replaced by a shared `Binding` object and by an explicit path of ancestor modifiers.
- `Option.Label` and `Option.Toggle` carry no contract of their own, because they only run the stored closure. What the closures built by the picker do is stated by `Picker.BuildOptions` and `Picker.BuiltToggleTogglesSource`.
- The identity of a source's concrete type, which Swift supplies as the generic argument, is the explicit tag `selectionValueType`.
- FlowLayoutModel.StartsRowOrFits: proved for non-negative item sizes and a non-negative gap only. With negative values, an item can start a row at a negative x.
- FlowLayoutModel.RowsDescend: proved for a non-negative gap only. A negative gap can move a new row up.
- FlowLayoutModel.BoundingSize: proved for non-negative item sizes and a non-negative gap only. Negative right edges are not bounded below by the box.
- FlowLayoutModel.SameSizeItemsFormGrid: a step count n times a length is written `Offset(n, length)`, which `OffsetIsProduct` equates with the product.
- Selection equality. The bound set, `Toggled` and the selection flag use Dafny's equality on `V` as `SelectionValue`'s `==` and hash. A type whose `==` holds of distinct values (one comparing only an `id` field, say) is not modelled. In Swift, toggling one such value also changes the flag of every source `==` to it; `Picker.RebuildAfterToggle` speaks only of sources that differ under Dafny equality. `Identity` keeps `==` as a parameter, and `Picker.IdsEqualExactlyWhenSourcesEqual` states the picker's ids under the selection's equality.
