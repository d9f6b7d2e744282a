/**
  The type-erased identity of an option (Sources/MultiPicker/AnyHashableSendable.swift).

  A wrapper keeps the wrapped value together with its concrete type. Swift
  gives each concrete type its own `==` and `hash(into:)`; here they are the
  parameters `eq` and `hash`, indexed by the type. Every wrapped value is of
  one universe type `U`.
*/
module Identity {

  /** The name of a concrete Swift type (the generic argument `T` of the box). */
  type TypeTag = string

  /** Each concrete type's own `==`. */
  type ValueEquality<!U> = (TypeTag, U, U) -> bool

  /** Each concrete type's own `hash(into:)`, as the hash value it produces. */
  type ValueHash<!U> = (TypeTag, U) -> int

  /** `ConcreteHashableBox<T>`: the value and the type `T` it was boxed at. */
  datatype ConcreteHashableBox<U> = ConcreteHashableBox(itemType: TypeTag, value: U) {

    /** `isEqual(to:)`: false unless `other` is boxed at the same type, then that type's `==`. */
    predicate IsEqual(eq: ValueEquality<U>, other: ConcreteHashableBox<U>): (r: bool)
      ensures other.itemType != itemType ==> !r
      ensures other.itemType == itemType ==> (r <==> eq(itemType, value, other.value))
    {
      if other.itemType != itemType then false
      else eq(itemType, value, other.value)
    }

    /** `hash(into:)` feeds only the value, with its own type's hash. */
    function Hash(hash: ValueHash<U>): (h: int)
      ensures h == hash(itemType, value)
    {
      hash(itemType, value)
    }
  }

  /** `AnyHashableSendable`: a box of any hashable type. */
  datatype AnyHashableSendable<U> = AnyHashableSendable(box: ConcreteHashableBox<U>) {

    /** `==` delegates to the left box: the types must match, then that type's `==` decides. */
    predicate Equals(eq: ValueEquality<U>, other: AnyHashableSendable<U>): (r: bool)
      ensures r <==> box.itemType == other.box.itemType && eq(box.itemType, box.value, other.box.value)
    {
      box.IsEqual(eq, other.box)
    }

    /** `hash(into:)` delegates to the box: the wrapped value's own hash. */
    function Hash(hash: ValueHash<U>): (h: int)
      ensures h == hash(box.itemType, box.value)
    {
      box.Hash(hash)
    }
  }

  /** `AnyHashableSendable.init(_:)` with the item's static type; it cannot fail. */
  function Wrap<U>(itemType: TypeTag, item: U): (w: AnyHashableSendable<U>)
    ensures w.box.itemType == itemType && w.box.value == item
  {
    AnyHashableSendable(ConcreteHashableBox(itemType, item))
  }

  /** Swift's contract for `==` of every `Hashable` type: an equivalence, type by type. */
  ghost predicate LawfulEquality<U(!new)>(eq: ValueEquality<U>) {
    && (forall t, a :: eq(t, a, a))
    && (forall t, a, b :: eq(t, a, b) ==> eq(t, b, a))
    && (forall t, a, b, c :: eq(t, a, b) && eq(t, b, c) ==> eq(t, a, c))
  }

  /** Swift's contract for `hash(into:)`: values equal under `==` hash alike. */
  ghost predicate HashRespectsEquality<U(!new)>(eq: ValueEquality<U>, hash: ValueHash<U>) {
    forall t, a, b :: eq(t, a, b) ==> hash(t, a) == hash(t, b)
  }

  /** The wrapped identity of `item`: its type, then its value. */
  lemma WrapKeepsTypeAndValue<U>(t1: TypeTag, a: U, t2: TypeTag, b: U)
    ensures Wrap(t1, a) == Wrap(t2, b) <==> t1 == t2 && a == b
  {
  }

  /** Two wrappers are equal exactly when the types match and that type's `==` holds. */
  lemma EqualsIff<U>(eq: ValueEquality<U>, t1: TypeTag, a: U, t2: TypeTag, b: U)
    ensures Wrap(t1, a).Equals(eq, Wrap(t2, b)) <==> t1 == t2 && eq(t1, a, b)
  {
  }

  /** Values of different concrete types never give equal wrappers, whatever `==` says. */
  lemma DifferentTypesNeverEqual<U>(eq: ValueEquality<U>, x: AnyHashableSendable<U>, y: AnyHashableSendable<U>)
    requires x.box.itemType != y.box.itemType
    ensures !x.Equals(eq, y) && !y.Equals(eq, x)
  {
  }

  /** Given a lawful `==` for every type, wrapper equality is reflexive, symmetric and transitive. */
  lemma EqualsIsEquivalence<U(!new)>(eq: ValueEquality<U>)
    requires LawfulEquality(eq)
    ensures forall x: AnyHashableSendable<U> :: x.Equals(eq, x)
    ensures forall x: AnyHashableSendable<U>, y: AnyHashableSendable<U> :: x.Equals(eq, y) ==> y.Equals(eq, x)
    ensures forall x: AnyHashableSendable<U>, y: AnyHashableSendable<U>, z: AnyHashableSendable<U> ::
      x.Equals(eq, y) && y.Equals(eq, z) ==> x.Equals(eq, z)
  {
    forall x: AnyHashableSendable<U>, y: AnyHashableSendable<U>, z: AnyHashableSendable<U> |
      x.Equals(eq, y) && y.Equals(eq, z)
      ensures x.Equals(eq, z)
    {
      assert eq(x.box.itemType, x.box.value, y.box.value);
      assert eq(x.box.itemType, y.box.value, z.box.value);
    }
  }

  /** The hash is the wrapped value's own hash, so equal wrappers hash alike. */
  lemma HashConsistentWithEquals<U(!new)>(eq: ValueEquality<U>, hash: ValueHash<U>, x: AnyHashableSendable<U>, y: AnyHashableSendable<U>)
    requires HashRespectsEquality(eq, hash)
    ensures x.Hash(hash) == hash(x.box.itemType, x.box.value)
    ensures x.Equals(eq, y) ==> x.Hash(hash) == y.Hash(hash)
  {
    if x.Equals(eq, y) {
      assert eq(x.box.itemType, x.box.value, y.box.value);
    }
  }

  /** The `==` Swift synthesises for a plain enum: the same case. */
  predicate SameValue<U(==)>(t: TypeTag, a: U, b: U) {
    a == b
  }

  /**
    When every type's `==` is value identity, wrapper equality is identity of
    the wrappers: equal values give equal ids and distinct values distinct ids.
  */
  lemma EqualsIsIdentityForStructuralEquality<U>(x: AnyHashableSendable<U>, y: AnyHashableSendable<U>)
    ensures x.Equals(SameValue, y) <==> x == y
  {
  }
}
