/** `Equals(object)` and `GetHashCode()` of the two output records.
    C# compares references, so this module models what `Equals` receives: either
    null or a reference with an identity to an object of some runtime type. */
module Equality {
  import opened Domain

  /** What `obj.GetType()` can return. */
  datatype RuntimeType = NetPositionType | BoxedPositionType | PositionType | OtherType(name: string)

  /** A heap object: one of the three records, or an object of a class that does not
      override `Equals`. Classes with their own `Equals` (string, boxed decimal, ...) are
      not modelled. */
  datatype Object =
    | NetPositionObject(net: NetPosition)
    | BoxedPositionObject(boxed: BoxedPosition)
    | PositionObject(position: Position)
    | OtherObject(className: string)

  /** A C# reference: null, or an object with its identity. */
  datatype Reference = Null | Ref(id: nat, obj: Object)

  /** Each of the three records has a runtime type of its own, distinct from every other class. */
  function GetType(o: Object): (r: RuntimeType)
    ensures r == NetPositionType <==> o.NetPositionObject?
    ensures r == BoxedPositionType <==> o.BoxedPositionObject?
    ensures r == PositionType <==> o.PositionObject?
    ensures r.OtherType? <==> o.OtherObject?
  {
    match o
    case NetPositionObject(_) => NetPositionType
    case BoxedPositionObject(_) => BoxedPositionType
    case PositionObject(_) => PositionType
    case OtherObject(name) => OtherType(name)
  }

  /** Two references to the same identity reach the same object. */
  predicate SameHeap(a: Reference, b: Reference) {
    a.Ref? && b.Ref? && a.id == b.id ==> a.obj == b.obj
  }

  /** `NetPosition.Equals`: false for null, true for the same reference, false
      for another runtime type, otherwise the three fields are compared. */
  function NetPositionEquals(self: Reference, obj: Reference): (r: bool)
    requires self.Ref? && self.obj.NetPositionObject?
    ensures r <==> obj.Ref? && (obj.id == self.id || obj.obj == self.obj)
  {
    if obj.Null? then false
    else if obj.id == self.id then true
    else if GetType(obj.obj) != GetType(self.obj) then false
    else
      var me, other := self.obj.net, obj.obj.net;
      me.trader == other.trader && me.symbol == other.symbol && me.qty == other.qty
  }

  /** `BoxedPosition.Equals`, the same shape as `NetPosition.Equals`. */
  function BoxedPositionEquals(self: Reference, obj: Reference): (r: bool)
    requires self.Ref? && self.obj.BoxedPositionObject?
    ensures r <==> obj.Ref? && (obj.id == self.id || obj.obj == self.obj)
  {
    if obj.Null? then false
    else if obj.id == self.id then true
    else if GetType(obj.obj) != GetType(self.obj) then false
    else
      var me, other := self.obj.boxed, obj.obj.boxed;
      me.trader == other.trader && me.symbol == other.symbol && me.qty == other.qty
  }

  /** The virtual call `self.Equals(obj)`: the two records override it; Position and
      the other modelled classes keep the reference equality of `object.Equals`. */
  function Equals(self: Reference, obj: Reference): (r: bool)
    requires self.Ref?
    ensures r <==>
      && obj.Ref?
      && (obj.id == self.id || ((self.obj.NetPositionObject? || self.obj.BoxedPositionObject?) && obj.obj == self.obj))
  {
    match self.obj
    case NetPositionObject(_) => NetPositionEquals(self, obj)
    case BoxedPositionObject(_) => BoxedPositionEquals(self, obj)
    case _ => obj.Ref? && obj.id == self.id
  }

  /** `GetHashCode` hashes the anonymous object of the three fields; that library
      hash is the parameter `fieldHash`. */
  function NetPositionHashCode(n: NetPosition, fieldHash: (string, string, Decimal) -> int): int {
    fieldHash(n.trader, n.symbol, n.qty)
  }

  function BoxedPositionHashCode(b: BoxedPosition, fieldHash: (string, string, Decimal) -> int): int {
    fieldHash(b.trader, b.symbol, b.qty)
  }

  // ---- NetPosition ----

  lemma NetPositionEqualsNull(self: Reference)
    requires self.Ref? && self.obj.NetPositionObject?
    ensures !NetPositionEquals(self, Null)
  {
  }

  lemma NetPositionEqualsReflexive(self: Reference)
    requires self.Ref? && self.obj.NetPositionObject?
    ensures NetPositionEquals(self, self)
  {
  }

  lemma NetPositionEqualsOtherType(self: Reference, obj: Reference)
    requires self.Ref? && self.obj.NetPositionObject?
    requires obj.Ref? && GetType(obj.obj) != NetPositionType && SameHeap(self, obj)
    ensures !NetPositionEquals(self, obj)
  {
  }

  /** Against another NetPosition, `Equals` holds exactly when all three fields agree,
      which is Dafny's own equality of the two records. */
  lemma NetPositionEqualsFieldWise(self: Reference, obj: Reference)
    requires self.Ref? && self.obj.NetPositionObject?
    requires obj.Ref? && obj.obj.NetPositionObject? && SameHeap(self, obj)
    ensures NetPositionEquals(self, obj) <==>
      (self.obj.net.trader == obj.obj.net.trader && self.obj.net.symbol == obj.obj.net.symbol
       && self.obj.net.qty == obj.obj.net.qty)
    ensures NetPositionEquals(self, obj) <==> self.obj.net == obj.obj.net
  {
  }

  lemma NetPositionEqualsSymmetric(a: Reference, b: Reference)
    requires a.Ref? && a.obj.NetPositionObject? && b.Ref? && b.obj.NetPositionObject? && SameHeap(a, b)
    ensures NetPositionEquals(a, b) == NetPositionEquals(b, a)
  {
  }

  /** Equal NetPositions have equal hash codes, whatever the field hash is. */
  lemma NetPositionHashConsistent(a: Reference, b: Reference, fieldHash: (string, string, Decimal) -> int)
    requires a.Ref? && a.obj.NetPositionObject? && b.Ref? && SameHeap(a, b)
    requires NetPositionEquals(a, b)
    ensures b.obj.NetPositionObject?
    ensures NetPositionHashCode(a.obj.net, fieldHash) == NetPositionHashCode(b.obj.net, fieldHash)
  {
  }

  // ---- BoxedPosition ----

  lemma BoxedPositionEqualsNull(self: Reference)
    requires self.Ref? && self.obj.BoxedPositionObject?
    ensures !BoxedPositionEquals(self, Null)
  {
  }

  lemma BoxedPositionEqualsReflexive(self: Reference)
    requires self.Ref? && self.obj.BoxedPositionObject?
    ensures BoxedPositionEquals(self, self)
  {
  }

  lemma BoxedPositionEqualsOtherType(self: Reference, obj: Reference)
    requires self.Ref? && self.obj.BoxedPositionObject?
    requires obj.Ref? && GetType(obj.obj) != BoxedPositionType && SameHeap(self, obj)
    ensures !BoxedPositionEquals(self, obj)
  {
  }

  lemma BoxedPositionEqualsFieldWise(self: Reference, obj: Reference)
    requires self.Ref? && self.obj.BoxedPositionObject?
    requires obj.Ref? && obj.obj.BoxedPositionObject? && SameHeap(self, obj)
    ensures BoxedPositionEquals(self, obj) <==>
      (self.obj.boxed.trader == obj.obj.boxed.trader && self.obj.boxed.symbol == obj.obj.boxed.symbol
       && self.obj.boxed.qty == obj.obj.boxed.qty)
    ensures BoxedPositionEquals(self, obj) <==> self.obj.boxed == obj.obj.boxed
  {
  }

  lemma BoxedPositionEqualsSymmetric(a: Reference, b: Reference)
    requires a.Ref? && a.obj.BoxedPositionObject? && b.Ref? && b.obj.BoxedPositionObject? && SameHeap(a, b)
    ensures BoxedPositionEquals(a, b) == BoxedPositionEquals(b, a)
  {
  }

  lemma BoxedPositionHashConsistent(a: Reference, b: Reference, fieldHash: (string, string, Decimal) -> int)
    requires a.Ref? && a.obj.BoxedPositionObject? && b.Ref? && SameHeap(a, b)
    requires BoxedPositionEquals(a, b)
    ensures b.obj.BoxedPositionObject?
    ensures BoxedPositionHashCode(a.obj.boxed, fieldHash) == BoxedPositionHashCode(b.obj.boxed, fieldHash)
  {
  }

  // ---- the virtual call ----

  /** `Equals` is symmetric between the two records and classes keeping `object.Equals`,
      so a NetPosition never equals a BoxedPosition with the same fields. */
  lemma EqualsSymmetric(a: Reference, b: Reference)
    requires a.Ref? && b.Ref? && SameHeap(a, b)
    ensures Equals(a, b) == Equals(b, a)
    ensures a.obj.NetPositionObject? && b.obj.BoxedPositionObject? ==> !Equals(a, b)
  {
  }
}
