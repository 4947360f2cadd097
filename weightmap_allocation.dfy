/**
 * FWeightmapLayerAllocationInfo: which weight-map texture, and which channel of it, hold one
 * paint layer of a landscape component. Equality compares the layer reference (its owner
 * package and its index) and the two bytes, after the usual C# shortcuts for a null argument
 * and for the very same object.
 *
 * Objects are modelled with an identity (`Id`) next to their field values, so that
 * `ReferenceEquals` can be told apart from value equality; in a well-formed heap two
 * references with the same identity see the same fields (`SameHeap`).
 */
module WeightmapAllocation {
  import opened Wrappers
  import opened Bytes

  /**
   * An `FPackageIndex` as the comparison sees it: the owning package, a reference that is
   * `None` for null, and the index.
   */
  datatype FPackageIndex = FPackageIndex(Owner: Option<nat>, Index: int32)

  /** `new FPackageIndex()`: no owner, index 0 (null import/export). */
  const NullPackageIndex := FPackageIndex(None, 0)

  /** The three fields of the struct-fallback class. */
  datatype Allocation = Allocation(LayerInfo: FPackageIndex, WeightmapTextureIndex: byte, WeightmapTextureChannel: byte)

  /** A reference to an allocation object: its identity and the fields it holds. */
  datatype InfoRef = InfoRef(Id: nat, Fields: Allocation)

  /** Any object `Equals(object)` may be handed: one of this class, or one of another runtime type. */
  datatype AnyObject = AllocationObject(Info: InfoRef) | OtherObject(Id: nat)

  /** Two references with the same identity see the same object. */
  predicate SameHeap(a: InfoRef, b: InfoRef) {
    a.Id == b.Id ==> a.Fields == b.Fields
  }

  /**
   * The constructor from a property bag: each property that is present is taken, a missing
   * `LayerInfo` becomes the null package index and a missing byte becomes 0.
   */
  function FromFallback(layerInfo: Option<FPackageIndex>, textureIndex: Option<byte>, textureChannel: Option<byte>): (r: Allocation)
    ensures layerInfo.None? ==> r.LayerInfo == NullPackageIndex
    ensures layerInfo.Some? ==> r.LayerInfo == layerInfo.value
    ensures textureIndex.None? ==> r.WeightmapTextureIndex == 0
    ensures textureIndex.Some? ==> r.WeightmapTextureIndex == textureIndex.value
    ensures textureChannel.None? ==> r.WeightmapTextureChannel == 0
    ensures textureChannel.Some? ==> r.WeightmapTextureChannel == textureChannel.value
  {
    Allocation(GetOrDefault(layerInfo, NullPackageIndex), GetOrDefault(textureIndex, 0), GetOrDefault(textureChannel, 0))
  }

  function GetOrDefault<T>(o: Option<T>, default: T): T {
    if o.Some? then o.value else default
  }

  /** The field comparison: owner, index and both bytes. */
  predicate FieldsEqual(a: Allocation, b: Allocation)
    ensures FieldsEqual(a, b) <==> a == b
  {
    a.LayerInfo.Owner == b.LayerInfo.Owner && a.LayerInfo.Index == b.LayerInfo.Index &&
    a.WeightmapTextureIndex == b.WeightmapTextureIndex && a.WeightmapTextureChannel == b.WeightmapTextureChannel
  }

  /** The typed `Equals`: null is never equal, the same object always is, otherwise the fields decide. */
  predicate Equals(self: InfoRef, other: Option<InfoRef>)
    ensures other.None? ==> !Equals(self, other)
    ensures other.Some? && other.value.Id == self.Id ==> Equals(self, other)
  {
    if other.None? then false
    else if other.value.Id == self.Id then true
    else FieldsEqual(self.Fields, other.value.Fields)
  }

  /**
   * The `object` overload: null is never equal, the same object always is, an object of
   * another runtime type never is, and otherwise the typed `Equals` decides.
   */
  predicate ObjectEquals(self: InfoRef, obj: Option<AnyObject>)
    ensures obj.None? ==> !ObjectEquals(self, obj)
    ensures obj.Some? && obj.value.OtherObject? && obj.value.Id != self.Id ==> !ObjectEquals(self, obj)
    ensures obj.Some? && obj.value.AllocationObject? ==> (ObjectEquals(self, obj) <==> Equals(self, Some(obj.value.Info)))
  {
    if obj.None? then false
    else if IdOf(obj.value) == self.Id then true
    else if obj.value.OtherObject? then false
    else Equals(self, Some(obj.value.Info))
  }

  function IdOf(o: AnyObject): nat {
    if o.AllocationObject? then o.Info.Id else o.Id
  }

  /** Over a well-formed heap, two allocations are equal exactly when all four fields are. */
  lemma EqualsIffFields(a: InfoRef, b: InfoRef)
    requires SameHeap(a, b)
    ensures Equals(a, Some(b)) <==> (a.Fields.LayerInfo.Owner == b.Fields.LayerInfo.Owner &&
                                     a.Fields.LayerInfo.Index == b.Fields.LayerInfo.Index &&
                                     a.Fields.WeightmapTextureIndex == b.Fields.WeightmapTextureIndex &&
                                     a.Fields.WeightmapTextureChannel == b.Fields.WeightmapTextureChannel)
  {
  }

  lemma EqualsReflexive(a: InfoRef)
    ensures Equals(a, Some(a)) && ObjectEquals(a, Some(AllocationObject(a)))
  {
  }

  lemma EqualsSymmetric(a: InfoRef, b: InfoRef)
    ensures Equals(a, Some(b)) <==> Equals(b, Some(a))
  {
  }

  lemma EqualsTransitive(a: InfoRef, b: InfoRef, c: InfoRef)
    requires SameHeap(a, b) && SameHeap(b, c) && SameHeap(a, c)
    requires Equals(a, Some(b)) && Equals(b, Some(c))
    ensures Equals(a, Some(c))
  {
    EqualsIffFields(a, b);
    EqualsIffFields(b, c);
  }

  /** Distinct objects with the same field values are equal; objects of another type never are. */
  lemma ValueSemantics(a: InfoRef, b: InfoRef, other: nat)
    requires a.Id != b.Id && a.Fields == b.Fields && other != a.Id
    ensures Equals(a, Some(b)) && ObjectEquals(a, Some(AllocationObject(b)))
    ensures !ObjectEquals(a, Some(OtherObject(other)))
  {
  }
}
