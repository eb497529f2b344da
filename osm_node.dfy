/**
 * `OSMNode` of valhalla/mjolnir/osmnode.h: the record the map-data parser
 * builds for each source node. It holds the node's 64-bit id, its position
 * and a packed `NodeAttributes` word; setters update the position and the
 * attribute fields in place, and equality and ordering look at the id alone,
 * so that a node can be found in a sorted collection by a probe that only
 * carries an id.
 */
module OsmNode {
  import opened NodeAttributes

  /** A `uint64_t`. */
  type Uint64 = x: nat | x < 0x1_0000_0000_0000_0000

  /**
   * A `float`, kept as its 32-bit pattern. Positions are only stored and
   * returned; no floating-point arithmetic is modelled.
   */
  type Float32 = bv32

  /**
   * `OSMLatLng`, a `std::pair<float, float>`. Which coordinate is `first` is
   * decided by the constructor body, which is not part of this model; the
   * model takes the constructor's parameter order, longitude first.
   */
  datatype OSMLatLng = OSMLatLng(lng: Float32, lat: Float32)

  class OSMNode {
    /** `osmid_`: set by the constructors, written by no member function. */
    const osmid: Uint64

    /** `latlng_` */
    var latlng: OSMLatLng

    /** `attributes_` */
    var attributes: Word

    /** The attribute word read field by field. */
    ghost function AttributeFields(): Fields
      reads this
    {
      Unpack(attributes)
    }

    /** `OSMNode()`: the node with id 0 at (0, 0) with every attribute zero. */
    constructor ()
      ensures osmid == 0 && latlng == OSMLatLng(0, 0) && attributes == 0
      ensures AttributeFields() == NoFields
    {
      osmid := 0;
      latlng := OSMLatLng(0, 0);
      attributes := 0;
      ZeroWord();
    }

    /** `OSMNode(osmid, lng, lat)`: the node `osmid` at (lng, lat) with every attribute zero. */
    constructor FromLngLat(osmid: Uint64, lng: Float32, lat: Float32)
      ensures this.osmid == osmid && latlng == OSMLatLng(lng, lat) && attributes == 0
      ensures AttributeFields() == NoFields
    {
      this.osmid := osmid;
      latlng := OSMLatLng(lng, lat);
      attributes := 0;
      ZeroWord();
    }

    method SetLatLng(ll: OSMLatLng)
      modifies this
      ensures latlng == ll && LatLng() == ll
      ensures attributes == old(attributes)
    {
      latlng := ll;
    }

    function LatLng(): OSMLatLng
      reads this
    {
      latlng
    }

    // -------------------------------------------------------------------
    // Attribute setters and getters. Each setter rewrites one field of the
    // attribute word and leaves the rest of the word and the position alone.

    method SetAccessMask(accessMask: Word)
      modifies this
      ensures attributes == NodeAttributes.SetAccessMask(old(attributes), accessMask)
      ensures AttributeFields() == old(AttributeFields()).(accessMask := accessMask & 0xFF)
      ensures AccessMask() == accessMask & 0xFF
      ensures latlng == old(latlng)
    {
      attributes := NodeAttributes.SetAccessMask(attributes, accessMask);
    }

    /** `access_mask()`: a `uint32_t` that never exceeds the 8 bits of its field. */
    function AccessMask(): (r: Word)
      reads this
      ensures r < 0x100
    {
      NodeAttributes.AccessMask(attributes)
    }

    method SetType(nodeType: NodeType)
      modifies this
      ensures attributes == NodeAttributes.SetType(old(attributes), nodeType)
      ensures AttributeFields() == old(AttributeFields()).(nodeType := nodeType)
      ensures Type() == nodeType
      ensures latlng == old(latlng)
    {
      attributes := NodeAttributes.SetType(attributes, nodeType);
    }

    function Type(): NodeType
      reads this
    {
      NodeAttributes.Type(attributes)
    }

    method SetExitTo(exitTo: bool)
      modifies this
      ensures attributes == NodeAttributes.SetExitTo(old(attributes), exitTo)
      ensures AttributeFields() == old(AttributeFields()).(exitTo := exitTo)
      ensures ExitTo() == exitTo
      ensures latlng == old(latlng)
    {
      attributes := NodeAttributes.SetExitTo(attributes, exitTo);
    }

    function ExitTo(): bool
      reads this
    {
      NodeAttributes.ExitTo(attributes)
    }

    method SetRef(ref: bool)
      modifies this
      ensures attributes == NodeAttributes.SetRef(old(attributes), ref)
      ensures AttributeFields() == old(AttributeFields()).(ref := ref)
      ensures Ref() == ref
      ensures latlng == old(latlng)
    {
      attributes := NodeAttributes.SetRef(attributes, ref);
    }

    function Ref(): bool
      reads this
    {
      NodeAttributes.Ref(attributes)
    }

    method SetName(name: bool)
      modifies this
      ensures attributes == NodeAttributes.SetName(old(attributes), name)
      ensures AttributeFields() == old(AttributeFields()).(name := name)
      ensures Name() == name
      ensures latlng == old(latlng)
    {
      attributes := NodeAttributes.SetName(attributes, name);
    }

    function Name(): bool
      reads this
    {
      NodeAttributes.Name(attributes)
    }

    method SetIntersection(intersection: bool)
      modifies this
      ensures attributes == NodeAttributes.SetIntersection(old(attributes), intersection)
      ensures AttributeFields() == old(AttributeFields()).(intersection := intersection)
      ensures Intersection() == intersection
      ensures latlng == old(latlng)
    {
      attributes := NodeAttributes.SetIntersection(attributes, intersection);
    }

    function Intersection(): bool
      reads this
    {
      NodeAttributes.Intersection(attributes)
    }

    method SetTrafficSignal(trafficSignal: bool)
      modifies this
      ensures attributes == NodeAttributes.SetTrafficSignal(old(attributes), trafficSignal)
      ensures AttributeFields() == old(AttributeFields()).(trafficSignal := trafficSignal)
      ensures TrafficSignal() == trafficSignal
      ensures latlng == old(latlng)
    {
      attributes := NodeAttributes.SetTrafficSignal(attributes, trafficSignal);
    }

    function TrafficSignal(): bool
      reads this
    {
      NodeAttributes.TrafficSignal(attributes)
    }

    method SetForwardSignal(forwardSignal: bool)
      modifies this
      ensures attributes == NodeAttributes.SetForwardSignal(old(attributes), forwardSignal)
      ensures AttributeFields() == old(AttributeFields()).(forwardSignal := forwardSignal)
      ensures ForwardSignal() == forwardSignal
      ensures latlng == old(latlng)
    {
      attributes := NodeAttributes.SetForwardSignal(attributes, forwardSignal);
    }

    function ForwardSignal(): bool
      reads this
    {
      NodeAttributes.ForwardSignal(attributes)
    }

    method SetBackwardSignal(backwardSignal: bool)
      modifies this
      ensures attributes == NodeAttributes.SetBackwardSignal(old(attributes), backwardSignal)
      ensures AttributeFields() == old(AttributeFields()).(backwardSignal := backwardSignal)
      ensures BackwardSignal() == backwardSignal
      ensures latlng == old(latlng)
    {
      attributes := NodeAttributes.SetBackwardSignal(attributes, backwardSignal);
    }

    function BackwardSignal(): bool
      reads this
    {
      NodeAttributes.BackwardSignal(attributes)
    }

    /**
     * `attributes()`: the attribute word itself, for reading only. It carries
     * the same fields the getters read.
     */
    function Attributes(): (r: Word)
      reads this
      ensures Unpack(r) == AttributeFields()
      ensures NodeAttributes.AccessMask(r) == AccessMask() && NodeAttributes.Type(r) == Type()
    {
      attributes
    }

    // -------------------------------------------------------------------
    // Comparison. The id is a constant field, so none of these reads the
    // mutable state: position and attributes cannot affect them.

    /** `operator==` */
    predicate Equal(other: OSMNode)
    {
      osmid == other.osmid
    }

    /** `operator!=` */
    predicate NotEqual(other: OSMNode)
    {
      osmid != other.osmid
    }

    /** `operator<` */
    predicate Less(other: OSMNode)
    {
      osmid < other.osmid
    }
  }

  // ---------------------------------------------------------------------
  // Equality and ordering

  /** `!=` is the negation of `==`. */
  lemma NotEqualIsNotEqual(a: OSMNode, b: OSMNode)
    ensures a.NotEqual(b) <==> !a.Equal(b)
  {
  }

  /** `==` is an equivalence relation. */
  lemma EqualIsEquivalence(a: OSMNode, b: OSMNode, c: OSMNode)
    ensures a.Equal(a)
    ensures a.Equal(b) ==> b.Equal(a)
    ensures a.Equal(b) && b.Equal(c) ==> a.Equal(c)
  {
  }

  /** `<` is a strict total order whose incomparable pairs are exactly the `==` pairs. */
  lemma LessIsStrictTotalOrder(a: OSMNode, b: OSMNode, c: OSMNode)
    ensures !a.Less(a)
    ensures a.Less(b) && b.Less(c) ==> a.Less(c)
    ensures a.Less(b) ==> !b.Less(a)
    ensures (a.Less(b) && !b.Less(a) && !a.Equal(b))
         || (b.Less(a) && !a.Less(b) && !a.Equal(b))
         || (a.Equal(b) && !a.Less(b) && !b.Less(a))
  {
  }

  /** `<` does not tell apart nodes that are `==`. */
  lemma LessRespectsEqual(a: OSMNode, b: OSMNode, c: OSMNode)
    requires a.Equal(b)
    ensures a.Less(c) <==> b.Less(c)
    ensures c.Less(a) <==> c.Less(b)
  {
  }

  /**
   * A probe node that carries nothing but an id matches every node with that
   * id, whatever their positions and attributes.
   */
  method Probe(osmid: Uint64) returns (probe: OSMNode)
    ensures probe.osmid == osmid
    ensures forall n: OSMNode :: probe.Equal(n) <==> n.osmid == osmid
    ensures forall n: OSMNode :: probe.Equal(n) <==> !probe.Less(n) && !n.Less(probe)
  {
    probe := new OSMNode.FromLngLat(osmid, 0, 0);
  }

  // ---------------------------------------------------------------------
  // Looking a node up in a sorted collection

  /** What sorting with `<` leaves: no node is `<` the one before it. */
  ghost predicate Sorted(nodes: seq<OSMNode>)
  {
    forall k | 0 < k < |nodes| :: !nodes[k].Less(nodes[k - 1])
  }

  /** In a sorted sequence no node is `<` any node before it. */
  lemma {:induction false} SortedPairwise(nodes: seq<OSMNode>, i: nat, j: nat)
    requires Sorted(nodes) && i <= j < |nodes|
    ensures !nodes[j].Less(nodes[i])
    decreases j - i
  {
    if i < j {
      SortedPairwise(nodes, i, j - 1);
      assert !nodes[j].Less(nodes[j - 1]);
    }
  }

  /**
   * A sorted sequence is partitioned with respect to any probe: the nodes `<`
   * the probe come first, the nodes the probe is `<` come last, and the ones
   * in between, those neither `<` nor `>` the probe, are exactly the nodes
   * `==` to it, that is, those with the probe's id. This is what a binary
   * search (lower bound, upper bound, equal range) with `<` needs to find a
   * node from its id alone.
   */
  lemma ProbeSplitsSorted(nodes: seq<OSMNode>, probe: OSMNode)
    requires Sorted(nodes)
    ensures forall i, j | 0 <= i < j < |nodes| :: nodes[j].Less(probe) ==> nodes[i].Less(probe)
    ensures forall i, j | 0 <= i < j < |nodes| :: probe.Less(nodes[i]) ==> probe.Less(nodes[j])
    ensures forall i | 0 <= i < |nodes| ::
      (!nodes[i].Less(probe) && !probe.Less(nodes[i])) <==> nodes[i].osmid == probe.osmid
  {
    forall i, j | 0 <= i < j < |nodes|
      ensures nodes[j].Less(probe) ==> nodes[i].Less(probe)
      ensures probe.Less(nodes[i]) ==> probe.Less(nodes[j])
    {
      SortedPairwise(nodes, i, j);
    }
  }

  // ---------------------------------------------------------------------
  // Building and comparing nodes through the class contract

  /**
   * A node built from an id and a position, then marked as an intersection
   * of the given type: the two fields set hold their values, every other
   * flag is still clear, and the id and position are the ones it was built
   * with.
   */
  method BuildIntersection(osmid: Uint64, lng: Float32, lat: Float32, nodeType: NodeType)
    returns (n: OSMNode)
    ensures n.osmid == osmid && n.LatLng() == OSMLatLng(lng, lat)
    ensures n.Intersection() && n.Type() == nodeType
    ensures !n.ExitTo() && !n.Ref() && !n.Name() && !n.TrafficSignal()
    ensures !n.ForwardSignal() && !n.BackwardSignal() && n.AccessMask() == 0
  {
    n := new OSMNode.FromLngLat(osmid, lng, lat);
    n.SetIntersection(true);
    n.SetType(nodeType);
  }

  /**
   * Two nodes with the same id, different positions and different
   * attributes compare `==`, and neither is `<` the other.
   */
  method SameIdDifferentPayload(osmid: Uint64) returns (a: OSMNode, b: OSMNode)
    ensures a.LatLng() != b.LatLng() && a.TrafficSignal() != b.TrafficSignal()
    ensures a.Equal(b) && !a.NotEqual(b) && !a.Less(b) && !b.Less(a)
  {
    a := new OSMNode.FromLngLat(osmid, 0, 0);
    // 0x3F80_0000 is the bit pattern of `1.0f`.
    b := new OSMNode.FromLngLat(osmid, 0x3F80_0000, 0x3F80_0000);
    b.SetTrafficSignal(true);
  }
}
