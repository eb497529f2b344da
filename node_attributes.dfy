/**
 * The `NodeAttributes` bit-field struct of valhalla/mjolnir/osmnode.h: one
 * 32-bit word holding an 8-bit access mask, a 3-bit node type, nine one-bit
 * flags and four spare bits, 24 bits in all. C++ leaves the position of each
 * bit-field inside the word to the implementation; this model fixes one
 * layout, lowest bits first, in the order of declaration:
 *
 *   access_mask 0..7, type 8..10, exit_to 11, ref 12, name 13,
 *   intersection 14, traffic_signal 15, forward_signal 16,
 *   backward_signal 17, non_link_edge 18, link_edge 19, spare 20..23,
 *
 * and bits 24..31 are padding that no field reaches. Every read is a shift
 * and a mask; every write clears the field's bits and ors in the new ones.
 */
module NodeAttributes {

  /** A `uint32_t`, and the storage of one `NodeAttributes` value. */
  type Word = bv32

  /** The values an 8-bit field can hold. */
  type Uint8 = x: bv32 | x < 0x100

  /** The values a 4-bit field can hold. */
  type Uint4 = x: bv32 | x < 0x10

  /**
   * `baldr::NodeType`, stored in the 3-bit `type` field. Its enumerators are
   * not part of this model; what matters here is that each fits in 3 bits.
   */
  type NodeType = t: bv32 | t < 8

  // Offset of the lowest bit of each field.
  const TypeShift: Word := 8
  const ExitToShift: Word := 11
  const RefShift: Word := 12
  const NameShift: Word := 13
  const IntersectionShift: Word := 14
  const TrafficSignalShift: Word := 15
  const ForwardSignalShift: Word := 16
  const BackwardSignalShift: Word := 17
  const NonLinkEdgeShift: Word := 18
  const LinkEdgeShift: Word := 19
  const SpareShift: Word := 20
  const UsedBits: Word := 24

  /** The field under `mask` at bit `shift` of `a`. */
  function Field(a: Word, shift: Word, mask: Word): Word
    requires shift < 32
  {
    (a >> shift) & mask
  }

  /** `a` with the field under `mask` at bit `shift` replaced by the bits of `v` under `mask`. */
  function Replace(a: Word, shift: Word, mask: Word, v: Word): Word
    requires shift < 32
  {
    (a & !(mask << shift)) | ((v & mask) << shift)
  }

  /** The one-bit value a `bool` is stored as. */
  function Bit(b: bool): Word
  {
    if b then 1 else 0
  }

  // ---------------------------------------------------------------------
  // Getters: what reading each bit-field member gives. A one-bit field
  // converts to `bool` as C++ converts a non-zero integer.

  function AccessMask(a: Word): Uint8
  {
    a & 0xFF
  }

  function Type(a: Word): NodeType
  {
    Field(a, TypeShift, 7)
  }

  function ExitTo(a: Word): bool { Field(a, ExitToShift, 1) != 0 }
  function Ref(a: Word): bool { Field(a, RefShift, 1) != 0 }
  function Name(a: Word): bool { Field(a, NameShift, 1) != 0 }
  function Intersection(a: Word): bool { Field(a, IntersectionShift, 1) != 0 }
  function TrafficSignal(a: Word): bool { Field(a, TrafficSignalShift, 1) != 0 }
  function ForwardSignal(a: Word): bool { Field(a, ForwardSignalShift, 1) != 0 }
  function BackwardSignal(a: Word): bool { Field(a, BackwardSignalShift, 1) != 0 }
  function NonLinkEdge(a: Word): bool { Field(a, NonLinkEdgeShift, 1) != 0 }
  function LinkEdge(a: Word): bool { Field(a, LinkEdgeShift, 1) != 0 }

  function Spare(a: Word): Uint4
  {
    Field(a, SpareShift, 0xF)
  }

  /** The eight bits above the fields, which belong to none of them. */
  function Padding(a: Word): Word
  {
    a >> UsedBits
  }

  // ---------------------------------------------------------------------
  // The struct seen field by field

  /** The named fields of one `NodeAttributes` value. */
  datatype Fields = Fields(
    accessMask: Uint8,
    nodeType: NodeType,
    exitTo: bool,
    ref: bool,
    name: bool,
    intersection: bool,
    trafficSignal: bool,
    forwardSignal: bool,
    backwardSignal: bool,
    nonLinkEdge: bool,
    linkEdge: bool,
    spare: Uint4)

  /** Every field zero. */
  const NoFields := Fields(0, 0, false, false, false, false, false, false, false, false, false, 0)

  /** All the fields of the word at once. */
  function Unpack(a: Word): Fields
  {
    Fields(AccessMask(a), Type(a), ExitTo(a), Ref(a), Name(a), Intersection(a),
           TrafficSignal(a), ForwardSignal(a), BackwardSignal(a), NonLinkEdge(a),
           LinkEdge(a), Spare(a))
  }

  // ---------------------------------------------------------------------
  // Setters. Each one changes its own field, as the record update in its
  // contract says, and no other field and no padding bit.

  /** `set_access_mask`: the argument is a `uint32_t`, of which the 8-bit field keeps the low 8 bits. */
  function SetAccessMask(a: Word, v: Word): (r: Word)
    ensures Unpack(r) == Unpack(a).(accessMask := v & 0xFF)
    ensures Padding(r) == Padding(a)
  {
    Replace(a, 0, 0xFF, v)
  }

  function SetType(a: Word, t: NodeType): (r: Word)
    ensures Unpack(r) == Unpack(a).(nodeType := t)
    ensures Padding(r) == Padding(a)
  {
    Replace(a, TypeShift, 7, t)
  }

  function SetExitTo(a: Word, b: bool): (r: Word)
    ensures Unpack(r) == Unpack(a).(exitTo := b)
    ensures Padding(r) == Padding(a)
  {
    Replace(a, ExitToShift, 1, Bit(b))
  }

  function SetRef(a: Word, b: bool): (r: Word)
    ensures Unpack(r) == Unpack(a).(ref := b)
    ensures Padding(r) == Padding(a)
  {
    Replace(a, RefShift, 1, Bit(b))
  }

  function SetName(a: Word, b: bool): (r: Word)
    ensures Unpack(r) == Unpack(a).(name := b)
    ensures Padding(r) == Padding(a)
  {
    Replace(a, NameShift, 1, Bit(b))
  }

  function SetIntersection(a: Word, b: bool): (r: Word)
    ensures Unpack(r) == Unpack(a).(intersection := b)
    ensures Padding(r) == Padding(a)
  {
    Replace(a, IntersectionShift, 1, Bit(b))
  }

  function SetTrafficSignal(a: Word, b: bool): (r: Word)
    ensures Unpack(r) == Unpack(a).(trafficSignal := b)
    ensures Padding(r) == Padding(a)
  {
    Replace(a, TrafficSignalShift, 1, Bit(b))
  }

  function SetForwardSignal(a: Word, b: bool): (r: Word)
    ensures Unpack(r) == Unpack(a).(forwardSignal := b)
    ensures Padding(r) == Padding(a)
  {
    Replace(a, ForwardSignalShift, 1, Bit(b))
  }

  function SetBackwardSignal(a: Word, b: bool): (r: Word)
    ensures Unpack(r) == Unpack(a).(backwardSignal := b)
    ensures Padding(r) == Padding(a)
  {
    Replace(a, BackwardSignalShift, 1, Bit(b))
  }

  /**
   * Setting every field that has a setter, one after another, leaves each
   * field holding what it was last given, and the fields without a setter
   * (`non_link_edge`, `link_edge`, `spare`) and the padding as they were.
   */
  lemma SettersIndependent(a: Word, accessMask: Word, nodeType: NodeType,
                           exitTo: bool, ref: bool, name: bool, intersection: bool,
                           trafficSignal: bool, forwardSignal: bool, backwardSignal: bool)
    ensures var r :=
      SetBackwardSignal(SetForwardSignal(SetTrafficSignal(SetIntersection(SetName(SetRef(
        SetExitTo(SetType(SetAccessMask(a, accessMask), nodeType), exitTo), ref), name),
        intersection), trafficSignal), forwardSignal), backwardSignal);
      Unpack(r) == Fields(accessMask & 0xFF, nodeType, exitTo, ref, name, intersection,
                          trafficSignal, forwardSignal, backwardSignal,
                          NonLinkEdge(a), LinkEdge(a), Spare(a))
      && Padding(r) == Padding(a)
  {
  }

  // ---------------------------------------------------------------------
  // The word is its fields and its padding

  /** The word with exactly the given fields and zero padding. */
  function Pack(r: Fields): Word
  {
    r.accessMask
    | (r.nodeType << TypeShift)
    | (Bit(r.exitTo) << ExitToShift)
    | (Bit(r.ref) << RefShift)
    | (Bit(r.name) << NameShift)
    | (Bit(r.intersection) << IntersectionShift)
    | (Bit(r.trafficSignal) << TrafficSignalShift)
    | (Bit(r.forwardSignal) << ForwardSignalShift)
    | (Bit(r.backwardSignal) << BackwardSignalShift)
    | (Bit(r.nonLinkEdge) << NonLinkEdgeShift)
    | (Bit(r.linkEdge) << LinkEdgeShift)
    | (r.spare << SpareShift)
  }

  /** Reading the fields of a packed record gives the record back, and no padding bit is set. */
  lemma UnpackPack(r: Fields)
    ensures Unpack(Pack(r)) == r && Padding(Pack(r)) == 0
  {
  }

  /** Packing the fields of a word gives back its low 24 bits. */
  lemma PackUnpack(a: Word)
    ensures Pack(Unpack(a)) == a & 0xFF_FFFF
  {
  }

  /** Two words with the same fields and the same padding are the same word. */
  lemma FieldsDetermineWord(a: Word, b: Word)
    requires Unpack(a) == Unpack(b) && Padding(a) == Padding(b)
    ensures a == b
  {
  }

  /** The all-zero word has every field zero. */
  lemma ZeroWord()
    ensures Unpack(0) == NoFields && Padding(0) == 0
  {
  }
}
