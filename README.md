# OSMNode: the parsed map node of Valhalla's tile builder

Valhalla's `mjolnir` pipeline reads OpenStreetMap data and builds one `OSMNode`
for each source node (valhalla/mjolnir/osmnode.h). A node holds three things:

- its 64-bit OSM id, fixed at construction;
- its position, a pair of `float`s (the model takes the longitude as the first member; see "## Left out");
- a `NodeAttributes` struct, a 32-bit word of bit-fields.

The bit-fields are an 8-bit access mask, a 3-bit node type, nine one-bit flags
and 4 spare bits. As tags are discovered, setters rewrite the position and the
attribute fields in place. `==`, `!=` and `<` compare the id and nothing else.
Nodes can therefore be sorted by id, and a node can be found with a probe that
carries only an id.

The model has two modules:

- `NodeAttributes` (node_attributes.dfy) treats the struct as one `bv32` word.
  - Every getter is a shift and a mask. Every setter clears the field's bits and
    ors in the new value.
  - Each setter's contract is a record update on `Unpack`, the word read field by
    field: it changes its own field, and no other field and no padding bit.
  - `Pack`/`Unpack` show that the word is exactly its fields plus its padding.
  - C++ leaves the bit order of bit-fields to the implementation. The model fixes
    one layout, lowest bit first, in declaration order. Only the field widths
    matter to the contracts.
- `OsmNode` (osm_node.dfy) models the class `OSMNode`.
  - `osmid` is a `const` field. `latlng` and `attributes` are mutable fields.
  - Every setter is a `modifies this` method. Its contract ties the new word to
    the matching `NodeAttributes` setter, says what the getter returns afterwards,
    and says the position is unchanged.
  - The getters (`LatLng`, `Type`, `ExitTo`, …, `Attributes`) are functions that
    read the object.
  - `Equal`, `NotEqual` and `Less` read only the constant id. So they cannot
    depend on position or attributes.
  - Lemmas show that `<` is a strict total order and `==` is its incomparability
    relation. A sequence sorted with `<` is partitioned with respect to any probe,
    and the nodes neither less nor greater than the probe are exactly those with
    its id. This is what finding a node by id with a binary search relies on.
  - `BuildIntersection` builds a node and sets two of its attributes.
    `SameIdDifferentPayload` compares two nodes that share an id but differ in
    position and attributes. Both are stated on the class contract alone.

The header gives the fields 8+3+1+1+1+1+1+1+1+1+1+4 = 24 bits. The model follows
the declarations: 24 bits are used and 8 are padding.

`set_access_mask` takes a `uint32_t` and `access_mask()` returns one. The model
follows the code: a setter argument wider than 8 bits keeps only its low 8 bits.

## Model

| member | source | states |
|---|---|---|
| NodeAttributes.SetAccessMask | valhalla/mjolnir/osmnode.h:18 | writing the 8-bit field stores the low 8 bits of the `uint32_t` argument and changes no other field and no padding bit |
| NodeAttributes.SetType | valhalla/mjolnir/osmnode.h:19 | writing the 3-bit type field stores the type and changes no other field and no padding bit |
| NodeAttributes.SetExitTo | valhalla/mjolnir/osmnode.h:20 | writing the `exit_to` bit stores the flag and changes no other field and no padding bit |
| NodeAttributes.SetRef | valhalla/mjolnir/osmnode.h:21 | writing the `ref` bit stores the flag and changes no other field and no padding bit |
| NodeAttributes.SetName | valhalla/mjolnir/osmnode.h:22 | writing the `name` bit stores the flag and changes no other field and no padding bit |
| NodeAttributes.SetIntersection | valhalla/mjolnir/osmnode.h:23 | writing the `intersection` bit stores the flag and changes no other field and no padding bit |
| NodeAttributes.SetTrafficSignal | valhalla/mjolnir/osmnode.h:24 | writing the `traffic_signal` bit stores the flag and changes no other field and no padding bit |
| NodeAttributes.SetForwardSignal | valhalla/mjolnir/osmnode.h:25 | writing the `forward_signal` bit stores the flag and changes no other field and no padding bit |
| NodeAttributes.SetBackwardSignal | valhalla/mjolnir/osmnode.h:26 | writing the `backward_signal` bit stores the flag and changes no other field and no padding bit |
| NodeAttributes.SettersIndependent | valhalla/mjolnir/osmnode.h:17-30 | setting all nine settable fields in turn leaves each with its value. `non_link_edge`, `link_edge`, `spare` and the padding keep theirs |
| NodeAttributes.UnpackPack | valhalla/mjolnir/osmnode.h:17-30 | any combination of field values fits in the word and reads back unchanged, with each field at its declared width and no bit outside the 24 used. So no two fields share a bit; the setters' record updates state the same disjointness one field at a time |
| NodeAttributes.PackUnpack | valhalla/mjolnir/osmnode.h:17-30 | the fields of a word account for exactly its low 24 bits |
| NodeAttributes.FieldsDetermineWord | valhalla/mjolnir/osmnode.h:17-30 | two words with equal fields and equal padding are equal: every bit of the word belongs to some field or to the padding |
| NodeAttributes.ZeroWord | valhalla/mjolnir/osmnode.h:17-30 | the zero word has every field zero or false |
| OsmNode.OSMNode.constructor | valhalla/mjolnir/osmnode.h:40 | the default node has id 0, position (0, 0) and every attribute zero |
| OsmNode.OSMNode.FromLngLat | valhalla/mjolnir/osmnode.h:45 | the node has the given id, the position (lng, lat) and every attribute zero |
| OsmNode.OSMNode.SetLatLng | valhalla/mjolnir/osmnode.h:56-62 | the position becomes the argument and `latlng()` returns it. The attributes are unchanged |
| OsmNode.OSMNode.SetAccessMask | valhalla/mjolnir/osmnode.h:67-72 | only the access mask changes, to the low 8 bits of the argument, and `access_mask()` returns that. The position is unchanged |
| OsmNode.OSMNode.AccessMask | valhalla/mjolnir/osmnode.h:72 | the `uint32_t` returned never exceeds 255 |
| OsmNode.OSMNode.Attributes | valhalla/mjolnir/osmnode.h:170-174 | the read-only view carries exactly the fields the node holds, the same ones the getters return |
| OsmNode.OSMNode.SetType | valhalla/mjolnir/osmnode.h:88-94 | only the type changes and `type()` returns it. The position is unchanged |
| OsmNode.OSMNode.SetExitTo | valhalla/mjolnir/osmnode.h:99-104 | only `exit_to` changes and `exit_to()` returns it. The position is unchanged |
| OsmNode.OSMNode.SetRef | valhalla/mjolnir/osmnode.h:109-114 | only `ref` changes and `ref()` returns it. The position is unchanged |
| OsmNode.OSMNode.SetName | valhalla/mjolnir/osmnode.h:119-124 | only `name` changes and `name()` returns it. The position is unchanged |
| OsmNode.OSMNode.SetIntersection | valhalla/mjolnir/osmnode.h:131-138 | only `intersection` changes and `intersection()` returns it. The position is unchanged |
| OsmNode.OSMNode.SetTrafficSignal | valhalla/mjolnir/osmnode.h:143-148 | only `traffic_signal` changes and `traffic_signal()` returns it. The position is unchanged |
| OsmNode.OSMNode.SetForwardSignal | valhalla/mjolnir/osmnode.h:153-158 | only `forward_signal` changes and `forward_signal()` returns it. The position is unchanged |
| OsmNode.OSMNode.SetBackwardSignal | valhalla/mjolnir/osmnode.h:163-168 | only `backward_signal` changes and `backward_signal()` returns it. The position is unchanged |
| OsmNode.NotEqualIsNotEqual | valhalla/mjolnir/osmnode.h:179-184 | `!=` holds exactly when `==` does not |
| OsmNode.EqualIsEquivalence | valhalla/mjolnir/osmnode.h:179-181 | `==` is reflexive, symmetric and transitive |
| OsmNode.LessIsStrictTotalOrder | valhalla/mjolnir/osmnode.h:179-187 | `<` is irreflexive, asymmetric and transitive. For any two nodes exactly one of `a < b`, `b < a`, `a == b` holds |
| OsmNode.LessRespectsEqual | valhalla/mjolnir/osmnode.h:177-187 | replacing a node by one `==` to it changes no `<` comparison |
| OsmNode.Probe | valhalla/mjolnir/osmnode.h:177-181 | a node built from an id alone is `==` to exactly the nodes with that id, whatever their payload, and those are exactly the nodes it is incomparable with under `<` |
| OsmNode.SortedPairwise | valhalla/mjolnir/osmnode.h:185-187 | in a sequence sorted with `<`, no node is `<` any node before it |
| OsmNode.ProbeSplitsSorted | valhalla/mjolnir/osmnode.h:177-187 | a sorted sequence is partitioned with respect to any probe: nodes below it, then nodes with its id, then nodes above it |
| OsmNode.BuildIntersection | valhalla/mjolnir/osmnode.h:45-138 | building a node, then setting `intersection` and `type`, gives those two values with every other flag clear and the access mask zero. The id and position are the ones given |
| OsmNode.SameIdDifferentPayload | valhalla/mjolnir/osmnode.h:177-187 | two nodes with one id but different positions and traffic-signal flags are `==`, not `!=`, and neither is `<` the other |

Each class getter (`LatLng`, `Type`, `ExitTo`, `Ref`, `Name`, `Intersection`,
`TrafficSignal`, `ForwardSignal`, `BackwardSignal`) is covered by the row of its
setter, whose contract states what the getter returns after the call. The
`operator==`, `operator!=` and `operator<` predicates `Equal`, `NotEqual` and
`Less` (valhalla/mjolnir/osmnode.h:179-181, 182-184, 185-187) are covered by the
rows of the lemmas about them, from `NotEqualIsNotEqual` to `ProbeSplitsSorted`.

## Left out

- The bodies of the member functions are in osmnode.cc, which is not part of this model.
  - The default constructor is assumed to give id 0, position (0, 0) and every attribute zero.
  - The constructor from an id and a coordinate is assumed to store the id as given, the position as (lng, lat) and every attribute zero. The header's comments speak of a "lat,lng" (valhalla/mjolnir/osmnode.h:13, 53-54, 59-60) while the constructor's parameters read lng, lat (valhalla/mjolnir/osmnode.h:45). The model follows the parameter order, with `first` as the longitude; nothing in the model depends on which coordinate comes first.
  - Each getter and setter is assumed to read or write exactly its bit-field.
- Floating point: positions are stored and returned as 32-bit patterns. No float arithmetic, rounding or NaN behaviour is modelled; nothing in the core computes with them.
- The destructor `~OSMNode()` (valhalla/mjolnir/osmnode.h:50): it has no observable effect on the state modelled here.
- The commented-out `set_payment_mask`/`payment_mask` pair (valhalla/mjolnir/osmnode.h:74-82): it is not compiled.
- `spare`, `non_link_edge` and `link_edge` have no accessor in the class. The model reads them and proves the setters leave them alone, but gives `spare` no meaning.
- `baldr::NodeType` (valhalla/baldr/graphconstants.h) is not part of this model. The type field is modelled as any 3-bit value.
- OsmNode.OSMNode.SetType: accepts only types below 8. If a `NodeType` enumerator does not fit in 3 bits, C++ would drop its high bits; that truncation is not modelled, because the enumeration is not part of this model.
- Bit order and endianness: the layout in node_attributes.dfy is one admissible choice. Only the field widths carry meaning.
- `std::sort` and the containers that hold nodes live elsewhere in the pipeline. The model states what a sequence sorted with `<` satisfies; it does not model a sort algorithm or a container.
- Copying, assignment and aliasing of nodes: a node is a heap object here, and copying it by value is not modelled.
- `latlng()` and `attributes()` return `const` references into the node (valhalla/mjolnir/osmnode.h:62, 174), so a caller holding one sees later `set_*` calls. `LatLng()` and `Attributes()` return the value at the time of the call, and such a reference is not modelled.
