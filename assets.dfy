/** The asset-graph loaders `mvImp::_LoadScenes` ... `_LoadAccessors` of
    mvImporter.cpp. Each one looks up its key in the document root; when
    the key is absent it returns null and leaves the running count alone,
    otherwise it allocates one record per element of the JSON array, copies
    into each record only the fields whose keys are present, and adds the
    element count to the running count. Floating-point fields are not
    modelled. */
module Assets {
  import opened Common
  import opened TreeBuilder
  import opened JsonLookup

  // ---------------------------------------------------------------------
  // Records
  // ---------------------------------------------------------------------

  /** `mvGLTFScene`: the node indices (`node_count` is their number). */
  datatype Scene = Scene(nodes: seq<nat>)

  /** `mvGLTFNode` without its float transforms. */
  datatype Node = Node(name: string, meshIndex: int, skinIndex: int, children: seq<nat>, hadMatrix: bool)

  /** `mvGLTFAttributeType`, in the order the loader records them. */
  datatype AttributeKind = Position | Tangent | Normal | TexCoord

  /** `mvGLTFAttribute`. */
  datatype Attribute = Attribute(kind: AttributeKind, index: int)

  /** `mvGLTFMeshPrimitive`. */
  datatype MeshPrimitive = MeshPrimitive(indicesIndex: int, materialIndex: int, attributes: seq<Attribute>)

  /** `mvGLTFMesh`. */
  datatype Mesh = Mesh(name: string, primitives: seq<MeshPrimitive>)

  /** `mvGLTFMaterial` without its float factors. */
  datatype Material = Material(name: string, alphaMode: bool, baseColorTexture: int, metallicRoughnessTexture: int,
                               normalTexture: int, occlusionTexture: int, emissiveTexture: int, doubleSided: bool)

  /** `mvGLTFTexture`. */
  datatype Texture = Texture(samplerIndex: int, imageIndex: int, name: string)

  /** `mvGLTFSampler`. */
  datatype Sampler = Sampler(magFilter: int, minFilter: int, wrapS: int, wrapT: int)

  /** `mvGLTFImage`: `embedded` and `data` are filled in by the entry
      points. */
  datatype Image = Image(uri: string, mimeType: string, bufferViewIndex: int, embedded: bool, data: seq<byte>)

  /** `mvGLTFBuffer`: `data` is filled in by the entry points. */
  datatype Buffer = Buffer(uri: string, byteLength: int, data: seq<byte>)

  /** `mvGLTFBufferView`. */
  datatype BufferView = BufferView(name: string, bufferIndex: int, byteOffset: int, byteLength: int, byteStride: int)

  /** `mvGLTFAccessorType`: the four the loader recognises, and any other
      value a default may hold. */
  datatype AccessorType = Scalar | Vec2 | Vec3 | Vec4 | OtherType(code: int)

  /** `mvGLTFAccessor` without its float bounds. */
  datatype Accessor = Accessor(name: string, byteOffset: int, count: int, componentType: int,
                               bufferViewIndex: int, typ: AccessorType)

  /** The default-constructed record of every kind: the member
      initialisers live in mvImporter.h, which is not part of this model. */
  datatype Defaults = Defaults(scene: Scene, node: Node, mesh: Mesh, primitive: MeshPrimitive, material: Material,
                               texture: Texture, sampler: Sampler, image: Image, buffer: Buffer,
                               bufferView: BufferView, accessor: Accessor)

  // ---------------------------------------------------------------------
  // Fields
  // ---------------------------------------------------------------------

  /** `if (o.doesMemberExist(key)) field = o.getMember(key);` for an `int`
      field. */
  function IntField(doc: Document, o: JsonObject, key: string, current: int): (r: int)
    ensures !ObjectHasMember(o, key) ==> r == current
  {
    if ObjectHasMember(o, key) then AsInt(doc, GetMember(o, key)) else current
  }

  /** The same for a text field (`operator char*`). */
  function TextField(doc: Document, o: JsonObject, key: string, current: string): (r: string)
    ensures !ObjectHasMember(o, key) ==> r == current
    ensures ObjectHasMember(o, key) ==> NUL !in r
  {
    if ObjectHasMember(o, key) then AsText(doc, GetMember(o, key)) else current
  }

  /** A field is read from the first member with its name: when that
      member's value is the decimal text of `n` (as the tokenizer stores
      it, NUL-terminated), the field becomes `n`. */
  lemma IntFieldReads(doc: Document, o: JsonObject, key: string, current: int, k: nat, n: int)
    requires k < |o.members| && Matches(o.members[k], key)
    requires forall j :: 0 <= j < k ==> !Matches(o.members[j], key)
    requires 0 <= o.members[k].index < |doc.values| && doc.values[o.members[k].index] == IntText(n) + [NUL]
    ensures IntField(doc, o, key, current) == n
  {
    var m := GetMember(o, key);
    assert m == o.members[k] by {
      var r := FirstMatch(o.members, key);
      assert r.Some? && r.value == k;
    }
    assert NUL !in IntText(n) by {
      forall c | c in IntText(n) ensures c != NUL {
        var i :| 0 <= i < |IntText(n)| && IntText(n)[i] == c;
        if n >= 0 || i > 0 {
          assert IntText(n) == if n < 0 then "-" + NatText(-n) else NatText(n);
        }
      }
    }
    CStrOfTerminated(IntText(n));
    AtoiOfIntText(n, []);
    assert IntText(n) + [] == IntText(n);
  }

  /** The four keys of `attributes`, in the order they are tried. */
  function AttributeKey(kind: AttributeKind): string {
    match kind
    case Position => "POSITION"
    case Tangent => "TANGENT"
    case Normal => "NORMAL"
    case TexCoord => "TEXCOORD_0"
  }

  /** The number of attribute kinds the loader looks for. */
  const KIND_COUNT: nat := 4

  /** The kinds by rank, the order in which their keys are tried. */
  function KindOfRank(r: nat): (kind: AttributeKind)
    requires r < KIND_COUNT
    ensures KindRank(kind) == r
  {
    if r == 0 then Position else if r == 1 then Tangent else if r == 2 then Normal else TexCoord
  }

  function KindRank(kind: AttributeKind): (r: nat)
    ensures r < KIND_COUNT
  {
    match kind
    case Position => 0
    case Tangent => 1
    case Normal => 2
    case TexCoord => 3
  }

  /** The value recorded for `kind`: the `atoi` of the first member named
      by its key, if there is one. */
  function KeyValue(doc: Document, attrs: JsonObject, kind: AttributeKind): Option<int> {
    if ObjectHasMember(attrs, AttributeKey(kind)) then Some(AsInt(doc, GetMember(attrs, AttributeKey(kind)))) else None
  }

  /** The values of the four kinds, by rank. */
  function KeyValues(doc: Document, attrs: JsonObject): (vals: seq<Option<int>>)
    ensures |vals| == KIND_COUNT
  {
    seq(KIND_COUNT, r requires 0 <= r < KIND_COUNT => KeyValue(doc, attrs, KindOfRank(r)))
  }

  /** The attributes recorded for the ranks below `r`, one for each value
      present, in rank order. */
  function Recorded(vals: seq<Option<int>>, r: nat): seq<Attribute>
    requires r <= |vals| <= KIND_COUNT
    decreases r
  {
    if r == 0 then []
    else Recorded(vals, r - 1) + (if vals[r - 1].Some? then [Attribute(KindOfRank(r - 1), vals[r - 1].value)] else [])
  }

  /** The attributes of a primitive, in the fixed order POSITION,
      TANGENT, NORMAL, TEXCOORD_0. */
  function Attributes(doc: Document, attrs: JsonObject): seq<Attribute> {
    Recorded(KeyValues(doc, attrs), KIND_COUNT)
  }

  lemma {:induction false} RecordedRanked(vals: seq<Option<int>>, r: nat)
    requires r <= |vals| <= KIND_COUNT
    ensures forall i :: 0 <= i < |Recorded(vals, r)| ==> KindRank(Recorded(vals, r)[i].kind) < r
    ensures forall i, j :: 0 <= i < j < |Recorded(vals, r)| ==>
      KindRank(Recorded(vals, r)[i].kind) < KindRank(Recorded(vals, r)[j].kind)
    decreases r
  {
    if r > 0 {
      RecordedRanked(vals, r - 1);
    }
  }

  lemma {:induction false} RecordedPresent(vals: seq<Option<int>>, r: nat, k: nat)
    requires r <= |vals| <= KIND_COUNT
    requires k < r && vals[k].Some?
    ensures Attribute(KindOfRank(k), vals[k].value) in Recorded(vals, r)
    decreases r
  {
    if k < r - 1 {
      RecordedPresent(vals, r - 1, k);
    }
  }

  lemma {:induction false} RecordedAbsent(vals: seq<Option<int>>, r: nat, k: nat)
    requires r <= |vals| <= KIND_COUNT
    requires k < |vals| && vals[k].None?
    ensures forall i :: 0 <= i < |Recorded(vals, r)| ==> Recorded(vals, r)[i].kind != KindOfRank(k)
    decreases r
  {
    if r > 0 {
      RecordedAbsent(vals, r - 1, k);
    }
  }

  /** The attributes come in the fixed order, each kind at most once, and a
      kind is recorded exactly when its key is present, with the `atoi` of
      the first member of that name. */
  lemma AttributesInOrder(doc: Document, attrs: JsonObject, kind: AttributeKind)
    ensures forall i, j :: 0 <= i < j < |Attributes(doc, attrs)| ==>
      KindRank(Attributes(doc, attrs)[i].kind) < KindRank(Attributes(doc, attrs)[j].kind)
    ensures ObjectHasMember(attrs, AttributeKey(kind)) ==>
      Attribute(kind, AsInt(doc, GetMember(attrs, AttributeKey(kind)))) in Attributes(doc, attrs)
    ensures !ObjectHasMember(attrs, AttributeKey(kind)) ==>
      forall i :: 0 <= i < |Attributes(doc, attrs)| ==> Attributes(doc, attrs)[i].kind != kind
  {
    var vals := KeyValues(doc, attrs);
    var k := KindRank(kind);
    assert KindOfRank(k) == kind by { KindRoundTrip(kind); }
    RecordedRanked(vals, KIND_COUNT);
    if vals[k].Some? {
      RecordedPresent(vals, KIND_COUNT, k);
    } else {
      RecordedAbsent(vals, KIND_COUNT, k);
    }
  }

  lemma KindRoundTrip(kind: AttributeKind)
    ensures KindOfRank(KindRank(kind)) == kind
  {
  }

  /** `accessor.type` from the `type` text: only the four names are
      recognised; any other text leaves the field as it was. */
  function AccessorTypeOf(text: string, current: AccessorType): (r: AccessorType)
    ensures text == "SCALAR" ==> r == Scalar
    ensures text == "VEC2" ==> r == Vec2
    ensures text == "VEC3" ==> r == Vec3
    ensures text == "VEC4" ==> r == Vec4
    ensures text !in {"SCALAR", "VEC2", "VEC3", "VEC4"} ==> r == current
  {
    if text == "SCALAR" then Scalar
    else if text == "VEC2" then Vec2
    else if text == "VEC3" then Vec3
    else if text == "VEC4" then Vec4
    else current
  }

  // ---------------------------------------------------------------------
  // Records from objects
  // ---------------------------------------------------------------------

  /** The `mvU32` elements of a JSON array, in order. */
  function Elements(doc: Document, arr: JsonObject): (r: seq<nat>)
    ensures |r| == |arr.members|
    ensures forall k :: 0 <= k < |r| ==> r[k] == AsU32(doc, arr.members[k])
  {
    seq(|arr.members|, k requires 0 <= k < |arr.members| => AsU32(doc, arr.members[k]))
  }

  function SceneOf(doc: Document, o: JsonObject, d: Scene): Scene {
    if ObjectHasMember(o, "nodes") then d.(nodes := Elements(doc, ObjectGet(doc, o, "nodes"))) else d
  }

  function NodeOf(doc: Document, o: JsonObject, d: Node): Node {
    d.(name := TextField(doc, o, "name", d.name),
       meshIndex := IntField(doc, o, "mesh", d.meshIndex),
       skinIndex := IntField(doc, o, "skin", d.skinIndex),
       children := if ObjectHasMember(o, "children") then Elements(doc, ObjectGet(doc, o, "children")) else d.children,
       hadMatrix := if ObjectHasMember(o, "matrix") then true else d.hadMatrix)
  }

  function PrimitiveOf(doc: Document, o: JsonObject, d: MeshPrimitive): MeshPrimitive {
    d.(indicesIndex := IntField(doc, o, "indices", d.indicesIndex),
       materialIndex := IntField(doc, o, "material", d.materialIndex),
       attributes := if ObjectHasMember(o, "attributes") then Attributes(doc, ObjectGet(doc, o, "attributes")) else d.attributes)
  }

  function PrimitivesOf(doc: Document, prims: JsonObject, d: MeshPrimitive): (r: seq<MeshPrimitive>)
    ensures |r| == |prims.members|
  {
    seq(|prims.members|, j requires 0 <= j < |prims.members| => PrimitiveOf(doc, AsObject(doc, prims.members[j]), d))
  }

  function MeshOf(doc: Document, o: JsonObject, d: Mesh, dp: MeshPrimitive): Mesh {
    d.(name := TextField(doc, o, "name", d.name),
       primitives := if ObjectHasMember(o, "primitives") then PrimitivesOf(doc, ObjectGet(doc, o, "primitives"), dp) else d.primitives)
  }

  /** `texture.index` of a texture-info object `key` inside `o`. */
  function TextureIndex(doc: Document, o: JsonObject, key: string, current: int): int {
    if ObjectHasMember(o, key) then IntField(doc, ObjectGet(doc, o, key), "index", current) else current
  }

  function MaterialOf(doc: Document, o: JsonObject, d: Material): Material {
    var pbr := ObjectGet(doc, o, "pbrMetallicRoughness");
    var hasPbr := ObjectHasMember(o, "pbrMetallicRoughness");
    d.(name := TextField(doc, o, "name", d.name),
       alphaMode := if ObjectHasMember(o, "alphaMode") then AsText(doc, GetMember(o, "alphaMode")) != "OPAQUE" else d.alphaMode,
       baseColorTexture := if hasPbr then TextureIndex(doc, pbr, "baseColorTexture", d.baseColorTexture) else d.baseColorTexture,
       metallicRoughnessTexture :=
         if hasPbr then TextureIndex(doc, pbr, "metallicRoughnessTexture", d.metallicRoughnessTexture) else d.metallicRoughnessTexture,
       normalTexture := TextureIndex(doc, o, "normalTexture", d.normalTexture),
       occlusionTexture := TextureIndex(doc, o, "occlusionTexture", d.occlusionTexture),
       emissiveTexture := TextureIndex(doc, o, "emissiveTexture", d.emissiveTexture),
       doubleSided := if ObjectHasMember(o, "doubleSided") then FirstChar(AsText(doc, GetMember(o, "doubleSided"))) == 't' else d.doubleSided)
  }

  /** `text[0]` of a C string: NUL when it is empty. */
  function FirstChar(text: string): char {
    if text == [] then NUL else text[0]
  }

  function TextureOf(doc: Document, o: JsonObject, d: Texture): Texture {
    d.(samplerIndex := IntField(doc, o, "sampler", d.samplerIndex),
       imageIndex := IntField(doc, o, "source", d.imageIndex),
       name := TextField(doc, o, "name", d.name))
  }

  function SamplerOf(doc: Document, o: JsonObject, d: Sampler): Sampler {
    d.(magFilter := IntField(doc, o, "magFilter", d.magFilter),
       minFilter := IntField(doc, o, "minFilter", d.minFilter),
       wrapS := IntField(doc, o, "wrapS", d.wrapS),
       wrapT := IntField(doc, o, "wrapT", d.wrapT))
  }

  function ImageOf(doc: Document, o: JsonObject, d: Image): Image {
    d.(uri := TextField(doc, o, "uri", d.uri),
       mimeType := TextField(doc, o, "mimeType", d.mimeType),
       bufferViewIndex := IntField(doc, o, "bufferView", d.bufferViewIndex))
  }

  function BufferOf(doc: Document, o: JsonObject, d: Buffer): Buffer {
    d.(uri := TextField(doc, o, "uri", d.uri),
       byteLength := IntField(doc, o, "byteLength", d.byteLength))
  }

  function BufferViewOf(doc: Document, o: JsonObject, d: BufferView): BufferView {
    d.(name := TextField(doc, o, "name", d.name),
       bufferIndex := IntField(doc, o, "buffer", d.bufferIndex),
       byteOffset := IntField(doc, o, "byteOffset", d.byteOffset),
       byteLength := IntField(doc, o, "byteLength", d.byteLength),
       byteStride := IntField(doc, o, "byteStride", d.byteStride))
  }

  function AccessorOf(doc: Document, o: JsonObject, d: Accessor): Accessor {
    d.(name := TextField(doc, o, "name", d.name),
       byteOffset := IntField(doc, o, "byteOffset", d.byteOffset),
       count := IntField(doc, o, "count", d.count),
       componentType := IntField(doc, o, "componentType", d.componentType),
       bufferViewIndex := IntField(doc, o, "bufferView", d.bufferViewIndex),
       typ := if ObjectHasMember(o, "type") then AccessorTypeOf(AsText(doc, GetMember(o, "type")), d.typ) else d.typ)
  }

  /** Only present keys are copied: an object with no members yields the
      default record of every kind. */
  lemma EmptyObjectKeepsDefaults(doc: Document, o: JsonObject, ds: Defaults)
    requires o.members == []
    ensures SceneOf(doc, o, ds.scene) == ds.scene
    ensures NodeOf(doc, o, ds.node) == ds.node
    ensures MeshOf(doc, o, ds.mesh, ds.primitive) == ds.mesh
    ensures PrimitiveOf(doc, o, ds.primitive) == ds.primitive
    ensures MaterialOf(doc, o, ds.material) == ds.material
    ensures TextureOf(doc, o, ds.texture) == ds.texture
    ensures SamplerOf(doc, o, ds.sampler) == ds.sampler
    ensures ImageOf(doc, o, ds.image) == ds.image
    ensures BufferOf(doc, o, ds.buffer) == ds.buffer
    ensures BufferViewOf(doc, o, ds.bufferView) == ds.bufferView
    ensures AccessorOf(doc, o, ds.accessor) == ds.accessor
  {
  }

  // ---------------------------------------------------------------------
  // The loaders
  // ---------------------------------------------------------------------

  /** The loaders write record `size + i` of an array of `count` records,
      so a key that is present with elements needs the running count to
      start at 0. */
  predicate Fits(doc: Document, key: string, size: nat) {
    !ContextHasMember(doc, key) || size == 0 || |ContextGet(doc, key).members| == 0
  }

  /** The outcome every loader shares: null and the count unchanged when
      the key is absent, else one record per element and the count raised
      by the element count. */
  predicate LoadedShape<T>(doc: Document, key: string, size: nat, size': nat, xs: array?<T>) {
    (!ContextHasMember(doc, key) ==> xs == null && size' == size)
    && (ContextHasMember(doc, key) ==>
          xs != null && xs.Length == |ContextGet(doc, key).members| && size' == size + xs.Length)
  }

  /** The `i`-th element of the root array under `key`, as an object. */
  function ElementOf(doc: Document, key: string, i: nat): JsonObject
    requires i < |ContextGet(doc, key).members|
  {
    AsObject(doc, ContextGet(doc, key).members[i])
  }

  /** The records `_LoadScenes` fills in: every one from the FIRST
      element of `scenes`. */
  function ScenesOf(doc: Document, d: Scene): (r: seq<Scene>)
    ensures |r| == |ContextGet(doc, "scenes").members|
  {
    var count := |ContextGet(doc, "scenes").members|;
    seq(count, k requires 0 <= k < count => SceneOf(doc, ElementOf(doc, "scenes", 0), d))
  }

  /** The records `_LoadMaterials` fills in, one per element of `materials`. */
  function MaterialsOf(doc: Document, d: Material): (r: seq<Material>)
    ensures |r| == |ContextGet(doc, "materials").members|
  {
    var count := |ContextGet(doc, "materials").members|;
    seq(count, k requires 0 <= k < count => MaterialOf(doc, ElementOf(doc, "materials", k), d))
  }

  /** The records `_LoadTextures` fills in, one per element of `textures`. */
  function TexturesOf(doc: Document, d: Texture): (r: seq<Texture>)
    ensures |r| == |ContextGet(doc, "textures").members|
  {
    var count := |ContextGet(doc, "textures").members|;
    seq(count, k requires 0 <= k < count => TextureOf(doc, ElementOf(doc, "textures", k), d))
  }

  /** The records `_LoadSamplers` fills in, one per element of `samplers`. */
  function SamplersOf(doc: Document, d: Sampler): (r: seq<Sampler>)
    ensures |r| == |ContextGet(doc, "samplers").members|
  {
    var count := |ContextGet(doc, "samplers").members|;
    seq(count, k requires 0 <= k < count => SamplerOf(doc, ElementOf(doc, "samplers", k), d))
  }

  /** The records `_LoadImages` fills in, one per element of `images`. */
  function ImagesOf(doc: Document, d: Image): (r: seq<Image>)
    ensures |r| == |ContextGet(doc, "images").members|
  {
    var count := |ContextGet(doc, "images").members|;
    seq(count, k requires 0 <= k < count => ImageOf(doc, ElementOf(doc, "images", k), d))
  }

  /** The records `_LoadBuffers` fills in, one per element of `buffers`. */
  function BuffersOf(doc: Document, d: Buffer): (r: seq<Buffer>)
    ensures |r| == |ContextGet(doc, "buffers").members|
  {
    var count := |ContextGet(doc, "buffers").members|;
    seq(count, k requires 0 <= k < count => BufferOf(doc, ElementOf(doc, "buffers", k), d))
  }

  /** The records `_LoadBufferViews` fills in, one per element of `bufferViews`. */
  function BufferViewsOf(doc: Document, d: BufferView): (r: seq<BufferView>)
    ensures |r| == |ContextGet(doc, "bufferViews").members|
  {
    var count := |ContextGet(doc, "bufferViews").members|;
    seq(count, k requires 0 <= k < count => BufferViewOf(doc, ElementOf(doc, "bufferViews", k), d))
  }

  /** The records `_LoadAccessors` fills in, one per element of `accessors`. */
  function AccessorsOf(doc: Document, d: Accessor): (r: seq<Accessor>)
    ensures |r| == |ContextGet(doc, "accessors").members|
  {
    var count := |ContextGet(doc, "accessors").members|;
    seq(count, k requires 0 <= k < count => AccessorOf(doc, ElementOf(doc, "accessors", k), d))
  }

  /** The loop the flat loaders share: `element` fills in one
      default-constructed record from its object. */
  method LoadEach<T>(doc: Document, key: string, size: nat, dflt: T, element: JsonObject -> T)
    returns (xs: array?<T>, size': nat)
    requires Fits(doc, key, size)
    ensures LoadedShape(doc, key, size, size', xs)
    ensures xs != null ==> fresh(xs) && forall i :: 0 <= i < xs.Length ==> xs[i] == element(ElementOf(doc, key, i))
  {
    if !ContextHasMember(doc, key) {
      return null, size;
    }
    var arr := ContextGet(doc, key);
    var count := |arr.members|;
    ghost var want := seq(count, k requires 0 <= k < count => element(ElementOf(doc, key, k)));
    xs := new T[count](_ => dflt);
    size' := size;
    var i := 0;
    while i < count
      invariant 0 <= i <= count && size' == size + i && (count > 0 ==> size == 0)
      invariant xs[..i] == want[..i]
    {
      var jx := AsObject(doc, MemberAt(arr, i));
      assert jx == ElementOf(doc, key, i);
      xs[size'] := element(jx);
      assert xs[..i + 1] == xs[..i] + [want[i]];
      size' := size' + 1;
      i := i + 1;
    }
  }

  /** The `mvU32` elements of `arr` into a fresh array, counted as they
      are written. */
  method LoadIndices(doc: Document, arr: JsonObject) returns (indices: seq<nat>)
    ensures indices == Elements(doc, arr)
  {
    var count := |arr.members|;
    var a := new nat[count];
    var written := 0;
    var j := 0;
    while j < count
      invariant 0 <= j <= count && written == j
      invariant a[..written] == Elements(doc, arr)[..written]
    {
      a[written] := AsU32(doc, MemberAt(arr, j));
      written := written + 1;
      j := j + 1;
    }
    indices := a[..written];
  }

  /** One scene. Node indices are written from `node_count` on into an
      array of exactly their number, so the default scene has none. */
  method LoadScene(doc: Document, jscene: JsonObject, d: Scene) returns (scene: Scene)
    requires d.nodes == []
    ensures scene == SceneOf(doc, jscene, d)
  {
    scene := d;
    if ObjectHasMember(jscene, "nodes") {
      var nodes := LoadIndices(doc, ObjectGet(doc, jscene, "nodes"));
      scene := scene.(nodes := nodes);
    }
  }

  /** `_LoadScenes`: every record is read from `scenes[0]`, whatever its
      position. */
  method LoadScenes(doc: Document, size: nat, d: Scene) returns (scenes: array?<Scene>, size': nat)
    requires Fits(doc, "scenes", size) && d.nodes == []
    ensures LoadedShape(doc, "scenes", size, size', scenes)
    ensures scenes != null ==> fresh(scenes) && scenes[..] == ScenesOf(doc, d)
  {
    if !ContextHasMember(doc, "scenes") {
      return null, size;
    }
    var arr := ContextGet(doc, "scenes");
    var count := |arr.members|;
    ghost var want := ScenesOf(doc, d);
    scenes := new Scene[count](_ => d);
    size' := size;
    var i := 0;
    while i < count
      invariant 0 <= i <= count && size' == size + i && (count > 0 ==> size == 0)
      invariant scenes[..i] == want[..i]
    {
      var jscene := AsObject(doc, MemberAt(arr, 0));
      assert jscene == ElementOf(doc, "scenes", 0);
      var scene := LoadScene(doc, jscene, d);
      scenes[size'] := scene;
      assert scenes[..i + 1] == scenes[..i] + [want[i]];
      size' := size' + 1;
      i := i + 1;
    }
    assert scenes[..] == scenes[..i] && want == want[..i];
  }

  /** One node; the float transforms are not modelled. */
  method LoadNode(doc: Document, jnode: JsonObject, d: Node) returns (node: Node)
    requires d.children == []
    ensures node == NodeOf(doc, jnode, d)
  {
    node := d;
    if ObjectHasMember(jnode, "name") {
      node := node.(name := AsText(doc, GetMember(jnode, "name")));
    }
    if ObjectHasMember(jnode, "mesh") {
      node := node.(meshIndex := AsInt(doc, GetMember(jnode, "mesh")));
    }
    if ObjectHasMember(jnode, "skin") {
      node := node.(skinIndex := AsInt(doc, GetMember(jnode, "skin")));
    }
    if ObjectHasMember(jnode, "skin") {
      node := node.(skinIndex := AsInt(doc, GetMember(jnode, "skin")));
    }
    if ObjectHasMember(jnode, "children") {
      var children := LoadIndices(doc, ObjectGet(doc, jnode, "children"));
      node := node.(children := children);
    }
    if ObjectHasMember(jnode, "matrix") {
      node := node.(hadMatrix := true);
    }
  }

  /** The records `_LoadNodes` fills in, one per element of `nodes`. */
  function NodesOf(doc: Document, d: Node): (r: seq<Node>)
    ensures |r| == |ContextGet(doc, "nodes").members|
  {
    var count := |ContextGet(doc, "nodes").members|;
    seq(count, k requires 0 <= k < count => NodeOf(doc, ElementOf(doc, "nodes", k), d))
  }

  /** `_LoadNodes`. */
  method LoadNodes(doc: Document, size: nat, d: Node) returns (nodes: array?<Node>, size': nat)
    requires Fits(doc, "nodes", size) && d.children == []
    ensures LoadedShape(doc, "nodes", size, size', nodes)
    ensures nodes != null ==> fresh(nodes) && nodes[..] == NodesOf(doc, d)
  {
    if !ContextHasMember(doc, "nodes") {
      return null, size;
    }
    var arr := ContextGet(doc, "nodes");
    var count := |arr.members|;
    ghost var want := NodesOf(doc, d);
    nodes := new Node[count](_ => d);
    size' := size;
    var i := 0;
    while i < count
      invariant 0 <= i <= count && size' == size + i && (count > 0 ==> size == 0)
      invariant nodes[..i] == want[..i]
    {
      var jnode := AsObject(doc, MemberAt(arr, i));
      assert jnode == ElementOf(doc, "nodes", i);
      var node := LoadNode(doc, jnode, d);
      nodes[size'] := node;
      assert nodes[..i + 1] == nodes[..i] + [want[i]];
      size' := size' + 1;
      i := i + 1;
    }
    assert nodes[..] == nodes[..i] && want == want[..i];
  }

  /** The attributes recorded so far only grow. */
  lemma {:induction false} RecordedGrows(vals: seq<Option<int>>, k: nat, r: nat)
    requires k <= r <= |vals| <= KIND_COUNT
    ensures |Recorded(vals, k)| <= |Recorded(vals, r)|
    decreases r
  {
    if k < r {
      RecordedGrows(vals, k, r - 1);
    }
  }

  /** One rank more: the attribute of that rank is appended exactly when
      its value is present, and the total stays within all ranks. */
  lemma RecordedStep(vals: seq<Option<int>>, r: nat)
    requires r < |vals| == KIND_COUNT
    ensures vals[r].Some? ==> Recorded(vals, r + 1) == Recorded(vals, r) + [Attribute(KindOfRank(r), vals[r].value)]
    ensures vals[r].None? ==> Recorded(vals, r + 1) == Recorded(vals, r)
    ensures |Recorded(vals, r + 1)| <= |Recorded(vals, KIND_COUNT)|
  {
    RecordedGrows(vals, r + 1, KIND_COUNT);
  }

  /** `if (attributes.doesMemberExist(KEY)) { attributes[attribute_count] =
      {KIND, value}; attribute_count++; }` for the kind of rank `r`, with
      `vals[r]` the looked-up value. */
  method RecordAttribute(vals: seq<Option<int>>, r: nat, a: array<Attribute>, n: nat) returns (n': nat)
    requires r < |vals| == KIND_COUNT
    requires n <= a.Length && |Recorded(vals, KIND_COUNT)| <= a.Length
    requires a[..n] == Recorded(vals, r)
    modifies a
    ensures n' <= a.Length && a[..n'] == Recorded(vals, r + 1)
  {
    RecordedStep(vals, r);
    if vals[r].Some? {
      a[n] := Attribute(KindOfRank(r), vals[r].value);
      n' := n + 1;
      assert a[..n'] == a[..n] + [a[n]];
    } else {
      n' := n;
    }
  }

  /** The `attributes` block: an array of one slot per member, filled from
      `attribute_count` 0 in the fixed order. Slots past the count are
      never read. */
  method LoadAttributes(doc: Document, attrs: JsonObject) returns (attributes: seq<Attribute>)
    ensures attributes == Attributes(doc, attrs)
  {
    var attrCount := |attrs.members|;
    var a := new Attribute[attrCount](_ => Attribute(Position, 0));
    var vals := KeyValues(doc, attrs);
    AttributesFit(doc, attrs);
    var n := 0;
    n := RecordAttribute(vals, 0, a, n);
    n := RecordAttribute(vals, 1, a, n);
    n := RecordAttribute(vals, 2, a, n);
    n := RecordAttribute(vals, 3, a, n);
    attributes := a[..n];
  }

  /** One mesh primitive. */
  method LoadPrimitive(doc: Document, jprimitive: JsonObject, d: MeshPrimitive) returns (p: MeshPrimitive)
    requires d.attributes == []
    ensures p == PrimitiveOf(doc, jprimitive, d)
  {
    p := d;
    if ObjectHasMember(jprimitive, "indices") {
      p := p.(indicesIndex := AsInt(doc, GetMember(jprimitive, "indices")));
    }
    if ObjectHasMember(jprimitive, "material") {
      p := p.(materialIndex := AsInt(doc, GetMember(jprimitive, "material")));
    }
    if ObjectHasMember(jprimitive, "attributes") {
      var attributes := LoadAttributes(doc, ObjectGet(doc, jprimitive, "attributes"));
      p := p.(attributes := attributes);
    }
  }

  /** The `primitives` loop: one record per element, written at the loop
      index. */
  method LoadPrimitives(doc: Document, prims: JsonObject, dp: MeshPrimitive) returns (primitives: seq<MeshPrimitive>)
    requires dp.attributes == []
    ensures primitives == PrimitivesOf(doc, prims, dp)
  {
    var count := |prims.members|;
    ghost var want := PrimitivesOf(doc, prims, dp);
    var a := new MeshPrimitive[count](_ => dp);
    var j := 0;
    while j < count
      invariant 0 <= j <= count
      invariant a[..j] == want[..j]
      invariant forall k :: j <= k < count ==> a[k] == dp
    {
      var jprimitive := AsObject(doc, MemberAt(prims, j));
      assert a[j] == dp;
      var primitive := LoadPrimitive(doc, jprimitive, a[j]);
      assert want[j] == PrimitiveOf(doc, jprimitive, dp);
      a[j] := primitive;
      assert a[..j + 1] == want[..j] + [want[j]] == want[..j + 1];
      j := j + 1;
    }
    assert a[..] == a[..j] && want == want[..j];
    primitives := a[..];
  }

  /** One mesh. */
  method LoadMesh(doc: Document, jmesh: JsonObject, d: Mesh, dp: MeshPrimitive) returns (mesh: Mesh)
    requires dp.attributes == []
    ensures mesh == MeshOf(doc, jmesh, d, dp)
  {
    mesh := d;
    if ObjectHasMember(jmesh, "name") {
      mesh := mesh.(name := AsText(doc, GetMember(jmesh, "name")));
    }
    if ObjectHasMember(jmesh, "primitives") {
      var primitives := LoadPrimitives(doc, ObjectGet(doc, jmesh, "primitives"), dp);
      mesh := mesh.(primitives := primitives);
    }
  }

  /** The records `_LoadMeshes` fills in, one per element of `meshes`. */
  function MeshesOf(doc: Document, d: Mesh, dp: MeshPrimitive): (r: seq<Mesh>)
    ensures |r| == |ContextGet(doc, "meshes").members|
  {
    var count := |ContextGet(doc, "meshes").members|;
    seq(count, k requires 0 <= k < count => MeshOf(doc, ElementOf(doc, "meshes", k), d, dp))
  }

  /** `_LoadMeshes`: records are written at the loop index, so any
      running count is accepted. */
  method LoadMeshes(doc: Document, size: nat, d: Mesh, dp: MeshPrimitive) returns (meshes: array?<Mesh>, size': nat)
    requires dp.attributes == []
    ensures LoadedShape(doc, "meshes", size, size', meshes)
    ensures meshes != null ==> fresh(meshes) && meshes[..] == MeshesOf(doc, d, dp)
  {
    if !ContextHasMember(doc, "meshes") {
      return null, size;
    }
    var arr := ContextGet(doc, "meshes");
    var meshCount := |arr.members|;
    ghost var want := MeshesOf(doc, d, dp);
    meshes := new Mesh[meshCount](_ => d);
    size' := size;
    var i := 0;
    while i < meshCount
      invariant 0 <= i <= meshCount && size' == size + i
      invariant meshes[..i] == want[..i]
    {
      var jmesh := AsObject(doc, MemberAt(arr, i));
      var mesh := LoadMesh(doc, jmesh, d, dp);
      assert mesh == want[i];
      meshes[i] := mesh;
      size' := size' + 1;
      i := i + 1;
    }
    assert meshes[..] == meshes[..i] && want == want[..i];
  }

  /** `_LoadMaterials`. */
  method LoadMaterials(doc: Document, size: nat, d: Material) returns (materials: array?<Material>, size': nat)
    requires Fits(doc, "materials", size)
    ensures LoadedShape(doc, "materials", size, size', materials)
    ensures materials != null ==> fresh(materials) && materials[..] == MaterialsOf(doc, d)
  {
    materials, size' := LoadEach(doc, "materials", size, d, o => MaterialOf(doc, o, d));
    if materials != null {
      assert materials[..] == MaterialsOf(doc, d);
    }
  }

  /** `_LoadTextures`. */
  method LoadTextures(doc: Document, size: nat, d: Texture) returns (textures: array?<Texture>, size': nat)
    requires Fits(doc, "textures", size)
    ensures LoadedShape(doc, "textures", size, size', textures)
    ensures textures != null ==> fresh(textures) && textures[..] == TexturesOf(doc, d)
  {
    textures, size' := LoadEach(doc, "textures", size, d, o => TextureOf(doc, o, d));
    if textures != null {
      assert textures[..] == TexturesOf(doc, d);
    }
  }

  /** `_LoadSamplers`. */
  method LoadSamplers(doc: Document, size: nat, d: Sampler) returns (samplers: array?<Sampler>, size': nat)
    requires Fits(doc, "samplers", size)
    ensures LoadedShape(doc, "samplers", size, size', samplers)
    ensures samplers != null ==> fresh(samplers) && samplers[..] == SamplersOf(doc, d)
  {
    samplers, size' := LoadEach(doc, "samplers", size, d, o => SamplerOf(doc, o, d));
    if samplers != null {
      assert samplers[..] == SamplersOf(doc, d);
    }
  }

  /** `_LoadImages`. */
  method LoadImages(doc: Document, size: nat, d: Image) returns (images: array?<Image>, size': nat)
    requires Fits(doc, "images", size)
    ensures LoadedShape(doc, "images", size, size', images)
    ensures images != null ==> fresh(images) && images[..] == ImagesOf(doc, d)
  {
    images, size' := LoadEach(doc, "images", size, d, o => ImageOf(doc, o, d));
    if images != null {
      assert images[..] == ImagesOf(doc, d);
    }
  }

  /** `_LoadBuffers`. */
  method LoadBuffers(doc: Document, size: nat, d: Buffer) returns (buffers: array?<Buffer>, size': nat)
    requires Fits(doc, "buffers", size)
    ensures LoadedShape(doc, "buffers", size, size', buffers)
    ensures buffers != null ==> fresh(buffers) && buffers[..] == BuffersOf(doc, d)
  {
    buffers, size' := LoadEach(doc, "buffers", size, d, o => BufferOf(doc, o, d));
    if buffers != null {
      assert buffers[..] == BuffersOf(doc, d);
    }
  }

  /** `_LoadBufferViews`. */
  method LoadBufferViews(doc: Document, size: nat, d: BufferView) returns (bufferViews: array?<BufferView>, size': nat)
    requires Fits(doc, "bufferViews", size)
    ensures LoadedShape(doc, "bufferViews", size, size', bufferViews)
    ensures bufferViews != null ==> fresh(bufferViews) && bufferViews[..] == BufferViewsOf(doc, d)
  {
    bufferViews, size' := LoadEach(doc, "bufferViews", size, d, o => BufferViewOf(doc, o, d));
    if bufferViews != null {
      assert bufferViews[..] == BufferViewsOf(doc, d);
    }
  }

  /** `_LoadAccessors`. */
  method LoadAccessors(doc: Document, size: nat, d: Accessor) returns (accessors: array?<Accessor>, size': nat)
    requires Fits(doc, "accessors", size)
    ensures LoadedShape(doc, "accessors", size, size', accessors)
    ensures accessors != null ==> fresh(accessors) && accessors[..] == AccessorsOf(doc, d)
  {
    accessors, size' := LoadEach(doc, "accessors", size, d, o => AccessorOf(doc, o, d));
    if accessors != null {
      assert accessors[..] == AccessorsOf(doc, d);
    }
  }

  // ---------------------------------------------------------------------
  // The attribute array never overflows
  // ---------------------------------------------------------------------

  /** Members with different names are different members, so the present
      attribute keys pick distinct members and there are never more
      attributes than members: the attribute array, sized by the member
      count, is never written out of range. */
  lemma AttributesFit(doc: Document, attrs: JsonObject)
    ensures |Attributes(doc, attrs)| <= |attrs.members|
  {
    var vals := KeyValues(doc, attrs);
    var ps := KeyPositions(attrs);
    forall r | 0 <= r < KIND_COUNT
      ensures vals[r].Some? <==> ps[r].Some?
    {
    }
    forall i, j | 0 <= i < j < KIND_COUNT && ps[i].Some? && ps[j].Some?
      ensures ps[i].value != ps[j].value
    {
      if ps[i].value == ps[j].value {
        NamesDiffer(attrs.members[ps[i].value], KindOfRank(i), KindOfRank(j));
      }
    }
    RecordedCount(vals, ps, KIND_COUNT);
    RangeSize(Positions(ps, KIND_COUNT), |attrs.members|);
  }

  /** The positions of the first members named by the four keys, by
      rank. */
  function KeyPositions(attrs: JsonObject): (ps: seq<Option<nat>>)
    ensures |ps| == KIND_COUNT
    ensures forall r :: 0 <= r < KIND_COUNT ==> ps[r] == FirstMatch(attrs.members, AttributeKey(KindOfRank(r)))
  {
    seq(KIND_COUNT, r requires 0 <= r < KIND_COUNT => FirstMatch(attrs.members, AttributeKey(KindOfRank(r))))
  }

  /** The positions present among the first `r`. */
  function Positions(ps: seq<Option<nat>>, r: nat): (s: set<nat>)
    requires r <= |ps|
    ensures forall x :: x in s ==> exists k :: 0 <= k < r && ps[k] == Some(x)
    decreases r
  {
    if r == 0 then {}
    else Positions(ps, r - 1) + (if ps[r - 1].Some? then {ps[r - 1].value} else {})
  }

  /** As many attributes are recorded as there are distinct positions. */
  lemma {:induction false} RecordedCount(vals: seq<Option<int>>, ps: seq<Option<nat>>, r: nat)
    requires r <= |vals| == |ps| <= KIND_COUNT
    requires forall k :: 0 <= k < |ps| ==> (vals[k].Some? <==> ps[k].Some?)
    requires forall i, j :: 0 <= i < j < |ps| && ps[i].Some? && ps[j].Some? ==> ps[i].value != ps[j].value
    ensures |Recorded(vals, r)| == |Positions(ps, r)|
    decreases r
  {
    if r > 0 {
      RecordedCount(vals, ps, r - 1);
      if ps[r - 1].Some? {
        assert ps[r - 1].value !in Positions(ps, r - 1);
      }
    }
  }

  lemma NamesDiffer(m: JsonMember, a: AttributeKind, b: AttributeKind)
    requires Matches(m, AttributeKey(a)) && Matches(m, AttributeKey(b))
    ensures a == b
  {
    CStrOfPlain(AttributeKey(a));
    CStrOfPlain(AttributeKey(b));
  }

  /** Numbers below `n` number at most `n`. */
  lemma {:induction false} RangeSize(s: set<nat>, n: nat)
    requires forall x :: x in s ==> x < n
    ensures |s| <= n
    decreases n
  {
    if n > 0 {
      var s' := s - {n - 1};
      RangeSize(s', n - 1);
    } else {
      assert s == {};
    }
  }
}
