/** The two `mvLoadGLTF` entry points and `mvCleanupGLTF` of mvImporter.cpp:
    a glTF model held as ten arrays of records with their counts, filled in
    from a `.gltf` text file or from a `.glb` binary file, and released
    again. The file system is a map from path to bytes. */
module GltfLoader {
  import opened Common
  import opened DataUri
  import opened TreeBuilder
  import opened JsonLookup
  import opened Assets

  // ---------------------------------------------------------------------
  // Files and bytes
  // ---------------------------------------------------------------------

  /** `_ReadFile(path)`: the bytes stored at `path`; a missing file reads
      as no bytes. */
  function ReadFile(files: map<string, seq<byte>>, path: string): seq<byte> {
    if path in files then files[path] else []
  }

  /** Bytes seen through a `char*`. */
  function Chars(bs: seq<byte>): seq<char> {
    seq(|bs|, k requires 0 <= k < |bs| => ByteToChar(bs[k]))
  }

  /** A `char` buffer holding the bytes of `bs` from offset `from` to the
      end, of which the first `n` are handed to the parser. */
  method CharBuffer(bs: seq<byte>, from: nat, n: nat) returns (a: array<char>)
    requires from + n <= |bs|
    ensures fresh(a) && a.Length == |bs| - from
    ensures a[..n] == Chars(bs[from..from + n])
  {
    a := new char[|bs| - from](k requires 0 <= k < |bs| - from => ByteToChar(bs[from + k]));
    assert forall k :: 0 <= k < n ==> a[..n][k] == Chars(bs[from..from + n])[k];
  }

  /** A byte as an unsigned number. */
  function Unsigned(b: byte): (r: nat)
    ensures r < 256
  {
    b as nat
  }

  /** `*(mvU32*)&data[at]` on a little-endian machine. */
  function ReadU32(bs: seq<byte>, at: nat): (r: nat)
    requires at + 4 <= |bs|
    ensures r < U32_MODULUS
  {
    var b0, b1, b2, b3 := Unsigned(bs[at]), Unsigned(bs[at + 1]), Unsigned(bs[at + 2]), Unsigned(bs[at + 3]);
    var high := b2 + 256 * b3;
    assert high < 0x1_0000;
    var middle := b1 + 256 * high;
    assert middle < 0x100_0000;
    b0 + 256 * middle
  }

  /** The four little-endian bytes of a 32-bit value. */
  function U32Bytes(n: nat): (r: seq<byte>)
    requires n < U32_MODULUS
    ensures |r| == 4
  {
    var q1 := n / 256;
    var q2 := q1 / 256;
    [(n % 256) as byte, (q1 % 256) as byte, (q2 % 256) as byte, (q2 / 256) as byte]
  }

  lemma UnsignedOf(k: nat)
    requires k < 256
    ensures Unsigned(k as byte) == k
  {
  }

  /** A header field written as four little-endian bytes reads back as the
      same value, wherever it sits. */
  lemma U32RoundTrip(n: nat, before: seq<byte>, after: seq<byte>)
    requires n < U32_MODULUS
    ensures ReadU32(before + U32Bytes(n) + after, |before|) == n
  {
    var bs := before + U32Bytes(n) + after;
    var at := |before|;
    var q1 := n / 256;
    var q2 := q1 / 256;
    UnsignedOf(n % 256);
    UnsignedOf(q1 % 256);
    UnsignedOf(q2 % 256);
    UnsignedOf(q2 / 256);
    assert bs[at..at + 4] == U32Bytes(n);
    assert q2 == q2 % 256 + 256 * (q2 / 256);
    assert q1 == q1 % 256 + 256 * q2;
    assert n == n % 256 + 256 * q1;
  }

  // ---------------------------------------------------------------------
  // The model object
  // ---------------------------------------------------------------------

  /** Each array and count pair: null with count 0, or an array of
      `count` records. */
  predicate Counted<T>(xs: array?<T>, count: nat) {
    if xs == null then count == 0 else xs.Length == count
  }

  /** What one array of the model holds after loading a document: nothing
      when `key` is absent from the root object, else the records `want`. */
  ghost predicate Shows<T>(doc: Document, key: string, xs: array?<T>, count: nat, want: seq<T>)
    reads xs
  {
    if ContextHasMember(doc, key) then xs != null && count == xs.Length && xs[..] == want
    else xs == null && count == 0
  }

  /** `ds`'s inner index lists start empty, as the loaders need. */
  predicate EmptyLists(ds: Defaults) {
    ds.scene.nodes == [] && ds.node.children == [] && ds.primitive.attributes == []
  }

  /** `xs` when `key` is present in the root object, else nothing: the
      records a loop up to the count visits. */
  function Present<T>(doc: Document, key: string, xs: seq<T>): seq<T> {
    if ContextHasMember(doc, key) then xs else []
  }

  /** `mvGLTFModel`: a struct the entry points return by value, holding
      the root directory and ten array and count pairs. */
  datatype GltfModel = GltfModel(
    root: string,
    scenes: array?<Scene>, sceneCount: nat,
    nodes: array?<Node>, nodeCount: nat,
    materials: array?<Material>, materialCount: nat,
    meshes: array?<Mesh>, meshCount: nat,
    textures: array?<Texture>, textureCount: nat,
    samplers: array?<Sampler>, samplerCount: nat,
    images: array?<Image>, imageCount: nat,
    buffers: array?<Buffer>, bufferCount: nat,
    bufferViews: array?<BufferView>, bufferViewCount: nat,
    accessors: array?<Accessor>, accessorCount: nat)
  {
    /** Every count is the length of its array. */
    predicate Valid() {
      Counted(scenes, sceneCount) && Counted(nodes, nodeCount) && Counted(materials, materialCount)
      && Counted(meshes, meshCount) && Counted(textures, textureCount) && Counted(samplers, samplerCount)
      && Counted(images, imageCount) && Counted(buffers, bufferCount)
      && Counted(bufferViews, bufferViewCount) && Counted(accessors, accessorCount)
    }

    /** No arrays and every count 0. */
    predicate Cleared() {
      scenes == null && nodes == null && materials == null && meshes == null && textures == null
      && samplers == null && images == null && buffers == null && bufferViews == null && accessors == null
      && sceneCount == 0 && nodeCount == 0 && materialCount == 0 && meshCount == 0 && textureCount == 0
      && samplerCount == 0 && imageCount == 0 && bufferCount == 0 && bufferViewCount == 0 && accessorCount == 0
    }

    /** The views and buffers an image can point into. */
    ghost function ViewsNow(): seq<BufferView>
      reads bufferViews
    {
      if bufferViews == null then [] else bufferViews[..]
    }

    ghost function BuffersNow(): seq<Buffer>
      reads buffers
    {
      if buffers == null then [] else buffers[..]
    }
  }

  /** `mvGLTFModel model{}` with the root set. */
  function EmptyModel(root: string): (m: GltfModel)
    ensures m.Cleared() && m.Valid() && m.root == root
  {
    GltfModel(root, null, 0, null, 0, null, 0, null, 0, null, 0, null, 0, null, 0, null, 0, null, 0, null, 0)
  }

  /** The ten `_Load*` calls both entry points make, in their order, each
      starting from a count of 0. */
  method LoadAssets(root: string, doc: Document, ds: Defaults) returns (model: GltfModel)
    requires EmptyLists(ds)
    ensures model.Valid() && model.root == root
    ensures
      Shows(doc, "scenes", model.scenes, model.sceneCount, ScenesOf(doc, ds.scene))
      && Shows(doc, "nodes", model.nodes, model.nodeCount, NodesOf(doc, ds.node))
      && Shows(doc, "materials", model.materials, model.materialCount, MaterialsOf(doc, ds.material))
      && Shows(doc, "meshes", model.meshes, model.meshCount, MeshesOf(doc, ds.mesh, ds.primitive))
      && Shows(doc, "textures", model.textures, model.textureCount, TexturesOf(doc, ds.texture))
      && Shows(doc, "samplers", model.samplers, model.samplerCount, SamplersOf(doc, ds.sampler))
      && Shows(doc, "images", model.images, model.imageCount, ImagesOf(doc, ds.image))
      && Shows(doc, "buffers", model.buffers, model.bufferCount, BuffersOf(doc, ds.buffer))
      && Shows(doc, "bufferViews", model.bufferViews, model.bufferViewCount, BufferViewsOf(doc, ds.bufferView))
      && Shows(doc, "accessors", model.accessors, model.accessorCount, AccessorsOf(doc, ds.accessor))
    ensures model.images != null ==> fresh(model.images)
    ensures model.buffers != null ==> fresh(model.buffers)
  {
    var scenes, sceneCount := LoadScenes(doc, 0, ds.scene);
    var nodes, nodeCount := LoadNodes(doc, 0, ds.node);
    var materials, materialCount := LoadMaterials(doc, 0, ds.material);
    var meshes, meshCount := LoadMeshes(doc, 0, ds.mesh, ds.primitive);
    var textures, textureCount := LoadTextures(doc, 0, ds.texture);
    var samplers, samplerCount := LoadSamplers(doc, 0, ds.sampler);
    var images, imageCount := LoadImages(doc, 0, ds.image);
    var buffers, bufferCount := LoadBuffers(doc, 0, ds.buffer);
    var bufferViews, bufferViewCount := LoadBufferViews(doc, 0, ds.bufferView);
    var accessors, accessorCount := LoadAccessors(doc, 0, ds.accessor);
    model := GltfModel(root, scenes, sceneCount, nodes, nodeCount, materials, materialCount,
      meshes, meshCount, textures, textureCount, samplers, samplerCount, images, imageCount,
      buffers, bufferCount, bufferViews, bufferViewCount, accessors, accessorCount);
  }

  /** The text entry point's pass over the images. */
  method ResolveTextImages(model: GltfModel)
    requires model.Valid()
    modifies model.images
    ensures model.images != null ==> model.images[..] == ResolvedImages(old(model.images[..]))
  {
    var images := model.images;
    var i := 0;
    while i < model.imageCount
      invariant 0 <= i <= model.imageCount
      invariant images != null ==>
        images[..i] == ResolvedImages(old(images[..]))[..i] && images[i..] == old(images[..])[i..]
    {
      var image := images[i];
      if IsDataUri(image.uri) {
        image := image.(embedded := true);
        var decoded := DecodeDataUri(image.data, "", image.uri, 0, false);
        image := image.(data := decoded.out);
      } else {
        image := image.(embedded := false);
      }
      assert image == ResolvedImage(old(images[..])[i]);
      images[i] := image;
      i := i + 1;
    }
    if images != null {
      assert images[..] == images[..i];
    }
  }

  /** The text entry point's pass over the buffers. */
  method ResolveTextBuffers(model: GltfModel, files: map<string, seq<byte>>)
    requires model.Valid()
    modifies model.buffers
    ensures model.buffers != null ==>
      model.buffers[..] == ResolvedBuffers(old(model.buffers[..]), model.root, files)
  {
    var buffers := model.buffers;
    var i := 0;
    while i < model.bufferCount
      invariant 0 <= i <= model.bufferCount
      invariant buffers != null ==>
        buffers[..i] == ResolvedBuffers(old(buffers[..]), model.root, files)[..i]
        && buffers[i..] == old(buffers[..])[i..]
    {
      var buffer := ResolveBuffer(buffers[i], model.root, files);
      buffers[i] := buffer;
      i := i + 1;
    }
    if buffers != null {
      assert buffers[..] == buffers[..i];
    }
  }

  /** The binary entry point's copy of the binary chunk, which starts at
      `start` of `data`, into the first buffer: `byteLength` bytes, as the
      buffer declares, whatever the chunk's own length. */
  method LoadBinaryChunk(model: GltfModel, data: seq<byte>, start: nat)
    requires model.Valid() && model.buffers != null && model.bufferCount > 0
    requires 0 <= model.buffers[0].byteLength && start + model.buffers[0].byteLength <= |data|
    modifies model.buffers
    ensures model.buffers[..] == old(model.buffers[..])[0 := ChunkBuffer(old(model.buffers[0]), data, start)]
  {
    var buffer := model.buffers[0];
    buffer := buffer.(data := data[start..start + buffer.byteLength]);
    model.buffers[0] := buffer;
  }

  /** The binary entry point's pass over the images. */
  method ResolveGlbImages(model: GltfModel)
    requires model.Valid()
    requires model.images != null ==> ImagesReadable(model.images[..], model.ViewsNow(), model.BuffersNow())
    modifies model.images
    ensures model.images != null ==>
      model.images[..] == GlbImages(old(model.images[..]), model.ViewsNow(), model.BuffersNow())
  {
    var images := model.images;
    ghost var views := model.ViewsNow();
    ghost var bufs := model.BuffersNow();
    var i := 0;
    while i < model.imageCount
      invariant 0 <= i <= model.imageCount
      invariant views == model.ViewsNow() && bufs == model.BuffersNow()
      invariant images != null ==>
        images[..i] == GlbImages(old(images[..]), views, bufs)[..i]
        && images[i..] == old(images[..])[i..]
    {
      var image := images[i];
      assert ImageReadable(image, views, bufs) by {
        assert image == old(images[..])[i];
      }
      if image.bufferViewIndex > -1 {
        var view := model.bufferViews[image.bufferViewIndex];
        var raw := model.buffers[view.bufferIndex].data;
        image := image.(embedded := true, data := raw[view.byteOffset..view.byteOffset + view.byteLength]);
      } else if IsDataUri(image.uri) {
        image := image.(embedded := true);
        var decoded := DecodeDataUri(image.data, "", image.uri, 0, false);
        image := image.(data := decoded.out);
      } else {
        image := image.(embedded := false);
      }
      assert image == GlbImage(old(images[..])[i], views, bufs);
      images[i] := image;
      assert images[..i + 1] == images[..i] + [image];
      i := i + 1;
    }
    if images != null {
      assert images[..] == images[..i];
    }
  }

  /** The binary entry point's pass over the buffers: one that already
      holds data is skipped. */
  method ResolveGlbBuffers(model: GltfModel, files: map<string, seq<byte>>)
    requires model.Valid()
    modifies model.buffers
    ensures model.buffers != null ==>
      model.buffers[..] == GlbBuffers(old(model.buffers[..]), model.root, files)
  {
    var buffers := model.buffers;
    var i := 0;
    while i < model.bufferCount
      invariant 0 <= i <= model.bufferCount
      invariant buffers != null ==>
        buffers[..i] == GlbBuffers(old(buffers[..]), model.root, files)[..i]
        && buffers[i..] == old(buffers[..])[i..]
    {
      var buffer := buffers[i];
      if buffer.data == [] {
        buffer := ResolveBuffer(buffer, model.root, files);
        buffers[i] := buffer;
      }
      i := i + 1;
    }
    if buffers != null {
      assert buffers[..] == buffers[..i];
    }
  }

  /** `mvCleanupGLTF(model)`: every array reset to null and every count
      to 0; the root is kept. */
  function Cleanup(model: GltfModel): (r: GltfModel)
    ensures r.Cleared() && r.Valid() && r.root == model.root
  {
    model.(scenes := null, nodes := null, meshes := null, materials := null, textures := null,
      samplers := null, images := null, buffers := null, bufferViews := null, accessors := null,
      sceneCount := 0, nodeCount := 0, meshCount := 0, materialCount := 0, textureCount := 0,
      samplerCount := 0, imageCount := 0, bufferCount := 0, bufferViewCount := 0, accessorCount := 0)
  }

  // ---------------------------------------------------------------------
  // What the entry points do to images and buffers
  // ---------------------------------------------------------------------

  /** One image after the text entry point: a data URI is decoded into
      `data` (left as it was when decoding fails) and marks the image
      embedded; any other URI only marks it not embedded. */
  function ResolvedImage(img: Image): Image {
    if IsDataUri(img.uri) then
      img.(embedded := true, data := DecodeDataUri(img.data, "", img.uri, 0, false).out)
    else
      img.(embedded := false)
  }

  function ResolvedImages(imgs: seq<Image>): (r: seq<Image>)
    ensures |r| == |imgs|
  {
    seq(|imgs|, k requires 0 <= k < |imgs| => ResolvedImage(imgs[k]))
  }

  /** One buffer after the text entry point: a data URI must decode to
      exactly `byteLength` bytes to replace `data`; any other URI names a
      file under `root`, read whole. */
  function ResolvedBuffer(buf: Buffer, root: string, files: map<string, seq<byte>>): Buffer {
    if IsDataUri(buf.uri) then
      buf.(data := DecodeDataUri(buf.data, "", buf.uri, buf.byteLength, true).out)
    else
      buf.(data := ReadFile(files, root + buf.uri))
  }

  function ResolvedBuffers(bufs: seq<Buffer>, root: string, files: map<string, seq<byte>>): (r: seq<Buffer>)
    ensures |r| == |bufs|
  {
    seq(|bufs|, k requires 0 <= k < |bufs| => ResolvedBuffer(bufs[k], root, files))
  }

  /** The loop body both entry points share for a buffer they load. */
  method ResolveBuffer(buf: Buffer, root: string, files: map<string, seq<byte>>) returns (buf': Buffer)
    ensures buf' == ResolvedBuffer(buf, root, files)
  {
    buf' := buf;
    if IsDataUri(buf'.uri) {
      var decoded := DecodeDataUri(buf'.data, "", buf'.uri, buf'.byteLength, true);
      buf' := buf'.(data := decoded.out);
    } else {
      var combinedFile := root + buf'.uri;
      var data := ReadFile(files, combinedFile);
      buf' := buf'.(data := data);
    }
  }

  /** The first buffer after the binary chunk is copied in. */
  function ChunkBuffer(buf: Buffer, data: seq<byte>, start: nat): Buffer
    requires 0 <= buf.byteLength && start + buf.byteLength <= |data|
  {
    buf.(data := data[start..start + buf.byteLength])
  }

  /** An image that names a buffer view needs the view to exist and to lie
      inside an existing buffer's data. */
  predicate ImageReadable(img: Image, views: seq<BufferView>, bufs: seq<Buffer>) {
    img.bufferViewIndex > -1 ==>
      img.bufferViewIndex < |views|
      && var view := views[img.bufferViewIndex];
      0 <= view.bufferIndex < |bufs| && 0 <= view.byteOffset && 0 <= view.byteLength
      && view.byteOffset + view.byteLength <= |bufs[view.bufferIndex].data|
  }

  predicate ImagesReadable(imgs: seq<Image>, views: seq<BufferView>, bufs: seq<Buffer>) {
    forall k :: 0 <= k < |imgs| ==> ImageReadable(imgs[k], views, bufs)
  }

  /** One image after the binary entry point: one that names a buffer view
      takes the view's bytes and is embedded; any other is treated as by the
      text entry point. */
  function GlbImage(img: Image, views: seq<BufferView>, bufs: seq<Buffer>): Image
    requires ImageReadable(img, views, bufs)
  {
    if img.bufferViewIndex > -1 then
      var view := views[img.bufferViewIndex];
      img.(embedded := true, data := bufs[view.bufferIndex].data[view.byteOffset..view.byteOffset + view.byteLength])
    else
      ResolvedImage(img)
  }

  function GlbImages(imgs: seq<Image>, views: seq<BufferView>, bufs: seq<Buffer>): (r: seq<Image>)
    requires ImagesReadable(imgs, views, bufs)
    ensures |r| == |imgs|
  {
    seq(|imgs|, k requires 0 <= k < |imgs| => GlbImage(imgs[k], views, bufs))
  }

  /** One buffer after the binary entry point: kept when it holds data,
      else treated as by the text entry point. */
  function GlbBuffer(buf: Buffer, root: string, files: map<string, seq<byte>>): Buffer {
    if buf.data != [] then buf else ResolvedBuffer(buf, root, files)
  }

  function GlbBuffers(bufs: seq<Buffer>, root: string, files: map<string, seq<byte>>): (r: seq<Buffer>)
    ensures |r| == |bufs|
  {
    seq(|bufs|, k requires 0 <= k < |bufs| => GlbBuffer(bufs[k], root, files))
  }

  // ---------------------------------------------------------------------
  // The text entry point
  // ---------------------------------------------------------------------

  /** Both passes of the text entry point over a loaded model. */
  method ResolveText(model: GltfModel, files: map<string, seq<byte>>)
    requires model.Valid()
    modifies model.images, model.buffers
    ensures model.images != null ==> model.images[..] == ResolvedImages(old(model.images[..]))
    ensures model.buffers != null ==>
      model.buffers[..] == ResolvedBuffers(old(model.buffers[..]), model.root, files)
  {
    ResolveTextImages(model);
    ResolveTextBuffers(model, files);
  }

  /** The text entry point once the document is parsed: the ten loaders,
      then the passes over the images and the buffers. */
  method LoadTextDocument(root: string, doc: Document, ds: Defaults, files: map<string, seq<byte>>)
    returns (model: GltfModel)
    requires EmptyLists(ds)
    ensures model.Valid() && model.root == root
    ensures
      Shows(doc, "scenes", model.scenes, model.sceneCount, ScenesOf(doc, ds.scene))
      && Shows(doc, "nodes", model.nodes, model.nodeCount, NodesOf(doc, ds.node))
      && Shows(doc, "materials", model.materials, model.materialCount, MaterialsOf(doc, ds.material))
      && Shows(doc, "meshes", model.meshes, model.meshCount, MeshesOf(doc, ds.mesh, ds.primitive))
      && Shows(doc, "textures", model.textures, model.textureCount, TexturesOf(doc, ds.texture))
      && Shows(doc, "samplers", model.samplers, model.samplerCount, SamplersOf(doc, ds.sampler))
      && Shows(doc, "images", model.images, model.imageCount, ResolvedImages(ImagesOf(doc, ds.image)))
      && Shows(doc, "buffers", model.buffers, model.bufferCount, ResolvedBuffers(BuffersOf(doc, ds.buffer), root, files))
      && Shows(doc, "bufferViews", model.bufferViews, model.bufferViewCount, BufferViewsOf(doc, ds.bufferView))
      && Shows(doc, "accessors", model.accessors, model.accessorCount, AccessorsOf(doc, ds.accessor))
  {
    model := LoadAssets(root, doc, ds);
    ResolveTextLoaded(model, doc, ds, files);
  }

  /** The text entry point's passes on a model loaded from `doc`: the
      eight arrays other than images and buffers stay as loaded. */
  method ResolveTextLoaded(model: GltfModel, doc: Document, ds: Defaults, files: map<string, seq<byte>>)
    requires model.Valid()
    requires
      Shows(doc, "scenes", model.scenes, model.sceneCount, ScenesOf(doc, ds.scene))
      && Shows(doc, "nodes", model.nodes, model.nodeCount, NodesOf(doc, ds.node))
      && Shows(doc, "materials", model.materials, model.materialCount, MaterialsOf(doc, ds.material))
      && Shows(doc, "meshes", model.meshes, model.meshCount, MeshesOf(doc, ds.mesh, ds.primitive))
      && Shows(doc, "textures", model.textures, model.textureCount, TexturesOf(doc, ds.texture))
      && Shows(doc, "samplers", model.samplers, model.samplerCount, SamplersOf(doc, ds.sampler))
      && Shows(doc, "bufferViews", model.bufferViews, model.bufferViewCount, BufferViewsOf(doc, ds.bufferView))
      && Shows(doc, "accessors", model.accessors, model.accessorCount, AccessorsOf(doc, ds.accessor))
    modifies model.images, model.buffers
    ensures
      Shows(doc, "scenes", model.scenes, model.sceneCount, ScenesOf(doc, ds.scene))
      && Shows(doc, "nodes", model.nodes, model.nodeCount, NodesOf(doc, ds.node))
      && Shows(doc, "materials", model.materials, model.materialCount, MaterialsOf(doc, ds.material))
      && Shows(doc, "meshes", model.meshes, model.meshCount, MeshesOf(doc, ds.mesh, ds.primitive))
      && Shows(doc, "textures", model.textures, model.textureCount, TexturesOf(doc, ds.texture))
      && Shows(doc, "samplers", model.samplers, model.samplerCount, SamplersOf(doc, ds.sampler))
      && Shows(doc, "bufferViews", model.bufferViews, model.bufferViewCount, BufferViewsOf(doc, ds.bufferView))
      && Shows(doc, "accessors", model.accessors, model.accessorCount, AccessorsOf(doc, ds.accessor))
    ensures model.images != null ==> model.images[..] == ResolvedImages(old(model.images[..]))
    ensures model.buffers != null ==>
      model.buffers[..] == ResolvedBuffers(old(model.buffers[..]), model.root, files)
  {
    ResolveText(model, files);
  }

  /** What `mvLoadGLTF(root, file)` needs: a file that is missing or empty,
      or whose text `ParseJSON` accepts. */
  predicate TextReady(files: map<string, seq<byte>>, file: string, ds: Defaults) {
    EmptyLists(ds) && (ReadFile(files, file) != [] ==> ParseText(Chars(ReadFile(files, file))).Some?)
  }

  /** `mvLoadGLTF(root, file)`. */
  method LoadGltfText(root: string, file: string, files: map<string, seq<byte>>, ds: Defaults)
    returns (model: GltfModel)
    requires TextReady(files, file, ds)
    ensures model.Valid() && model.root == root
    ensures ReadFile(files, file) == [] ==> model.Cleared()
    ensures ReadFile(files, file) != [] ==>
      var doc := ParseText(Chars(ReadFile(files, file))).value;
      Shows(doc, "scenes", model.scenes, model.sceneCount, ScenesOf(doc, ds.scene))
      && Shows(doc, "nodes", model.nodes, model.nodeCount, NodesOf(doc, ds.node))
      && Shows(doc, "materials", model.materials, model.materialCount, MaterialsOf(doc, ds.material))
      && Shows(doc, "meshes", model.meshes, model.meshCount, MeshesOf(doc, ds.mesh, ds.primitive))
      && Shows(doc, "textures", model.textures, model.textureCount, TexturesOf(doc, ds.texture))
      && Shows(doc, "samplers", model.samplers, model.samplerCount, SamplersOf(doc, ds.sampler))
      && Shows(doc, "images", model.images, model.imageCount, ResolvedImages(ImagesOf(doc, ds.image)))
      && Shows(doc, "buffers", model.buffers, model.bufferCount, ResolvedBuffers(BuffersOf(doc, ds.buffer), root, files))
      && Shows(doc, "bufferViews", model.bufferViews, model.bufferViewCount, BufferViewsOf(doc, ds.bufferView))
      && Shows(doc, "accessors", model.accessors, model.accessorCount, AccessorsOf(doc, ds.accessor))
  {
    model := EmptyModel(root);
    var data := ReadFile(files, file);
    if |data| == 0 {
      return;
    }
    var text := CharBuffer(data, 0, |data|);
    assert data[0..|data|] == data;
    var context := ParseJson(text, |data|);
    var doc := Document(context.jsonObjects, context.primitiveValues);
    model := LoadTextDocument(root, doc, ds, files);
  }

  // ---------------------------------------------------------------------
  // The binary entry point
  // ---------------------------------------------------------------------

  /** The header: `length` at offset 8 and the JSON chunk's length at 12. */
  function TotalLength(bs: seq<byte>): nat
    requires 20 <= |bs|
  {
    ReadU32(bs, 8)
  }

  function JsonLength(bs: seq<byte>): nat
    requires 20 <= |bs|
  {
    ReadU32(bs, 12)
  }

  /** The JSON chunk's text, from offset 20. */
  predicate JsonChunkFits(bs: seq<byte>) {
    20 <= |bs| && 0 < JsonLength(bs) && 20 + JsonLength(bs) <= |bs|
  }

  function JsonChunk(bs: seq<byte>): seq<char>
    requires JsonChunkFits(bs)
  {
    Chars(bs[20..20 + JsonLength(bs)])
  }

  /** The second chunk is read exactly when the 32-bit sum
      `chunkLength + 20` differs from the declared total length. */
  predicate HasBinaryChunk(bs: seq<byte>)
    requires 20 <= |bs|
  {
    U32Of(JsonLength(bs) + 20) != TotalLength(bs)
  }

  /** The buffers after the binary chunk is copied into the first one. */
  function ChunkedBuffers(bs: seq<byte>, bufs: seq<Buffer>): seq<Buffer>
    requires 20 <= |bs|
    requires HasBinaryChunk(bs) ==>
      |bufs| > 0 && 0 <= bufs[0].byteLength && 28 + JsonLength(bs) + bufs[0].byteLength <= |bs|
  {
    if HasBinaryChunk(bs) then bufs[0 := ChunkBuffer(bufs[0], bs, 28 + JsonLength(bs))] else bufs
  }

  /** The document's buffers, images and views as the entry point sees
      them. */
  function BuffersIn(doc: Document, ds: Defaults): seq<Buffer> {
    Present(doc, "buffers", BuffersOf(doc, ds.buffer))
  }

  function ImagesIn(doc: Document, ds: Defaults): seq<Image> {
    Present(doc, "images", ImagesOf(doc, ds.image))
  }

  function ViewsIn(doc: Document, ds: Defaults): seq<BufferView> {
    Present(doc, "bufferViews", BufferViewsOf(doc, ds.bufferView))
  }

  /** What `mvLoadGLTF(file)` needs: a header, a JSON chunk `ParseJSON`
      accepts, a first buffer that the binary chunk can fill when there is
      one, and images whose buffer views lie inside their buffers. */
  predicate GlbReady(bs: seq<byte>, ds: Defaults) {
    EmptyLists(ds) && JsonChunkFits(bs) && ParseText(JsonChunk(bs)).Some?
    && ChunkFits(bs, ParseText(JsonChunk(bs)).value, ds)
    && ImagesFit(bs, ParseText(JsonChunk(bs)).value, ds)
  }

  /** The first buffer the document declares can take the binary chunk
      when there is one. */
  predicate ChunkFits(bs: seq<byte>, doc: Document, ds: Defaults)
    requires 20 <= |bs|
  {
    var bufs := BuffersIn(doc, ds);
    HasBinaryChunk(bs) ==>
      |bufs| > 0 && 0 <= bufs[0].byteLength && 28 + JsonLength(bs) + bufs[0].byteLength <= |bs|
  }

  /** Every image that names a buffer view can be read from the buffers
      once the binary chunk is in. */
  predicate ImagesFit(bs: seq<byte>, doc: Document, ds: Defaults)
    requires 20 <= |bs| && ChunkFits(bs, doc, ds)
  {
    ImagesReadable(ImagesIn(doc, ds), ViewsIn(doc, ds), ChunkedBuffers(bs, BuffersIn(doc, ds)))
  }

  /** The ten loaders of the binary entry point, then the copy of the
      binary chunk into the first buffer when the header says there is
      one. */
  method LoadGlbAssets(bs: seq<byte>, doc: Document, ds: Defaults) returns (model: GltfModel)
    requires EmptyLists(ds) && 20 <= |bs| && ChunkFits(bs, doc, ds)
    ensures model.Valid() && model.root == ""
    ensures
      Shows(doc, "scenes", model.scenes, model.sceneCount, ScenesOf(doc, ds.scene))
      && Shows(doc, "nodes", model.nodes, model.nodeCount, NodesOf(doc, ds.node))
      && Shows(doc, "materials", model.materials, model.materialCount, MaterialsOf(doc, ds.material))
      && Shows(doc, "meshes", model.meshes, model.meshCount, MeshesOf(doc, ds.mesh, ds.primitive))
      && Shows(doc, "textures", model.textures, model.textureCount, TexturesOf(doc, ds.texture))
      && Shows(doc, "samplers", model.samplers, model.samplerCount, SamplersOf(doc, ds.sampler))
      && Shows(doc, "bufferViews", model.bufferViews, model.bufferViewCount, BufferViewsOf(doc, ds.bufferView))
      && Shows(doc, "accessors", model.accessors, model.accessorCount, AccessorsOf(doc, ds.accessor))
      && Shows(doc, "images", model.images, model.imageCount, ImagesOf(doc, ds.image))
      && Shows(doc, "buffers", model.buffers, model.bufferCount, ChunkedBuffers(bs, BuffersIn(doc, ds)))
    ensures model.images != null ==> fresh(model.images)
    ensures model.buffers != null ==> fresh(model.buffers)
  {
    model := LoadAssets("", doc, ds);
    if U32Of(JsonLength(bs) + 20) != TotalLength(bs) {
      var dataChunkLength := ReadU32(bs, 20 + JsonLength(bs));
      var dataChunkType := ReadU32(bs, 24 + JsonLength(bs));
      CopyBinaryChunk(model, doc, ds, bs, 28 + JsonLength(bs));
    }
  }

  /** The copy of the binary chunk on a model loaded from `doc`: the
      eight arrays other than images and buffers stay as loaded, and so do
      the images. */
  method CopyBinaryChunk(model: GltfModel, doc: Document, ds: Defaults, bs: seq<byte>, start: nat)
    requires model.Valid() && model.buffers != null && model.bufferCount > 0
    requires 0 <= model.buffers[0].byteLength && start + model.buffers[0].byteLength <= |bs|
    requires
      Shows(doc, "scenes", model.scenes, model.sceneCount, ScenesOf(doc, ds.scene))
      && Shows(doc, "nodes", model.nodes, model.nodeCount, NodesOf(doc, ds.node))
      && Shows(doc, "materials", model.materials, model.materialCount, MaterialsOf(doc, ds.material))
      && Shows(doc, "meshes", model.meshes, model.meshCount, MeshesOf(doc, ds.mesh, ds.primitive))
      && Shows(doc, "textures", model.textures, model.textureCount, TexturesOf(doc, ds.texture))
      && Shows(doc, "samplers", model.samplers, model.samplerCount, SamplersOf(doc, ds.sampler))
      && Shows(doc, "bufferViews", model.bufferViews, model.bufferViewCount, BufferViewsOf(doc, ds.bufferView))
      && Shows(doc, "accessors", model.accessors, model.accessorCount, AccessorsOf(doc, ds.accessor))
    modifies model.buffers
    ensures
      Shows(doc, "scenes", model.scenes, model.sceneCount, ScenesOf(doc, ds.scene))
      && Shows(doc, "nodes", model.nodes, model.nodeCount, NodesOf(doc, ds.node))
      && Shows(doc, "materials", model.materials, model.materialCount, MaterialsOf(doc, ds.material))
      && Shows(doc, "meshes", model.meshes, model.meshCount, MeshesOf(doc, ds.mesh, ds.primitive))
      && Shows(doc, "textures", model.textures, model.textureCount, TexturesOf(doc, ds.texture))
      && Shows(doc, "samplers", model.samplers, model.samplerCount, SamplersOf(doc, ds.sampler))
      && Shows(doc, "bufferViews", model.bufferViews, model.bufferViewCount, BufferViewsOf(doc, ds.bufferView))
      && Shows(doc, "accessors", model.accessors, model.accessorCount, AccessorsOf(doc, ds.accessor))
    ensures model.images != null ==> model.images[..] == old(model.images[..])
    ensures model.buffers[..] == old(model.buffers[..])[0 := ChunkBuffer(old(model.buffers[0]), bs, start)]
  {
    LoadBinaryChunk(model, bs, start);
  }

  /** Both passes of the binary entry point over a loaded model; images
      read the buffers as they are before the buffer pass. */
  method ResolveGlb(model: GltfModel, files: map<string, seq<byte>>)
    requires model.Valid()
    requires model.images != null ==> ImagesReadable(model.images[..], model.ViewsNow(), model.BuffersNow())
    modifies model.images, model.buffers
    ensures model.images != null ==>
      model.images[..] == GlbImages(old(model.images[..]), old(model.ViewsNow()), old(model.BuffersNow()))
    ensures model.buffers != null ==>
      model.buffers[..] == GlbBuffers(old(model.buffers[..]), model.root, files)
  {
    ResolveGlbImages(model);
    ResolveGlbBuffers(model, files);
  }

  /** The binary entry point's passes on a model loaded from `doc`: the
      eight arrays other than images and buffers stay as loaded. */
  method ResolveGlbLoaded(model: GltfModel, doc: Document, ds: Defaults, files: map<string, seq<byte>>)
    requires model.Valid()
    requires model.images != null ==> ImagesReadable(model.images[..], model.ViewsNow(), model.BuffersNow())
    requires
      Shows(doc, "scenes", model.scenes, model.sceneCount, ScenesOf(doc, ds.scene))
      && Shows(doc, "nodes", model.nodes, model.nodeCount, NodesOf(doc, ds.node))
      && Shows(doc, "materials", model.materials, model.materialCount, MaterialsOf(doc, ds.material))
      && Shows(doc, "meshes", model.meshes, model.meshCount, MeshesOf(doc, ds.mesh, ds.primitive))
      && Shows(doc, "textures", model.textures, model.textureCount, TexturesOf(doc, ds.texture))
      && Shows(doc, "samplers", model.samplers, model.samplerCount, SamplersOf(doc, ds.sampler))
      && Shows(doc, "bufferViews", model.bufferViews, model.bufferViewCount, BufferViewsOf(doc, ds.bufferView))
      && Shows(doc, "accessors", model.accessors, model.accessorCount, AccessorsOf(doc, ds.accessor))
    modifies model.images, model.buffers
    ensures
      Shows(doc, "scenes", model.scenes, model.sceneCount, ScenesOf(doc, ds.scene))
      && Shows(doc, "nodes", model.nodes, model.nodeCount, NodesOf(doc, ds.node))
      && Shows(doc, "materials", model.materials, model.materialCount, MaterialsOf(doc, ds.material))
      && Shows(doc, "meshes", model.meshes, model.meshCount, MeshesOf(doc, ds.mesh, ds.primitive))
      && Shows(doc, "textures", model.textures, model.textureCount, TexturesOf(doc, ds.texture))
      && Shows(doc, "samplers", model.samplers, model.samplerCount, SamplersOf(doc, ds.sampler))
      && Shows(doc, "bufferViews", model.bufferViews, model.bufferViewCount, BufferViewsOf(doc, ds.bufferView))
      && Shows(doc, "accessors", model.accessors, model.accessorCount, AccessorsOf(doc, ds.accessor))
    ensures model.images != null ==>
      model.images[..] == GlbImages(old(model.images[..]), old(model.ViewsNow()), old(model.BuffersNow()))
    ensures model.buffers != null ==>
      model.buffers[..] == GlbBuffers(old(model.buffers[..]), model.root, files)
  {
    ResolveGlb(model, files);
  }

  /** The binary entry point once the JSON chunk is parsed. */
  method LoadGlbDocument(bs: seq<byte>, doc: Document, ds: Defaults, files: map<string, seq<byte>>)
    returns (model: GltfModel)
    requires EmptyLists(ds) && 20 <= |bs| && ChunkFits(bs, doc, ds) && ImagesFit(bs, doc, ds)
    ensures model.Valid() && model.root == ""
    ensures
      var bufs := ChunkedBuffers(bs, BuffersIn(doc, ds));
      Shows(doc, "scenes", model.scenes, model.sceneCount, ScenesOf(doc, ds.scene))
      && Shows(doc, "nodes", model.nodes, model.nodeCount, NodesOf(doc, ds.node))
      && Shows(doc, "materials", model.materials, model.materialCount, MaterialsOf(doc, ds.material))
      && Shows(doc, "meshes", model.meshes, model.meshCount, MeshesOf(doc, ds.mesh, ds.primitive))
      && Shows(doc, "textures", model.textures, model.textureCount, TexturesOf(doc, ds.texture))
      && Shows(doc, "samplers", model.samplers, model.samplerCount, SamplersOf(doc, ds.sampler))
      && Shows(doc, "images", model.images, model.imageCount, GlbImages(ImagesIn(doc, ds), ViewsIn(doc, ds), bufs))
      && Shows(doc, "buffers", model.buffers, model.bufferCount, GlbBuffers(bufs, "", files))
      && Shows(doc, "bufferViews", model.bufferViews, model.bufferViewCount, BufferViewsOf(doc, ds.bufferView))
      && Shows(doc, "accessors", model.accessors, model.accessorCount, AccessorsOf(doc, ds.accessor))
  {
    model := LoadGlbAssets(bs, doc, ds);
    assert model.ViewsNow() == ViewsIn(doc, ds);
    assert model.BuffersNow() == ChunkedBuffers(bs, BuffersIn(doc, ds));
    assert model.images != null ==> model.images[..] == ImagesIn(doc, ds);
    ResolveGlbLoaded(model, doc, ds, files);
  }

  /** The header and the JSON chunk: the text from offset 20, copied into
      a buffer of its own and parsed. The magic number, the version and the
      chunk type are read but never checked. */
  method ParseJsonChunk(data: seq<byte>) returns (doc: Document)
    requires JsonChunkFits(data) && ParseText(JsonChunk(data)).Some?
    ensures doc == ParseText(JsonChunk(data)).value
  {
    var magic := ReadU32(data, 0);
    var version := ReadU32(data, 4);
    var length := ReadU32(data, 8);
    var chunkLength := ReadU32(data, 12);
    var chunkType := ReadU32(data, 16);
    var chunkData := CharBuffer(data, 20, chunkLength);
    var context := ParseJson(chunkData, chunkLength);
    doc := Document(context.jsonObjects, context.primitiveValues);
  }

  /** `mvLoadGLTF(file)`: the model's root stays empty, so buffers named by
      a URI are read from the URI itself. */
  method LoadGltfBinary(file: string, files: map<string, seq<byte>>, ds: Defaults) returns (model: GltfModel)
    requires GlbReady(ReadFile(files, file), ds)
    ensures model.Valid() && model.root == ""
    ensures
      var bs := ReadFile(files, file);
      var doc := ParseText(JsonChunk(bs)).value;
      var bufs := ChunkedBuffers(bs, BuffersIn(doc, ds));
      Shows(doc, "scenes", model.scenes, model.sceneCount, ScenesOf(doc, ds.scene))
      && Shows(doc, "nodes", model.nodes, model.nodeCount, NodesOf(doc, ds.node))
      && Shows(doc, "materials", model.materials, model.materialCount, MaterialsOf(doc, ds.material))
      && Shows(doc, "meshes", model.meshes, model.meshCount, MeshesOf(doc, ds.mesh, ds.primitive))
      && Shows(doc, "textures", model.textures, model.textureCount, TexturesOf(doc, ds.texture))
      && Shows(doc, "samplers", model.samplers, model.samplerCount, SamplersOf(doc, ds.sampler))
      && Shows(doc, "images", model.images, model.imageCount, GlbImages(ImagesIn(doc, ds), ViewsIn(doc, ds), bufs))
      && Shows(doc, "buffers", model.buffers, model.bufferCount, GlbBuffers(bufs, "", files))
      && Shows(doc, "bufferViews", model.bufferViews, model.bufferViewCount, BufferViewsOf(doc, ds.bufferView))
      && Shows(doc, "accessors", model.accessors, model.accessorCount, AccessorsOf(doc, ds.accessor))
  {
    var data := ReadFile(files, file);
    var doc := ParseJsonChunk(data);
    model := LoadGlbDocument(data, doc, ds, files);
  }

  // ---------------------------------------------------------------------
  // Properties
  // ---------------------------------------------------------------------

  /** The text entry point marks an image embedded exactly when its URI is
      a data URI; the decoded payload replaces `data` when it is not empty,
      and nothing else about the image changes. */
  lemma ResolvedImageMeans(img: Image)
    ensures ResolvedImage(img).embedded <==> IsDataUri(img.uri)
    ensures ResolvedImage(img).uri == img.uri && ResolvedImage(img).mimeType == img.mimeType
    ensures ResolvedImage(img).bufferViewIndex == img.bufferViewIndex
    ensures !IsDataUri(img.uri) ==> ResolvedImage(img).data == img.data
    ensures IsDataUri(img.uri) ==>
      var payload := Decode(Payload(Headers, img.uri, MatchedHeader(img.uri).value));
      ResolvedImage(img).data == if payload != [] then payload else img.data
  {
  }

  /** A data-URI buffer takes the decoded payload only when it has exactly
      `byteLength` bytes; any other buffer takes the whole file at
      `root + uri`, or nothing when there is no such file. */
  lemma ResolvedBufferMeans(buf: Buffer, root: string, files: map<string, seq<byte>>)
    ensures ResolvedBuffer(buf, root, files).uri == buf.uri
    ensures ResolvedBuffer(buf, root, files).byteLength == buf.byteLength
    ensures IsDataUri(buf.uri) ==>
      var payload := Decode(Payload(Headers, buf.uri, MatchedHeader(buf.uri).value));
      ResolvedBuffer(buf, root, files).data ==
        if payload != [] && |payload| == buf.byteLength then payload else buf.data
    ensures !IsDataUri(buf.uri) && root + buf.uri in files ==>
      ResolvedBuffer(buf, root, files).data == files[root + buf.uri]
    ensures !IsDataUri(buf.uri) && root + buf.uri !in files ==>
      ResolvedBuffer(buf, root, files).data == []
  {
  }

  /** An image that names a buffer view receives exactly the view's
      `byteLength` bytes from `byteOffset` of the view's buffer. */
  lemma GlbImageFromView(img: Image, views: seq<BufferView>, bufs: seq<Buffer>)
    requires ImageReadable(img, views, bufs) && img.bufferViewIndex > -1
    ensures GlbImage(img, views, bufs).embedded
    ensures
      var view := views[img.bufferViewIndex];
      var out := GlbImage(img, views, bufs).data;
      |out| == view.byteLength
      && forall k :: 0 <= k < |out| ==> out[k] == bufs[view.bufferIndex].data[view.byteOffset + k]
  {
  }

  /** `mvCleanupGLTF` leaves every array released and every count 0, so a
      second call changes nothing. */
  lemma CleanupTwice(model: GltfModel)
    ensures Cleanup(Cleanup(model)) == Cleanup(model)
    ensures Cleanup(model) == EmptyModel(model.root)
  {
  }

  /** The binary entry point leaves a buffer that already holds data
      alone, and resolving twice is resolving once. */
  lemma GlbBufferKeepsData(buf: Buffer, root: string, files: map<string, seq<byte>>)
    ensures buf.data != [] ==> GlbBuffer(buf, root, files) == buf
    ensures GlbBuffer(GlbBuffer(buf, root, files), root, files) == GlbBuffer(buf, root, files)
  {
    if buf.data == [] {
      var once := ResolvedBuffer(buf, root, files);
      if once.data == [] {
        assert once == buf.(data := []);
      }
    }
  }

  /** With the binary chunk, the first buffer holds `byteLength` bytes
      from offset `28 + chunkLength`; without it the buffers are as the
      JSON chunk declares them. */
  lemma BinaryChunkCopied(bs: seq<byte>, bufs: seq<Buffer>)
    requires 20 <= |bs|
    requires HasBinaryChunk(bs) ==>
      |bufs| > 0 && 0 <= bufs[0].byteLength && 28 + JsonLength(bs) + bufs[0].byteLength <= |bs|
    ensures |ChunkedBuffers(bs, bufs)| == |bufs|
    ensures !HasBinaryChunk(bs) ==> ChunkedBuffers(bs, bufs) == bufs
    ensures HasBinaryChunk(bs) ==>
      var first := ChunkedBuffers(bs, bufs)[0];
      |first.data| == bufs[0].byteLength
      && first.uri == bufs[0].uri && first.byteLength == bufs[0].byteLength
      && (forall k :: 0 <= k < |first.data| ==> first.data[k] == bs[28 + JsonLength(bs) + k])
      && ChunkedBuffers(bs, bufs)[1..] == bufs[1..]
  {
  }

  /** The two length fields of a header written from `total` and `json`
      read back as written. */
  lemma HeaderLengths(total: nat, json: nat, before: seq<byte>, after: seq<byte>)
    requires total < U32_MODULUS && json < U32_MODULUS && |before| == 8 && 4 <= |after|
    ensures var bs := before + U32Bytes(total) + U32Bytes(json) + after;
      TotalLength(bs) == total && JsonLength(bs) == json
  {
    var head := U32Bytes(total);
    var chunk := U32Bytes(json);
    var bs := before + head + chunk + after;
    assert TotalLength(bs) == total by {
      U32RoundTrip(total, before, chunk + after);
      assert before + head + (chunk + after) == bs;
    }
    assert JsonLength(bs) == json by {
      U32RoundTrip(json, before + head, after);
    }
  }

  /** A header whose length field is the JSON chunk's length plus 20 has
      no binary chunk. */
  lemma NoBinaryChunk(json: nat, before: seq<byte>, after: seq<byte>)
    requires json + 20 < U32_MODULUS && |before| == 8 && 4 <= |after|
    ensures !HasBinaryChunk(before + U32Bytes(json + 20) + U32Bytes(json) + after)
  {
    HeaderLengths(json + 20, json, before, after);
  }

}
