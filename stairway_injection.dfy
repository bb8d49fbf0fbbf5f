/**
 * Start-up injection of the stairways module into Foundry's configuration
 * (stairways/src/injection.js): the canvas layer list gains a `stairways`
 * layer right after `walls`, the `Stairway` embedded name resolves to that
 * layer, the scene schema gains a `stairways` field once, and each loaded
 * scene gets a copy of the stairways kept in its flags.
 *
 * A JavaScript object with insertion-ordered keys is modelled as a sequence
 * of (key, value) pairs; assigning a property replaces the value in place
 * when the key exists and appends the pair otherwise.
 */
module StairwayInjection {
  import opened Wrappers
  import opened StairwayDocuments

  /** A canvas layer configuration entry: its layer class and its group. */
  datatype LayerConfig = LayerConfig(layerClass: string, group: string)

  type Layers = seq<(string, LayerConfig)>

  const WALLS_KEY: string := "walls"
  const STAIRWAYS_KEY: string := "stairways"
  const STAIRWAY_LAYER: LayerConfig := LayerConfig("StairwayLayer", "interface")

  /** `k in layers`: some entry has key `k`. */
  predicate HasKey(layers: Layers, k: string) {
    exists i :: 0 <= i < |layers| && layers[i].0 == k
  }

  predicate UniqueKeys(layers: Layers) {
    forall i, j :: 0 <= i < j < |layers| ==> layers[i].0 != layers[j].0
  }

  lemma HasKeyAppend(a: Layers, b: Layers, k: string)
    ensures HasKey(a + b, k) <==> HasKey(a, k) || HasKey(b, k)
  {
    if HasKey(a + b, k) {
      var i :| 0 <= i < |a + b| && (a + b)[i].0 == k;
      if i >= |a| {
        assert b[i - |a|] == (a + b)[i];
      }
    }
    if HasKey(a, k) {
      var i :| 0 <= i < |a| && a[i].0 == k;
      assert (a + b)[i] == a[i];
    }
    if HasKey(b, k) {
      var i :| 0 <= i < |b| && b[i].0 == k;
      assert (a + b)[|a| + i] == b[i];
    }
  }

  /** Property read `layers[k]`: the value of the first entry with key `k`, if any. */
  function Get(layers: Layers, k: string): (r: Option<LayerConfig>)
    ensures r.None? <==> !HasKey(layers, k)
    ensures r.Some? ==> exists i :: 0 <= i < |layers| && layers[i] == (k, r.value)
  {
    if layers == [] then None
    else if layers[0].0 == k then Some(layers[0].1)
    else
      assert forall i :: 0 <= i < |layers[1..]| ==> layers[1..][i] == layers[i + 1];
      assert HasKey(layers, k) ==> HasKey(layers[1..], k) by {
        if HasKey(layers, k) {
          var i :| 0 <= i < |layers| && layers[i].0 == k;
          assert i > 0 && layers[1..][i - 1] == layers[i];
        }
      }
      Get(layers[1..], k)
  }

  /** Property write `layers[k] = v` on an insertion-ordered object. */
  function Put(layers: Layers, k: string, v: LayerConfig): (r: Layers)
    ensures !HasKey(layers, k) ==> r == layers + [(k, v)]
    ensures HasKey(layers, k) ==> |r| == |layers|
  {
    if layers == [] then [(k, v)]
    else if layers[0].0 == k then [(k, v)] + layers[1..]
    else
      assert layers == [layers[0]] + layers[1..];
      HasKeyAppend([layers[0]], layers[1..], k);
      [layers[0]] + Put(layers[1..], k, v)
  }

  /** Reading back after a write: the written key has the new value, every other key its old one. */
  lemma {:induction false} PutGet(layers: Layers, k: string, v: LayerConfig, k': string)
    ensures Get(Put(layers, k, v), k') == if k' == k then Some(v) else Get(layers, k')
    decreases |layers|
  {
    if layers != [] && layers[0].0 != k {
      PutGet(layers[1..], k, v, k');
      assert Put(layers, k, v)[1..] == Put(layers[1..], k, v);
    }
  }

  /** Writing an existing key keeps every position and key, and changes only that key's value. */
  lemma {:induction false} PutInPlace(layers: Layers, k: string, v: LayerConfig, i: nat)
    requires HasKey(layers, k) && i < |layers|
    ensures Put(layers, k, v)[i].0 == layers[i].0
    ensures layers[i].0 != k ==> Put(layers, k, v)[i] == layers[i]
    decreases |layers|
  {
    if layers[0].0 != k && i > 0 {
      assert layers == [layers[0]] + layers[1..];
      HasKeyAppend([layers[0]], layers[1..], k);
      PutInPlace(layers[1..], k, v, i - 1);
    }
  }

  /** Writing a key adds at most that key. */
  lemma PutKeys(layers: Layers, k: string, v: LayerConfig)
    ensures forall k' :: HasKey(Put(layers, k, v), k') <==> HasKey(layers, k') || k' == k
  {
    forall k'
      ensures HasKey(Put(layers, k, v), k') <==> HasKey(layers, k') || k' == k
    {
      PutGet(layers, k, v, k');
      assert Get(Put(layers, k, v), k').None? <==> !HasKey(Put(layers, k, v), k');
      assert Get(layers, k').None? <==> !HasKey(layers, k');
    }
  }

  /** One step of the `reduce` callback: copy the entry, then add the stairway layer after `walls`. */
  function InjectStep(layers: Layers, entry: (string, LayerConfig)): (r: Layers)
    ensures Get(r, entry.0) == Some(entry.1)
    ensures entry.0 == WALLS_KEY ==> Get(r, STAIRWAYS_KEY) == Some(STAIRWAY_LAYER)
  {
    var copied := Put(layers, entry.0, entry.1);
    PutGet(layers, entry.0, entry.1, entry.0);
    if entry.0 == WALLS_KEY then
      PutGet(copied, STAIRWAYS_KEY, STAIRWAY_LAYER, entry.0);
      PutGet(copied, STAIRWAYS_KEY, STAIRWAY_LAYER, STAIRWAYS_KEY);
      Put(copied, STAIRWAYS_KEY, STAIRWAY_LAYER)
    else copied
  }

  /** The layer list the `reduce` builds from the original one, starting from `{}`. */
  function InjectLayers(orig: Layers): Layers
  {
    if orig == [] then [] else InjectStep(InjectLayers(orig[..|orig| - 1]), orig[|orig| - 1])
  }

  /** The position of `walls` in a layer list, or -1. */
  function WallsIndex(layers: Layers): (r: int)
    ensures -1 <= r < |layers|
    ensures r == -1 <==> !HasKey(layers, WALLS_KEY)
    ensures r >= 0 ==> layers[r].0 == WALLS_KEY
  {
    if layers == [] then -1
    else
      var n := |layers| - 1;
      assert layers == layers[..n] + [layers[n]];
      HasKeyAppend(layers[..n], [layers[n]], WALLS_KEY);
      var r := WallsIndex(layers[..n]);
      if r >= 0 then r
      else if layers[n].0 == WALLS_KEY then n
      else -1
  }

  /** The layer list with the stairway layer spliced in right after `walls`, if `walls` is present. */
  function StairwaysAfterWalls(orig: Layers): Layers {
    var w := WallsIndex(orig);
    if w < 0 then orig else orig[..w + 1] + [(STAIRWAYS_KEY, STAIRWAY_LAYER)] + orig[w + 1..]
  }

  /** Without `walls` nothing is spliced in. */
  lemma StairwaysAfterWallsWithoutWalls(orig: Layers)
    requires !HasKey(orig, WALLS_KEY)
    ensures StairwaysAfterWalls(orig) == orig
  {
  }

  /** With `walls`, exactly one entry is spliced in: the stairway layer, right after `walls`. */
  lemma StairwaysAfterWallsShape(orig: Layers)
    requires HasKey(orig, WALLS_KEY)
    ensures var r, w := StairwaysAfterWalls(orig), WallsIndex(orig);
      && |r| == |orig| + 1
      && r[w].0 == WALLS_KEY
      && r[w + 1] == (STAIRWAYS_KEY, STAIRWAY_LAYER)
      && r[..w + 1] == orig[..w + 1] && r[w + 2..] == orig[w + 1..]
  {
    var w := WallsIndex(orig);
    var front, back := orig[..w + 1], orig[w + 1..];
    var r := front + [(STAIRWAYS_KEY, STAIRWAY_LAYER)] + back;
    assert r[..w + 1] == front;
    assert r[w + 2..] == back;
  }

  class CanvasConfig {
    var layers: Layers

    constructor (layers: Layers)
      ensures this.layers == layers
    {
      this.layers := layers;
    }

    /** The layer `reduce` of `hookCanvas`, rebuilding `CONFIG.Canvas.layers`. */
    method HookCanvas()
      modifies this
      ensures layers == InjectLayers(old(layers))
    {
      var orig := layers;
      var acc: Layers := [];
      for i := 0 to |orig|
        invariant acc == InjectLayers(orig[..i])
      {
        assert orig[..i + 1][..i] == orig[..i];
        acc := InjectStep(acc, orig[i]);
      }
      assert orig[..|orig|] == orig;
      layers := acc;
    }
  }

  lemma LastKeyIsNew(orig: Layers)
    requires UniqueKeys(orig) && orig != []
    ensures !HasKey(orig[..|orig| - 1], orig[|orig| - 1].0)
  {
    var init := orig[..|orig| - 1];
    assert forall j :: 0 <= j < |init| ==> init[j] == orig[j];
  }

  lemma WallsIndexAppend(init: Layers, last: (string, LayerConfig))
    ensures WallsIndex(init + [last]) ==
      if WallsIndex(init) >= 0 then WallsIndex(init) else if last.0 == WALLS_KEY then |init| else -1
  {
    assert (init + [last])[..|init|] == init;
  }

  lemma HasKeySingle(e: (string, LayerConfig), k: string)
    ensures HasKey([e], k) <==> e.0 == k
  {
    assert [e][0] == e;
  }

  /** Appending an entry whose key is new. */
  lemma PutNewKey(init: Layers, last: (string, LayerConfig), k: string)
    requires !HasKey(init, k) && last.0 != k
    ensures Put(init + [last], k, STAIRWAY_LAYER) == init + [last] + [(k, STAIRWAY_LAYER)]
  {
    HasKeyAppend(init, [last], k);
    HasKeySingle(last, k);
  }

  /** The step that copies the last entry of a list holding no `walls` yet. */
  lemma InjectStepBeforeWalls(init: Layers, last: (string, LayerConfig))
    requires WallsIndex(init) < 0 && !HasKey(init, last.0)
    requires last.0 != STAIRWAYS_KEY && !HasKey(init, STAIRWAYS_KEY)
    ensures InjectStep(init, last) == StairwaysAfterWalls(init + [last])
  {
    var orig := init + [last];
    WallsIndexAppend(init, last);
    assert Put(init, last.0, last.1) == orig;
    if last.0 == WALLS_KEY {
      PutNewKey(init, last, STAIRWAYS_KEY);
      var w := |init|;
      assert WallsIndex(orig) == w && w + 1 == |orig|;
      assert orig[..w + 1] == orig;
      assert orig[w + 1..] == [];
    }
  }

  /** Copying a new key after the stairway layer is in place appends it. */
  lemma InjectStepAppends(init: Layers, last: (string, LayerConfig), w: nat)
    requires w < |init| && !HasKey(init, last.0)
    requires last.0 != STAIRWAYS_KEY && last.0 != WALLS_KEY
    ensures var prev := init[..w + 1] + [(STAIRWAYS_KEY, STAIRWAY_LAYER)] + init[w + 1..];
      InjectStep(prev, last) == prev + [last]
  {
    var front, back := init[..w + 1], init[w + 1..];
    var prev := front + [(STAIRWAYS_KEY, STAIRWAY_LAYER)] + back;
    assert init == front + back;
    HasKeyAppend(front, back, last.0);
    HasKeyAppend(front + [(STAIRWAYS_KEY, STAIRWAY_LAYER)], back, last.0);
    HasKeyAppend(front, [(STAIRWAYS_KEY, STAIRWAY_LAYER)], last.0);
    assert !HasKey(prev, last.0);
  }

  /** Splicing `x` in after position `w` commutes with appending `last`. */
  lemma SpliceAppend<T>(init: seq<T>, x: T, last: T, w: nat)
    requires w < |init|
    ensures (init + [last])[..w + 1] + [x] + (init + [last])[w + 1..] == init[..w + 1] + [x] + init[w + 1..] + [last]
  {
    assert (init + [last])[..w + 1] == init[..w + 1];
    assert (init + [last])[w + 1..] == init[w + 1..] + [last];
  }

  /** Appending an entry after `walls` extends the spliced list by that entry. */
  lemma StairwaysAfterWallsAppend(init: Layers, last: (string, LayerConfig), w: nat)
    requires w == WallsIndex(init)
    ensures StairwaysAfterWalls(init + [last])
      == init[..w + 1] + [(STAIRWAYS_KEY, STAIRWAY_LAYER)] + init[w + 1..] + [last]
  {
    WallsIndexAppend(init, last);
    SpliceAppend(init, (STAIRWAYS_KEY, STAIRWAY_LAYER), last, w);
  }

  /** The step that copies an entry after the stairway layer is already in place. */
  lemma InjectStepAfterWalls(init: Layers, last: (string, LayerConfig), w: nat)
    requires w == WallsIndex(init) && !HasKey(init, last.0)
    requires last.0 != STAIRWAYS_KEY && last.0 != WALLS_KEY
    ensures InjectStep(init[..w + 1] + [(STAIRWAYS_KEY, STAIRWAY_LAYER)] + init[w + 1..], last)
      == StairwaysAfterWalls(init + [last])
  {
    InjectStepAppends(init, last, w);
    StairwaysAfterWallsAppend(init, last, w);
  }

  /**
   * On a layer list with distinct keys and no `stairways` entry, the reduce
   * keeps every original entry in order and adds exactly the stairway layer,
   * immediately after `walls`; without `walls` nothing is added.
   */
  lemma {:induction false} InjectLayersInsertsAfterWalls(orig: Layers)
    requires UniqueKeys(orig) && !HasKey(orig, STAIRWAYS_KEY)
    ensures InjectLayers(orig) == StairwaysAfterWalls(orig)
    decreases |orig|
  {
    if orig != [] {
      var n := |orig| - 1;
      var init, last := orig[..n], orig[n];
      assert orig == init + [last];
      HasKeyAppend(init, [last], STAIRWAYS_KEY);
      InjectLayersInsertsAfterWalls(init);
      LastKeyIsNew(orig);
      var w := WallsIndex(init);
      if w < 0 {
        InjectStepBeforeWalls(init, last);
      } else {
        assert last.0 != WALLS_KEY;
        InjectStepAfterWalls(init, last, w);
      }
    }
  }

  lemma GetAppend(a: Layers, e: (string, LayerConfig), k: string)
    ensures Get(a + [e], k) == if HasKey(a, k) then Get(a, k) else if e.0 == k then Some(e.1) else None
  {
    HasKeyAppend(a, [e], k);
    if a != [] {
      assert (a + [e])[1..] == a[1..] + [e];
      GetAppend(a[1..], e, k);
    }
  }

  lemma InjectStepGet(layers: Layers, e: (string, LayerConfig), k: string)
    requires k != STAIRWAYS_KEY
    ensures Get(InjectStep(layers, e), k) == if e.0 == k then Some(e.1) else Get(layers, k)
  {
    PutGet(layers, e.0, e.1, k);
    PutGet(Put(layers, e.0, e.1), STAIRWAYS_KEY, STAIRWAY_LAYER, k);
  }

  /** The reduce keeps every key of the original list and adds only
      `stairways`, exactly when `walls` is present. */
  lemma {:induction false} InjectLayersKeys(orig: Layers)
    ensures forall k :: HasKey(InjectLayers(orig), k) <==>
      HasKey(orig, k) || (k == STAIRWAYS_KEY && HasKey(orig, WALLS_KEY))
    decreases |orig|
  {
    if orig != [] {
      var n := |orig| - 1;
      var init, last := orig[..n], orig[n];
      assert orig == init + [last];
      InjectLayersKeys(init);
      var prev := InjectLayers(init);
      PutKeys(prev, last.0, last.1);
      PutKeys(Put(prev, last.0, last.1), STAIRWAYS_KEY, STAIRWAY_LAYER);
      forall k
        ensures HasKey(orig, k) <==> HasKey(init, k) || last.0 == k
      {
        HasKeyAppend(init, [last], k);
        HasKeySingle(last, k);
      }
    }
  }

  /** On distinct keys, every original layer other than `stairways` keeps its configuration. */
  lemma {:induction false} InjectLayersKeepsValues(orig: Layers, k: string)
    requires UniqueKeys(orig) && k != STAIRWAYS_KEY
    ensures Get(InjectLayers(orig), k) == Get(orig, k)
    decreases |orig|
  {
    if orig != [] {
      var n := |orig| - 1;
      var init, last := orig[..n], orig[n];
      assert orig == init + [last];
      InjectLayersKeepsValues(init, k);
      InjectStepGet(InjectLayers(init), last, k);
      GetAppend(init, last, k);
      LastKeyIsNew(orig);
    }
  }

  /** `Canvas#getLayerByEmbeddedName` after the hook: `Stairway` resolves to the canvas's stairway layer. */
  function GetLayerByEmbeddedName<L>(embeddedName: string, stairwaysLayer: L, original: string -> L): (r: L)
    ensures embeddedName == "Stairway" ==> r == stairwaysLayer
    ensures embeddedName != "Stairway" ==> r == original(embeddedName)
  {
    if embeddedName == "Stairway" then stairwaysLayer else original(embeddedName)
  }

  /** A scene schema field: the stairway collection field, or any field the base schema defines. */
  datatype SchemaField = EmbeddedCollection(documentClass: string) | BaseField(kind: string)

  const STAIRWAYS_FIELD: SchemaField := EmbeddedCollection("BaseStairway")

  /** The schema returned by the hooked `defineSchema`, given what the original returned. */
  function WithStairwaysField(schema: map<string, SchemaField>): (r: map<string, SchemaField>)
    ensures STAIRWAYS_KEY in r
    ensures STAIRWAYS_KEY !in schema ==> r[STAIRWAYS_KEY] == STAIRWAYS_FIELD
    ensures forall k :: k in schema ==> k in r && r[k] == schema[k]
    ensures forall k :: k in r && k != STAIRWAYS_KEY ==> k in schema
  {
    if STAIRWAYS_KEY in schema then schema else schema[STAIRWAYS_KEY := STAIRWAYS_FIELD]
  }

  /** Injecting the field a second time changes nothing. */
  lemma WithStairwaysFieldIdempotent(schema: map<string, SchemaField>)
    ensures WithStairwaysField(WithStairwaysField(schema)) == WithStairwaysField(schema)
  {
  }

  class Schema {
    var fields: map<string, SchemaField>

    constructor (fields: map<string, SchemaField>)
      ensures this.fields == fields
    {
      this.fields := fields;
    }

    /** The hooked `defineSchema` body after the original call: set `stairways` only if absent. */
    method InjectStairwaysField()
      modifies this
      ensures fields == WithStairwaysField(old(fields))
    {
      if STAIRWAYS_KEY !in fields {
        fields := fields[STAIRWAYS_KEY := STAIRWAYS_FIELD];
      }
    }
  }

  /** The start-up loop over the loaded scenes: each one's stairways become a copy of its flags, or `[]`. */
  method CopyStairwaysFromFlags(scenes: seq<Scene>)
    modifies set s | s in scenes
    ensures forall i :: 0 <= i < |scenes| ==> scenes[i].stairways == Some(scenes[i].flagStairways.GetOr([]))
    ensures forall i :: 0 <= i < |scenes| ==> scenes[i].flagStairways == old(scenes[i].flagStairways)
  {
    for i := 0 to |scenes|
      invariant forall j :: 0 <= j < i ==> scenes[j].stairways == Some(scenes[j].flagStairways.GetOr([]))
      invariant forall j :: 0 <= j < |scenes| ==> scenes[j].flagStairways == old(scenes[j].flagStairways)
    {
      scenes[i].stairways := Some(scenes[i].flagStairways.GetOr([]));
    }
  }
}
