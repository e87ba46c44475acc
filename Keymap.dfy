/** Key remapping tables (`UserDataFile.Layer`) and the two dictionaries
    of them, one for the plain layers and one for the Fn layers. */
module Keymap {
  import opened Numeric
  import opened Tables

  /** Selects one layer table: `fn` picks `FnLayers` over `Layers`. */
  datatype LayerRef = LayerRef(layer: KeyboardLayer, fn: bool)

  /** A layer maps a source driver value to the driver value it sends. */
  datatype Layer = Layer(Keys: map<uint32, uint32>) {

    /** `GetKey`: the remapped value, or `UnusedKeyValue` when unmapped. */
    function GetKey(kv: KeyValues, key: uint32): uint32 {
      if key in Keys then Keys[key] else kv.unusedKeyValue
    }
  }

  /** A new layer maps nothing, and a write is seen by `GetKey` at its key
      and nowhere else. */
  lemma GetKeyAfterWrite(l: Layer, kv: KeyValues, k: uint32, v: uint32, q: uint32)
    ensures Layer(map[]).GetKey(kv, q) == kv.unusedKeyValue
    ensures Layer(l.Keys[k := v]).GetKey(kv, q) == if q == k then v else l.GetKey(kv, q)
  {
  }

  /** `FindOrAddLayer` on one dictionary: a missing layer is added empty,
      an existing one is kept as it is. */
  function AddLayer(m: map<KeyboardLayer, Layer>, layer: KeyboardLayer): (r: map<KeyboardLayer, Layer>)
    ensures r.Keys == m.Keys + {layer}
    ensures forall l :: l in m ==> r[l] == m[l]
    ensures layer !in m ==> r[layer] == Layer(map[])
  {
    if layer in m then m else m[layer := Layer(map[])]
  }

  /** Adds every layer of `layers` that is missing, empty. */
  function AddLayers(m: map<KeyboardLayer, Layer>, layers: set<KeyboardLayer>): (r: map<KeyboardLayer, Layer>)
    ensures r.Keys == m.Keys + layers
    ensures forall l :: l in m ==> r[l] == m[l]
    ensures forall l :: l in r && l !in m ==> r[l] == Layer(map[])
  {
    map l | l in m.Keys + layers :: if l in m then m[l] else Layer(map[])
  }

  /** Adding layers one at a time or all at once gives one table. */
  lemma AddLayerStep(m: map<KeyboardLayer, Layer>, layers: set<KeyboardLayer>, layer: KeyboardLayer)
    ensures AddLayer(AddLayers(m, layers), layer) == AddLayers(m, layers + {layer})
  {
  }

  /** The layers of one dictionary that `refs` selects. */
  function LayersOf(refs: set<LayerRef>, fn: bool): (r: set<KeyboardLayer>)
    ensures forall l :: l in r <==> LayerRef(l, fn) in refs
  {
    set ref | ref in refs && ref.fn == fn :: ref.layer
  }

  /** Selecting one more table adds it to its own dictionary and leaves
      the other one as it was. */
  lemma SelectStep(m: map<KeyboardLayer, Layer>, refs: set<LayerRef>, ref: LayerRef, fn: bool)
    ensures AddLayers(m, LayersOf(refs + {ref}, fn))
         == if ref.fn == fn then AddLayer(AddLayers(m, LayersOf(refs, fn)), ref.layer) else AddLayers(m, LayersOf(refs, fn))
  {
    if ref.fn == fn {
      assert LayersOf(refs + {ref}, fn) == LayersOf(refs, fn) + {ref.layer};
      AddLayerStep(m, LayersOf(refs, fn), ref.layer);
    } else {
      assert LayersOf(refs + {ref}, fn) == LayersOf(refs, fn);
    }
  }

  /** A remap line: every layer of `m` named in `selected` maps `key` to
      `value`; the others are unchanged. */
  function WriteKey(m: map<KeyboardLayer, Layer>, selected: set<KeyboardLayer>, key: uint32, value: uint32): (r: map<KeyboardLayer, Layer>)
    ensures r.Keys == m.Keys
  {
    map l | l in m :: if l in selected then Layer(m[l].Keys[key := value]) else m[l]
  }

  /** Each selected layer now sends `value` for `key` and keeps every
      other key; every other layer is left exactly as it was. */
  lemma WriteKeyExact(m: map<KeyboardLayer, Layer>, selected: set<KeyboardLayer>, key: uint32, value: uint32,
                      kv: KeyValues, l: KeyboardLayer, q: uint32)
    requires l in m
    ensures l in selected ==> WriteKey(m, selected, key, value)[l].GetKey(kv, key) == value
    ensures l in selected && q != key ==> WriteKey(m, selected, key, value)[l].GetKey(kv, q) == m[l].GetKey(kv, q)
    ensures l !in selected ==> WriteKey(m, selected, key, value)[l] == m[l]
  {
  }

  /** Writing one key through a selector updates that layer in place and
      leaves the table's other layers alone. */
  lemma WriteKeySingle(m: map<KeyboardLayer, Layer>, selected: set<KeyboardLayer>, key: uint32, value: uint32,
                       layer: KeyboardLayer)
    requires layer in m
    ensures WriteKey(m, selected + {layer}, key, value)
         == WriteKey(m, selected, key, value)[layer := Layer(m[layer].Keys[key := value])]
  {
  }
}
