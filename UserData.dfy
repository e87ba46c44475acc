/** The `UserDataFile` object: the tables a profile compiles into, the
    small table operations on them, and the compile loop that fills them
    line by line.  Each method is proved against the pure description
    of the compiler in `Passes`. */
module UserData {
  import opened Options
  import opened Numeric
  import opened Text
  import opened Json
  import opened Tables
  import opened Lighting
  import opened Keymap
  import opened Macros
  import opened Headers
  import opened Remaps
  import opened Passes

  /** The outcome of the static `Load`: no profile file (`null`), a
      compile that aborts (the null dereference of an unknown action
      keyword), or the compiled profile. */
  datatype LoadResult = NoProfile | Aborted | Compiled(file: UserDataFile)

  /** The macro ids a set of driver values refers to: the data byte of
      every value of macro type. */
  function MacroIdsOf(kv: KeyValues, values: set<uint32>): (r: set<uint8>)
    ensures forall id :: id in r <==> exists v :: v in values && kv.getKeyType(v) == MacroType && kv.getKeyData2(v) == id
  {
    set v | v in values && kv.getKeyType(v) == MacroType :: kv.getKeyData2(v)
  }

  /** The macro ids the plain and the Fn table of `layer` refer to. */
  function LayerMacroIds(kv: KeyValues, layers: map<KeyboardLayer, Layer>, fnLayers: map<KeyboardLayer, Layer>,
                         layer: KeyboardLayer): (r: set<uint8>)
    ensures layer !in layers && layer !in fnLayers ==> r == {}
    ensures layer in layers ==> MacroIdsOf(kv, layers[layer].Keys.Values) <= r
    ensures layer in fnLayers ==> MacroIdsOf(kv, fnLayers[layer].Keys.Values) <= r
    ensures forall id :: id in r <==>
      || (layer in layers && id in MacroIdsOf(kv, layers[layer].Keys.Values))
      || (layer in fnLayers && id in MacroIdsOf(kv, fnLayers[layer].Keys.Values))
  {
    (if layer in layers then MacroIdsOf(kv, layers[layer].Keys.Values) else {})
      + (if layer in fnLayers then MacroIdsOf(kv, fnLayers[layer].Keys.Values) else {})
  }

  /** The bytes below `n`. */
  function BytesBelow(n: nat): (r: set<uint8>)
    requires n <= 256
    ensures forall b: uint8 :: b in r <==> b < n
    ensures |r| == n
  {
    if n == 0 then {} else
      var r := BytesBelow(n - 1) + {n - 1};
      assert n - 1 !in BytesBelow(n - 1);
      r
  }

  /** A set of bytes has at most 256 members, so `GetNumMacros` never
      exceeds the number of macro ids a key can carry. */
  lemma ByteSetBound(s: set<uint8>)
    ensures |s| <= 256
  {
    SubsetCard(s, BytesBelow(256));
  }

  class UserDataFile {
    var FnLayers: map<KeyboardLayer, Layer>
    var Layers: map<KeyboardLayer, Layer>
    var Macros: map<string, Macro>
    var LightingEffects: map<string, LightingEffect>
    /** Clear all lighting on the keyboard (as opposed to sending none). */
    var NoLighting: bool
    var NoLightingLayers: set<KeyboardLayer>
    var nextMacroId: int
    var nextLightingId: int
    /** The messages the compiler logs. */
    var Log: seq<LogEntry>
    /** The stored effects as the pure compiler sees them, kept in step
        with the effect objects while a profile compiles (`EffectsAgree`). */
    ghost var Effects: map<string, EffectView>

    /** Every effect is stored under its own name. */
    ghost predicate Valid()
      reads this`LightingEffects, LightingEffects.Values`Name
    {
      forall k :: k in LightingEffects ==> LightingEffects[k].Name == k
    }

    /** `GetLighting`'s bookkeeping: the lighting ids handed out so far
        are distinct and below `nextLightingId`. */
    ghost predicate LightingIdsValid()
      reads this`LightingEffects, this`nextLightingId, LightingEffects.Values`Id
    {
      && 0 <= nextLightingId
      && (forall k :: k in LightingEffects ==> -1 <= LightingEffects[k].Id < nextLightingId)
      && (forall a, b :: a in LightingEffects && b in LightingEffects && a != b && LightingEffects[a].Id != -1 ==>
            LightingEffects[a].Id != LightingEffects[b].Id)
    }

    /** `Effects` names the stored effects and holds, for each, its id,
        its layers and the documents whose loading gave its contents. */
    ghost predicate EffectsAgree(env: Env)
      reads this`Effects, this`LightingEffects, LightingEffects.Values
    {
      && Effects.Keys == LightingEffects.Keys
      && forall k :: k in LightingEffects ==>
           && Effects[k].Id == LightingEffects[k].Id && Effects[k].Layers == LightingEffects[k].Layers
           && LightingEffects[k].Contents() == ContentsAfter(env.enums, KeyLocator(env.keyboard, env.enums), Effects[k].Docs)
    }

    /** What a compile keeps: `Valid`, `LightingIdsValid` and
        `EffectsAgree`.  The body goes through a `var` so that the
        verifier proves `Compiling` where it is ensured as one formula
        rather than splitting it into one proof per conjunct. */
    ghost predicate Compiling(env: Env)
      reads this`Effects, this`LightingEffects, this`nextLightingId, LightingEffects.Values
    {
      var ok := Valid() && LightingIdsValid() && EffectsAgree(env);
      ok
    }

    /** The tables as the pure compiler sees them, in section `sec`. */
    ghost function StateIn(sec: Section): PassState
      reads this
    {
      PassState(Layers, FnLayers, Macros, nextMacroId, NoLighting, NoLightingLayers, Effects, Log, sec)
    }

    constructor ()
      ensures Valid() && LightingIdsValid() && StateIn(NoSection) == Initial && LightingEffects == map[]
      ensures nextLightingId == 0
    {
      FnLayers, Layers, Macros, LightingEffects, Effects := map[], map[], map[], map[], map[];
      NoLighting, NoLightingLayers := false, {};
      nextMacroId, nextLightingId := 0, 0;
      Log := [];
    }

    // -------------------------------------------------------------------
    // Table operations

    /** `FindOrAddLayer`: the table of `layer` in the plain or the Fn
        dictionary, added empty when missing. */
    method FindOrAddLayer(layer: KeyboardLayer, fn: bool) returns (result: Layer)
      modifies this`Layers, this`FnLayers
      ensures fn ==> FnLayers == AddLayer(old(FnLayers), layer) && Layers == old(Layers) && result == FnLayers[layer]
      ensures !fn ==> Layers == AddLayer(old(Layers), layer) && FnLayers == old(FnLayers) && result == Layers[layer]
    {
      var layers := if fn then FnLayers else Layers;
      if layer in layers {
        return layers[layer];
      }
      result := Layer(map[]);
      if fn {
        FnLayers := FnLayers[layer := result];
      } else {
        Layers := Layers[layer := result];
      }
    }

    /** `GetMacro`: the macro named `name`, if any, given the next id when
        it has none yet. */
    method GetMacro(name: string) returns (result: Option<Macro>)
      modifies this`Macros, this`nextMacroId
      ensures (Macros, nextMacroId) == AssignId(old(Macros), old(nextMacroId), name)
      ensures result == if name in old(Macros) then Some(Macros[name]) else None
    {
      if name !in Macros {
        return None;
      }
      if Macros[name].Id == -1 {
        Macros := Macros[name := Macros[name].(Id := nextMacroId)];
        nextMacroId := nextMacroId + 1;
      }
      result := Some(Macros[name]);
    }

    /** `GetLighting`: the effect named `name`, if any, given the next
        lighting id when it has none yet; no other effect changes. */
    method GetLighting(name: string) returns (result: Option<LightingEffect>)
      requires Valid() && LightingIdsValid()
      modifies this`nextLightingId, LightingEffects.Values`Id
      ensures Valid() && LightingIdsValid()
      ensures result == if name in LightingEffects then Some(LightingEffects[name]) else None
      ensures name !in LightingEffects ==> nextLightingId == old(nextLightingId)
      ensures name in LightingEffects ==>
        if old(LightingEffects[name].Id) == -1
        then LightingEffects[name].Id == old(nextLightingId) && nextLightingId == old(nextLightingId) + 1
        else LightingEffects[name].Id == old(LightingEffects[name].Id) && nextLightingId == old(nextLightingId)
      ensures forall k :: k in LightingEffects && k != name ==> LightingEffects[k].Id == old(LightingEffects[k].Id)
    {
      if name !in LightingEffects {
        return None;
      }
      var effect := LightingEffects[name];
      if effect.Id == -1 {
        effect.Id := nextLightingId;
        nextLightingId := nextLightingId + 1;
      }
      result := Some(effect);
    }

    /** `GetLightingEffects`: every stored effect used on `layer`, each
        once. */
    method GetLightingEffects(layer: KeyboardLayer) returns (result: seq<LightingEffect>)
      requires Valid()
      ensures forall e :: e in result <==> e in LightingEffects.Values && layer in e.Layers
      ensures forall i, j :: 0 <= i < j < |result| ==> result[i] != result[j]
    {
      result := [];
      var todo := LightingEffects.Keys;
      while todo != {}
        invariant todo <= LightingEffects.Keys
        invariant forall e :: e in result <==>
          exists k :: k in LightingEffects.Keys - todo && LightingEffects[k] == e && layer in e.Layers
        invariant forall i, j :: 0 <= i < j < |result| ==> result[i] != result[j]
        decreases todo
      {
        var name :| name in todo;
        var effect := LightingEffects[name];
        if layer in effect.Layers {
          assert effect !in result;
          result := result + [effect];
        }
        todo := todo - {name};
      }
    }

    /** `GetNumMacros`: the number of distinct macro ids referenced by the
        plain and the Fn table of `layer`, at most 256. */
    method GetNumMacros(kv: KeyValues, layer: KeyboardLayer) returns (count: int)
      ensures count == |LayerMacroIds(kv, Layers, FnLayers, layer)|
      ensures 0 <= count <= 256
    {
      ghost var plain := if layer in Layers then MacroIdsOf(kv, Layers[layer].Keys.Values) else {};
      var ids: set<uint8> := {};
      if layer in Layers {
        ids := CollectMacroIds(kv, Layers[layer], ids);
        assert ids == plain;
      }
      if layer in FnLayers {
        ids := CollectMacroIds(kv, FnLayers[layer], ids);
      }
      assert ids == LayerMacroIds(kv, Layers, FnLayers, layer);
      count := |ids|;
      ByteSetBound(ids);
    }

    /** Adds the macro ids of one table's values to `ids`. */
    static method CollectMacroIds(kv: KeyValues, l: Layer, ids: set<uint8>) returns (result: set<uint8>)
      ensures result == ids + MacroIdsOf(kv, l.Keys.Values)
    {
      result := ids;
      var todo := l.Keys.Values;
      while todo != {}
        invariant todo <= l.Keys.Values
        invariant result == ids + MacroIdsOf(kv, l.Keys.Values - todo)
        decreases todo
      {
        var v :| v in todo;
        if kv.getKeyType(v) == MacroType {
          result := result + {kv.getKeyData2(v)};
        }
        todo := todo - {v};
      }
    }

    // -------------------------------------------------------------------
    // The compile loop

    /** The group names of a header, in order: a name that opens a group
        sets it, and a layer name the pass allows selects its table,
        adding it when missing. */
    method SelectGroups(h: Header, groups: set<GroupType>) returns (group: GroupType, refs: set<LayerRef>)
      modifies this`Layers, this`FnLayers
      ensures group == GroupOfTokens(h.groupNames, h, groups) && refs == RefsOfTokens(h.groupNames, groups)
      ensures Layers == AddLayers(old(Layers), LayersOf(refs, false))
      ensures FnLayers == AddLayers(old(FnLayers), LayersOf(refs, true))
    {
      var tokens := h.groupNames;
      ghost var opening := TokenGroups(tokens, h, groups);
      group, refs := NoGroup, {};
      assert AddLayers(Layers, LayersOf(refs, false)) == Layers;
      assert AddLayers(FnLayers, LayersOf(refs, true)) == FnLayers;
      var j := 0;
      while j < |tokens|
        invariant 0 <= j <= |tokens|
        invariant group == LastGroup(opening[..j])
        invariant refs == RefsOfTokens(tokens[..j], groups)
        invariant Layers == AddLayers(old(Layers), LayersOf(refs, false))
        invariant FnLayers == AddLayers(old(FnLayers), LayersOf(refs, true))
      {
        group, refs := SelectName(tokens, h, groups, j, opening, old(Layers), old(FnLayers), group, refs);
        j := j + 1;
      }
      assert tokens[..j] == tokens && opening[..j] == opening;
    }

    /** Group name `j` of a header: it sets the group when it opens one,
        and selects (and adds) its table when it names a layer the pass
        allows. */
    method SelectName(tokens: seq<string>, h: Header, groups: set<GroupType>, j: nat, ghost opening: seq<Option<GroupType>>,
                      ghost start: map<KeyboardLayer, Layer>, ghost fnStart: map<KeyboardLayer, Layer>,
                      group: GroupType, refs: set<LayerRef>) returns (group': GroupType, refs': set<LayerRef>)
      requires j < |tokens| && opening == TokenGroups(tokens, h, groups)
      requires group == LastGroup(opening[..j]) && refs == RefsOfTokens(tokens[..j], groups)
      requires Layers == AddLayers(start, LayersOf(refs, false)) && FnLayers == AddLayers(fnStart, LayersOf(refs, true))
      modifies this`Layers, this`FnLayers
      ensures group' == LastGroup(opening[..j + 1]) && refs' == RefsOfTokens(tokens[..j + 1], groups)
      ensures Layers == AddLayers(start, LayersOf(refs', false)) && FnLayers == AddLayers(fnStart, LayersOf(refs', true))
    {
      TokensSnoc(tokens, h, groups, j);
      group', refs' := group, refs;
      var opens := TokenGroup(tokens[j], h, groups);
      assert opening[..j + 1] == opening[..j] + [opens];
      if opens.Some? {
        group' := opens.value;
      }
      var ref := LayerTokenRef(ToLower(tokens[j]));
      if LayerGroup in groups && ref.Some? {
        var table := FindOrAddLayer(ref.value.layer, ref.value.fn);
        SelectStep(start, refs, ref.value, false);
        SelectStep(fnStart, refs, ref.value, true);
        refs' := refs + {ref.value};
      }
    }

    /** `lightingEffect.Load(keyboard)` with the keyboard's locator: an
        effect that loads keeps its id, name and layers and takes the
        reloaded contents; one that does not is unchanged. */
    static method Reload(effect: LightingEffect, env: Env) returns (loaded: bool)
      modifies effect
      ensures loaded <==> EffectDocument(env.files, effect.Name).Some?
      ensures !loaded ==> unchanged(effect)
      ensures effect.Id == old(effect.Id) && effect.Name == old(effect.Name) && effect.Layers == old(effect.Layers)
      ensures loaded ==>
        effect.Contents() == Reloaded(env.enums, KeyLocator(env.keyboard, env.enums),
                                      EffectDocument(env.files, effect.Name).value, old(effect.Contents()))
    {
      loaded := effect.Load(env.enums, KeyLocator(env.keyboard, env.enums), env.files);
    }

    /** A `[Lighting(name, layers...)]` header: the effect stored under
        that name, or a new one, is loaded (again); one that loads is
        stored under its name, its view becoming `StoreEffect` of the
        view before (its id kept, the listed layers added, the document
        appended to those it loaded); one that does not is logged and
        changes nothing. Every other name keeps its effect, and no id is
        handed out. */
    method LoadLighting(name: string, layers: set<KeyboardLayer>, env: Env)
      requires Compiling(env)
      modifies this`LightingEffects, this`Log, this`Effects, if name in LightingEffects then {LightingEffects[name]} else {}
      ensures Compiling(env)
      ensures fresh(LightingEffects.Values - old(LightingEffects.Values))
      ensures forall k :: k in old(LightingEffects) && k != name ==> k in LightingEffects && LightingEffects[k] == old(LightingEffects[k])
      ensures Log == if EffectDocument(env.files, name).Some? then old(Log) else old(Log) + [LightingLoadFailed(name)]
      ensures Effects == if EffectDocument(env.files, name).Some?
                         then StoreEffect(old(Effects), name, layers, EffectDocument(env.files, name).value) else old(Effects)
    {
      if name in LightingEffects && EffectDocument(env.files, name).Some? {
        LoadStoredEffect(name, layers, env);
      } else if name in LightingEffects {
        StoredEffectFails(name, layers, env);
      } else if EffectDocument(env.files, name).Some? {
        LoadNewEffect(name, layers, env);
      } else {
        NewEffectFails(name, layers, env);
      }
    }

    /** `LoadLighting` for a name already stored whose effect loads. */
    method LoadStoredEffect(name: string, layers: set<KeyboardLayer>, env: Env)
      requires Compiling(env) && name in LightingEffects && EffectDocument(env.files, name).Some?
      modifies this`Log, this`Effects, LightingEffects[name]
      ensures Compiling(env) && LightingEffects == old(LightingEffects) && Log == old(Log)
      ensures Effects == StoreEffect(old(Effects), name, layers, EffectDocument(env.files, name).value)
    {
      forall k | k in LightingEffects && k != name
        ensures LightingEffects[k] != LightingEffects[name]
      {
        assert LightingEffects[k].Name == k;
      }
      ReloadStored(name, layers, env, Effects[name].Docs);
      var doc := EffectDocument(env.files, name).value;
      Effects := StoreEffect(Effects, name, layers, doc);
      AgreeAfterLoad(this, name, layers, doc, env);
    }

    /** `LoadLighting` for a name already stored whose effect does not
        load: the effect stays as it was and the failure is logged. */
    method StoredEffectFails(name: string, layers: set<KeyboardLayer>, env: Env)
      requires Compiling(env) && name in LightingEffects && EffectDocument(env.files, name).None?
      modifies this`Log, LightingEffects[name]
      ensures Compiling(env) && LightingEffects == old(LightingEffects)
      ensures Log == old(Log) + [LightingLoadFailed(name)]
    {
      ReloadStored(name, layers, env, Effects[name].Docs);
      assert unchanged(LightingEffects.Values);
    }

    /** `LoadLighting` for a name not stored yet whose effect loads. */
    method LoadNewEffect(name: string, layers: set<KeyboardLayer>, env: Env)
      requires Compiling(env) && name !in LightingEffects && EffectDocument(env.files, name).Some?
      modifies this`LightingEffects, this`Log, this`Effects
      ensures Compiling(env) && Log == old(Log)
      ensures fresh(LightingEffects.Values - old(LightingEffects.Values))
      ensures forall k :: k in old(LightingEffects) ==> k in LightingEffects && LightingEffects[k] == old(LightingEffects[k])
      ensures Effects == StoreEffect(old(Effects), name, layers, EffectDocument(env.files, name).value)
    {
      LoadNew(name, layers, env);
      var doc := EffectDocument(env.files, name).value;
      Effects := StoreEffect(Effects, name, layers, doc);
      AgreeAfterLoad(this, name, layers, doc, env);
    }

    /** `LoadLighting` for a name not stored yet whose effect does not
        load: the new effect is dropped and the failure logged. */
    method NewEffectFails(name: string, layers: set<KeyboardLayer>, env: Env)
      requires Compiling(env) && name !in LightingEffects && EffectDocument(env.files, name).None?
      modifies this`LightingEffects, this`Log
      ensures Compiling(env) && LightingEffects == old(LightingEffects)
      ensures Log == old(Log) + [LightingLoadFailed(name)]
    {
      LoadNew(name, layers, env);
      assert unchanged(LightingEffects.Values);
    }

    /** `LoadLighting` for a name already stored. */
    method ReloadStored(name: string, layers: set<KeyboardLayer>, env: Env, ghost docs: seq<seq<(string, Json)>>)
      requires Valid() && LightingIdsValid() && name in LightingEffects
      requires LightingEffects[name].Contents() == ContentsAfter(env.enums, KeyLocator(env.keyboard, env.enums), docs)
      modifies this`Log, LightingEffects[name]
      ensures Valid() && LightingIdsValid() && LightingEffects == old(LightingEffects)
      ensures Log == if EffectDocument(env.files, name).Some? then old(Log) else old(Log) + [LightingLoadFailed(name)]
      ensures EffectDocument(env.files, name).Some? ==>
        var e := LightingEffects[name];
        && e.Layers == old(e.Layers) + layers && e.Id == old(e.Id)
        && e.Contents() == ContentsAfter(env.enums, KeyLocator(env.keyboard, env.enums), docs + [EffectDocument(env.files, name).value])
      ensures EffectDocument(env.files, name).None? ==> unchanged(LightingEffects[name])
    {
      var effect := LightingEffects[name];
      var loaded := Reload(effect, env);
      if loaded {
        effect.Layers := effect.Layers + layers;
        ContentsAfterSnoc(env.enums, KeyLocator(env.keyboard, env.enums), docs, EffectDocument(env.files, name).value);
      } else {
        Log := Log + [LightingLoadFailed(name)];
      }
    }

    /** `LoadLighting` for a name not stored yet: a new effect, stored
        only when it loads. */
    method LoadNew(name: string, layers: set<KeyboardLayer>, env: Env)
      requires Valid() && LightingIdsValid() && name !in LightingEffects
      modifies this`LightingEffects, this`Log
      ensures Valid() && LightingIdsValid()
      ensures Log == if EffectDocument(env.files, name).Some? then old(Log) else old(Log) + [LightingLoadFailed(name)]
      ensures EffectDocument(env.files, name).None? ==> LightingEffects == old(LightingEffects)
      ensures EffectDocument(env.files, name).Some? ==>
        && name in LightingEffects && LightingEffects == old(LightingEffects)[name := LightingEffects[name]]
        && fresh(LightingEffects[name])
        && LightingEffects[name].Layers == layers && LightingEffects[name].Id == -1
        && LightingEffects[name].Contents()
           == ContentsAfter(env.enums, KeyLocator(env.keyboard, env.enums), [EffectDocument(env.files, name).value])
    {
      var effect := new LightingEffect(name);
      var loaded := Reload(effect, env);
      if loaded {
        effect.Layers := effect.Layers + layers;
        LightingEffects := LightingEffects[name := effect];
        ContentsAfterSnoc(env.enums, KeyLocator(env.keyboard, env.enums), [], EffectDocument(env.files, name).value);
      } else {
        Log := Log + [LightingLoadFailed(name)];
      }
    }

    /** The table half of a header line: the layer tables its names
        select are added, a macro header creates its macro (replacing one
        of the same name), and `NoLighting` applies whatever the pass. */
    method HeaderTables(sec: Section, h: Header, groups: set<GroupType>, env: Env) returns (next: Section)
      modifies this`Layers, this`FnLayers, this`Macros, this`NoLighting, this`NoLightingLayers
      ensures StateIn(next) == TablesStep(old(StateIn(sec)), h, groups, env)
    {
      ghost var before := StateIn(sec);
      var group, refs := SelectGroups(h, groups);
      HeaderSettings(h, groups, env);
      next := Section(group, refs, if MacroSelected(h, groups) then InnerName(h) else sec.macro);
      assert next == HeaderSection(sec, Some(h), groups);
      assert StateIn(next) == PassState(Layers, FnLayers, Macros, before.next, NoLighting, NoLightingLayers,
                                        before.effects, before.log, next);
    }

    /** The macro and `NoLighting` half of a header's tables: a selected
        macro header creates its macro, replacing one of that name, and
        `NoLighting` applies whatever the pass. */
    method HeaderSettings(h: Header, groups: set<GroupType>, env: Env)
      modifies this`Macros, this`NoLighting, this`NoLightingLayers
      ensures Macros == if MacroSelected(h, groups) then old(Macros)[InnerName(h) := NewMacro(InnerName(h), h.inner.value, env.enums)]
                        else old(Macros)
      ensures NoLighting == (old(NoLighting) || SetsNoLighting(h))
      ensures NoLightingLayers == old(NoLightingLayers) + NoLightingList(h)
    {
      if MacroSelected(h, groups) {
        var name := InnerName(h);
        Macros := Macros[name := NewMacro(name, h.inner.value, env.enums)];
      }
      if SetsNoLighting(h) {
        NoLighting := true;
      }
      NoLightingLayers := NoLightingLayers + NoLightingList(h);
    }

    /** The lighting half of a header line: a `[Lighting(name, ...)]`
        header of a lighting pass loads its effect. */
    method HeaderLighting(ghost sec: Section, h: Header, groups: set<GroupType>, env: Env)
      requires Compiling(env)
      modifies this`LightingEffects, this`Log, this`Effects, LightingEffects.Values
      ensures Compiling(env)
      ensures fresh(LightingEffects.Values - old(LightingEffects.Values))
      ensures StateIn(sec) == LightingStep(old(StateIn(sec)), h, groups, env)
    {
      ghost var st := StateIn(sec);
      ghost var r := LightingStep(st, h, groups, env);
      if LightingSelected(h, groups) {
        var name, layers := InnerName(h), ParsedLayers(h.inner.value[1..]);
        LoadLighting(name, layers, env);
      }
      assert Effects == r.effects && Log == r.log;
      assert StateIn(sec) == st.(effects := r.effects, log := r.log);
    }

    /** A header line: a fresh section, its tables, then its lighting. */
    method ProcessHeader(sec: Section, header: Option<Header>, groups: set<GroupType>, env: Env) returns (next: Section)
      requires Compiling(env)
      modifies this`Layers, this`FnLayers, this`Macros, this`NoLighting, this`NoLightingLayers, this`LightingEffects,
               this`Log, this`Effects, LightingEffects.Values
      ensures Compiling(env)
      ensures fresh(LightingEffects.Values - old(LightingEffects.Values))
      ensures StateIn(next) == HeaderStep(old(StateIn(sec)), header, groups, env)
    {
      if header.None? {
        return Section(NoGroup, {}, sec.macro);
      }
      ghost var st := StateIn(sec);
      next := HeaderTables(sec, header.value, groups, env);
      ghost var tables := StateIn(next);
      HeaderLighting(next, header.value, groups, env);
    }

    /** The source names of a remap line: each `0x` name stores its
        parse (0 when it fails), each known `DriverValue` name its value,
        over the value before; the value starts at 0. */
    static method SourceOf(tokens: seq<string>, enums: Enums) returns (src: uint32)
      ensures src == SourceValue(tokens, enums)
    {
      ghost var values := seq(|tokens|, i requires 0 <= i < |tokens| => SourceTokenValue(tokens[i], enums));
      src := 0;
      var k := 0;
      while k < |tokens|
        invariant 0 <= k <= |tokens|
        invariant src == LastStored(values[..k])
      {
        var token := tokens[k];
        ghost var stored := values[..k + 1];
        assert stored[..k] == values[..k] && stored[k] == SourceTokenValue(token, enums);
        assert LastStored(stored) == stored[k].GetOr(LastStored(values[..k]));
        if "0x" <= token {
          src := ParseHex(token).GetOr(0);
        } else {
          var value := EnumParse(enums.driverValues, token, false);
          if value.Some? {
            src := value.value;
          }
        }
        k := k + 1;
      }
      assert values[..k] == values;
    }

    /** One destination name of a remap line (see `DestToken`). */
    method DestStep(dst: uint32, token: string, src: uint32, enums: Enums, kv: KeyValues) returns (result: uint32)
      modifies this`Macros, this`nextMacroId, this`Log
      ensures DestState(result, Macros, nextMacroId, Log)
           == DestToken(DestState(dst, old(Macros), old(nextMacroId), old(Log)), token, src, enums, kv)
    {
      result := dst;
      if "0x" <= token {
        result := ParseHex(token).GetOr(0);
      } else if "macro" <= ToLower(token) {
        var call := MacroCall(token);
        if call.Some? {
          var macro := GetMacro(call.value);
          if macro.Some? {
            result := MacroRef(macro.value.Id);
          } else {
            Log := Log + [MacroNotFound(call.value, src)];
          }
        }
      } else {
        var value := EnumParse(enums.driverValues, token, false);
        if value.Some? {
          result := if kv.getKeyType(value.value) == KeyType then Or32(dst, value.value) else value.value;
        }
      }
    }

    /** The destination names of a remap line, in order, from 0. */
    method DestOf(tokens: seq<string>, src: uint32, enums: Enums, kv: KeyValues) returns (dst: uint32)
      modifies this`Macros, this`nextMacroId, this`Log
      ensures DestState(dst, Macros, nextMacroId, Log)
           == DestValue(DestState(0, old(Macros), old(nextMacroId), old(Log)), tokens, src, enums, kv)
    {
      ghost var start := DestState(0, Macros, nextMacroId, Log);
      dst := 0;
      var k := 0;
      while k < |tokens|
        invariant 0 <= k <= |tokens|
        invariant DestState(dst, Macros, nextMacroId, Log) == DestValue(start, tokens[..k], src, enums, kv)
      {
        assert tokens[..k + 1][..k] == tokens[..k];
        dst := DestStep(dst, tokens[k], src, enums, kv);
        k := k + 1;
      }
      assert tokens[..k] == tokens;
    }

    /** The remap of a layer data line, looking up (and numbering) the
        macros its destination calls. */
    method RemapFor(text: string, env: Env) returns (r: Option<Remap>)
      modifies this`Macros, this`nextMacroId, this`Log
      ensures r == RemapOf(text, old(Macros), old(nextMacroId), old(Log), env.enums, env.kv)
      ensures r.None? ==> Macros == old(Macros) && nextMacroId == old(nextMacroId) && Log == old(Log)
      ensures r.Some? ==> Macros == r.value.dest.macros && nextMacroId == r.value.dest.next && Log == r.value.dest.log
    {
      var fields := Split(text, ':');
      if |fields| <= 1 {
        return None;
      }
      var src := SourceOf(Split(fields[0], '+'), env.enums);
      if src == 0 {
        return None;
      }
      var dst := DestOf(Split(fields[1], '+'), src, env.enums, env.kv);
      r := Some(Remap(src, DestState(dst, Macros, nextMacroId, Log)));
    }

    /** A data line in a layer section: with a destination and a non-zero
        source value, the pair is written into every selected table. */
    method ProcessLayerLine(sec: Section, text: string, env: Env) returns (r: Option<Remap>)
      modifies this`Layers, this`FnLayers, this`Macros, this`nextMacroId, this`Log
      ensures r == RemapOf(text, old(Macros), old(nextMacroId), old(Log), env.enums, env.kv)
      ensures r.None? ==> Layers == old(Layers) && FnLayers == old(FnLayers)
      ensures r.Some? ==> Layers == WriteKey(old(Layers), LayersOf(sec.refs, false), r.value.src, r.value.dest.dst)
      ensures r.Some? ==> FnLayers == WriteKey(old(FnLayers), LayersOf(sec.refs, true), r.value.src, r.value.dest.dst)
      ensures r.None? ==> Macros == old(Macros) && nextMacroId == old(nextMacroId) && Log == old(Log)
      ensures r.Some? ==> Macros == r.value.dest.macros && nextMacroId == r.value.dest.next && Log == r.value.dest.log
    {
      r := RemapFor(text, env);
      if r.Some? {
        Layers := WriteKey(Layers, LayersOf(sec.refs, false), r.value.src, r.value.dest.dst);
        FnLayers := WriteKey(FnLayers, LayersOf(sec.refs, true), r.value.src, r.value.dest.dst);
      }
    }

    /** The actions of one action line: for each state, in order, one
        action per key name, the delay on the very last one only. */
    static method ExpandActions(states: seq<MacroKeyState>, tokens: seq<string>, delay: uint16,
                                enums: Enums, kv: KeyValues) returns (actions: seq<Action>)
      ensures actions == ExpandLine(states, tokens, delay, enums, kv)
    {
      ghost var all := ExpandLine(states, tokens, delay, enums, kv);
      var t := |tokens|;
      actions := [];
      var j := 0;
      while j < |states|
        invariant 0 <= j <= |states|
        invariant j * t <= |all|
        invariant actions == all[..j * t]
      {
        MulMono(j + 1, |states|, t);
        assert (j + 1) * t == j * t + t;
        var k := 0;
        while k < t
          invariant 0 <= k <= t
          invariant actions == all[..j * t + k]
        {
          var last := j == |states| - 1 && k == t - 1;
          ExpandLineOrder(states, tokens, delay, enums, kv, j, k);
          actions := actions + [TokenAction(states[j], tokens[k], if last then delay else 0, enums, kv)];
          assert all[..j * t + k + 1] == all[..j * t + k] + [all[j * t + k]];
          k := k + 1;
        }
        j := j + 1;
      }
      assert all[..j * t] == all;
    }

    /** A data line in the section of macro `name`: its actions are
        appended to the macro; `false` for an unknown action keyword. */
    method ProcessMacroLine(name: string, text: string, env: Env) returns (ok: bool)
      modifies this`Macros
      ensures name !in old(Macros) ==> ok && Macros == old(Macros)
      ensures name in old(Macros) ==>
        match LineActions(text, old(Macros)[name].DefaultDelay, env.enums, env.kv)
        case None => !ok
        case Some(actions) => ok && Macros == old(Macros)[name := old(Macros)[name].(Actions := old(Macros)[name].Actions + actions)]
    {
      if name !in Macros {
        return true;
      }
      var fields := Split(text, ':');
      var actions: seq<Action> := [];
      if |fields| > 1 {
        var states := StatesOf(ToLower(fields[0]));
        if states.None? {
          return false;
        }
        var delay := LineDelay(fields, Macros[name].DefaultDelay);
        actions := ExpandActions(states.value, Split(fields[1], '+'), delay, env.enums, env.kv);
      }
      Macros := Macros[name := Macros[name].(Actions := Macros[name].Actions + actions)];
      ok := true;
    }

    /** A data line: by the current group, a remap line, an action line,
        or nothing. */
    method ProcessData(sec: Section, text: string, env: Env) returns (ok: bool)
      modifies this`Layers, this`FnLayers, this`Macros, this`nextMacroId, this`Log
      ensures ok <==> DataStep(old(StateIn(sec)), text, env).Some?
      ensures ok ==> DataStep(old(StateIn(sec)), text, env) == Some(StateIn(sec))
    {
      ok := true;
      match sec.group {
        case LayerGroup =>
          RemapData(sec, text, env);
        case MacroGroup =>
          ok := ActionData(sec, text, env);
        case _ =>
      }
    }

    /** `ProcessData` in a layer section. */
    method RemapData(sec: Section, text: string, env: Env)
      requires sec.group == LayerGroup
      modifies this`Layers, this`FnLayers, this`Macros, this`nextMacroId, this`Log
      ensures DataStep(old(StateIn(sec)), text, env) == Some(StateIn(sec))
    {
      ghost var before := StateIn(sec);
      var r := ProcessLayerLine(sec, text, env);
      if r.Some? {
        assert StateIn(sec) == RemapStep(before, r.value);
      } else {
        assert StateIn(sec) == before;
      }
    }

    /** `ProcessData` in a macro section. */
    method ActionData(sec: Section, text: string, env: Env) returns (ok: bool)
      requires sec.group == MacroGroup
      modifies this`Macros
      ensures ok <==> DataStep(old(StateIn(sec)), text, env).Some?
      ensures ok ==> DataStep(old(StateIn(sec)), text, env) == Some(StateIn(sec))
    {
      ghost var before := StateIn(sec);
      ok := ProcessMacroLine(sec.macro, text, env);
      assert DataStep(before, text, env) == if ok then Some(before.(macros := Macros)) else None;
      assert ok ==> StateIn(sec) == before.(macros := Macros);
    }

    /** One line of the private `Load`, already classified: a comment
        changes nothing, a header opens a section, a data line goes to
        the section; `false` when the line aborts the pass. */
    method ProcessLine(sec: Section, kind: LineKind, groups: set<GroupType>, env: Env) returns (ok: bool, next: Section)
      requires Compiling(env)
      modifies this, LightingEffects.Values
      ensures Compiling(env)
      ensures fresh(LightingEffects.Values - old(LightingEffects.Values))
      ensures nextLightingId == old(nextLightingId)
      ensures ok <==> Step(old(StateIn(sec)), kind, groups, env).Some?
      ensures ok ==> Step(old(StateIn(sec)), kind, groups, env) == Some(StateIn(next))
    {
      ok, next := true, sec;
      match kind
      case CommentLine =>
      case HeaderLine(h) =>
        next := ProcessHeader(sec, h, groups, env);
      case DataLine(text) =>
        ok := ProcessData(sec, text, env);
    }

    /** Line `i` of a pass that has compiled the lines before it into
        the tables. */
    method StepLine(sec: Section, lines: seq<string>, i: nat, ghost start: PassState, groups: set<GroupType>, env: Env)
      returns (ok: bool, next: Section)
      requires Compiling(env)
      requires i < |lines| && Run(start, Kinds(lines[..i]), groups, env) == Some(StateIn(sec))
      modifies this, LightingEffects.Values
      ensures Compiling(env)
      ensures fresh(LightingEffects.Values - old(LightingEffects.Values))
      ensures nextLightingId == old(nextLightingId)
      ensures ok <==> Run(start, Kinds(lines[..i + 1]), groups, env).Some?
      ensures ok ==> Run(start, Kinds(lines[..i + 1]), groups, env) == Some(StateIn(next))
    {
      RunLines(start, lines, i, StateIn(sec), groups, env);
      ok, next := ProcessLine(sec, Classify(lines[i]), groups, env);
    }

    /** The private `Load`: one pass over the profile's lines under the
        allow-list `groups`, from no section; `false` when an action line
        with an unknown keyword aborts it. */
    method LoadPass(lines: seq<string>, groups: set<GroupType>, env: Env) returns (ok: bool, sec: Section)
      requires Compiling(env)
      modifies this, LightingEffects.Values
      ensures Compiling(env)
      ensures fresh(LightingEffects.Values - old(LightingEffects.Values))
      ensures nextLightingId == old(nextLightingId)
      ensures ok <==> Run(old(StateIn(NoSection)), Kinds(lines), groups, env).Some?
      ensures ok ==> Run(old(StateIn(NoSection)), Kinds(lines), groups, env) == Some(StateIn(sec))
    {
      ghost var start := StateIn(NoSection);
      ok, sec := true, NoSection;
      var i := 0;
      while i < |lines| && ok
        invariant 0 <= i <= |lines|
        invariant Compiling(env)
        invariant fresh(LightingEffects.Values - old(LightingEffects.Values))
        invariant nextLightingId == old(nextLightingId)
        invariant ok ==> Run(start, Kinds(lines[..i]), groups, env) == Some(StateIn(sec))
        invariant !ok ==> Run(start, Kinds(lines[..i]), groups, env).None?
      {
        ok, sec := StepLine(sec, lines, i, start, groups, env);
        i := i + 1;
      }
      if ok {
        assert lines[..i] == lines;
      } else {
        RunStaysAborted(start, lines, i, groups, env);
      }
    }

    /** The static `Load`: no profile without a file; otherwise a new
        profile compiled in two passes, lighting and macros first, then
        layers. */
    static method Load(lines: Option<seq<string>>, env: Env) returns (result: LoadResult)
      ensures lines.None? <==> result.NoProfile?
      ensures lines.Some? ==> (result.Aborted? <==> Compile(lines.value, env).None?)
      ensures result.Compiled? ==>
        && fresh(result.file) && result.file.Valid() && result.file.LightingIdsValid() && result.file.EffectsAgree(env)
        && Compile(lines.value, env) == Some(result.file.StateIn(Compile(lines.value, env).value.section))
      ensures result.Compiled? ==>
        && result.file.nextLightingId == 0
        && forall k :: k in result.file.LightingEffects ==> result.file.LightingEffects[k].Id == -1
    {
      if lines.None? {
        return NoProfile;
      }
      var file := new UserDataFile();
      var ok, sec := file.LoadPass(lines.value, {LightingGroup, MacroGroup}, env);
      if !ok {
        return Aborted;
      }
      ok, sec := file.LoadPass(lines.value, {LayerGroup}, env);
      if !ok {
        return Aborted;
      }
      CompileNoIds(lines.value, env);
      return Compiled(file);
    }
  }

  /** An effect loaded from `doc` and stored under `name`, with every
      other effect as it was, keeps the stored effects in step with the
      view that `StoreEffect` gives. */
  twostate lemma AgreeAfterLoad(file: UserDataFile, new name: string, new layers: set<KeyboardLayer>,
                                new doc: seq<(string, Json)>, new env: Env)
    requires old(file.EffectsAgree(env))
    requires file.Effects == StoreEffect(old(file.Effects), name, layers, doc)
    requires var loaded :=
      && file.LightingEffects.Keys == old(file.LightingEffects.Keys) + {name}
      && (var e := file.LightingEffects[name];
          && e.Layers == (if name in old(file.LightingEffects) then old(file.LightingEffects[name].Layers) else {}) + layers
          && e.Id == (if name in old(file.LightingEffects) then old(file.LightingEffects[name].Id) else -1)
          && e.Contents() == ContentsAfter(env.enums, KeyLocator(env.keyboard, env.enums),
                                           (if name in old(file.Effects) then old(file.Effects[name].Docs) else []) + [doc]))
      && forall k :: k in old(file.LightingEffects) && k != name ==>
           file.LightingEffects[k] == old(file.LightingEffects[k]) && unchanged(file.LightingEffects[k]);
      loaded
    ensures file.EffectsAgree(env)
  {
    var locate := KeyLocator(env.keyboard, env.enums);
    forall k | k in file.LightingEffects
      ensures && file.Effects[k].Id == file.LightingEffects[k].Id
              && file.Effects[k].Layers == file.LightingEffects[k].Layers
              && file.LightingEffects[k].Contents() == ContentsAfter(env.enums, locate, file.Effects[k].Docs)
    {
      if k != name {
        assert file.Effects[k] == old(file.Effects[k]);
        assert file.LightingEffects[k].Contents() == old(file.LightingEffects[k].Contents());
      }
    }
  }

  /** One pass one line further. */
  lemma RunSnoc(st: PassState, kinds: seq<LineKind>, kind: LineKind, groups: set<GroupType>, env: Env)
    ensures Run(st, kinds + [kind], groups, env)
         == match Run(st, kinds, groups, env)
            case None => None
            case Some(s) => Step(s, kind, groups, env)
  {
    assert (kinds + [kind])[..|kinds|] == kinds;
  }

  /** One pass over one more line. */
  lemma RunLines(st: PassState, lines: seq<string>, i: nat, before: PassState, groups: set<GroupType>, env: Env)
    requires i < |lines| && Run(st, Kinds(lines[..i]), groups, env) == Some(before)
    ensures Run(st, Kinds(lines[..i + 1]), groups, env) == Step(before, Classify(lines[i]), groups, env)
  {
    KindsSnoc(lines, i);
    RunSnoc(st, Kinds(lines[..i]), Classify(lines[i]), groups, env);
  }

  /** A pass that aborts on a line stays aborted to the end. */
  lemma {:induction false} RunStaysAborted(st: PassState, lines: seq<string>, n: nat, groups: set<GroupType>, env: Env)
    requires n <= |lines| && Run(st, Kinds(lines[..n]), groups, env).None?
    ensures Run(st, Kinds(lines), groups, env).None?
    decreases |lines| - n
  {
    if n == |lines| {
      assert lines[..n] == lines;
    } else {
      KindsSnoc(lines, n);
      RunSnoc(st, Kinds(lines[..n]), Classify(lines[n]), groups, env);
      RunStaysAborted(st, lines, n + 1, groups, env);
    }
  }
}
