/** The profile compiler as a function of its input lines: one pass is a
    left fold of a line step over the lines, under an allow-list of
    groups, and a compile is a lighting-and-macro pass followed by a
    layer pass over the same lines. */
module Passes {
  import opened Options
  import opened Numeric
  import opened Text
  import opened Json
  import opened Tables
  import opened Lighting
  import opened Keymap
  import opened Macros
  import opened Headers
  import opened Remaps

  /** What the compiler reads besides the profile: the keyboard, the
      enums, the `KeyValues` helpers and the lighting effect files. */
  datatype Env = Env(keyboard: KeyboardState, enums: Enums, kv: KeyValues, files: map<string, Option<Json>>)

  /** A stored lighting effect as the compiler leaves it: its lighting
      id, the layers it is used on, and the documents it loaded, in
      order (its contents are `ContentsAfter` of them). */
  datatype EffectView = EffectView(Id: int, Layers: set<KeyboardLayer>, Docs: seq<seq<(string, Json)>>)

  /** A lighting effect just created for a header. */
  const NewEffect := EffectView(-1, {}, [])

  /** The compiler's state: the layer tables, the macros and their id
      counter, the `NoLighting` settings, the stored lighting effects by
      name, the log, and the current section. */
  datatype PassState = PassState(
    layers: map<KeyboardLayer, Layer>,
    fnLayers: map<KeyboardLayer, Layer>,
    macros: map<string, Macro>,
    next: int,
    noLighting: bool,
    noLightingLayers: set<KeyboardLayer>,
    effects: map<string, EffectView>,
    log: seq<LogEntry>,
    section: Section)

  /** The section every pass starts in. */
  const NoSection := Section(NoGroup, {}, "")

  /** A new `UserDataFile`. */
  const Initial := PassState(map[], map[], map[], 0, false, {}, map[], [], NoSection)

  /** The three kinds of line, after trimming: a comment, a header and
      a data line. */
  datatype LineKind = CommentLine | HeaderLine(header: Option<Header>) | DataLine(text: string)

  function Classify(raw: string): (r: LineKind)
    ensures r.CommentLine? <==> "#" <= Trim(raw)
    ensures r.HeaderLine? <==> !("#" <= Trim(raw)) && "[" <= Trim(raw)
  {
    var line := Trim(raw);
    if "#" <= line then CommentLine
    else if "[" <= line then HeaderLine(ParseHeader(line))
    else DataLine(line)
  }

  // ---------------------------------------------------------------------
  // One line

  /** Whether a header is a `[NoLighting]` without a list. */
  predicate SetsNoLighting(h: Header) {
    HasToken(h.groupNames, "nolighting") && h.inner.None?
  }

  /** The layers a `[NoLighting(...)]` header lists. */
  function NoLightingList(h: Header): set<KeyboardLayer> {
    if HasToken(h.groupNames, "nolighting") && h.inner.Some? then ParsedLayers(h.inner.value) else {}
  }

  /** Whether the effect a `[Lighting(name, ...)]` header names loads. */
  predicate EffectLoads(h: Header, groups: set<GroupType>, env: Env) {
    LightingSelected(h, groups) && EffectDocument(env.files, InnerName(h)).Some?
  }

  /** The table half of a header line: adds the (empty) layers its names
      select, creates the macro it opens (replacing any of that name),
      applies `NoLighting` regardless of the pass, and sets the section. */
  function TablesStep(st: PassState, h: Header, groups: set<GroupType>, env: Env): (r: PassState)
    ensures r.effects == st.effects && r.log == st.log && r.next == st.next
    ensures r.section == HeaderSection(st.section, Some(h), groups)
  {
    var sec := HeaderSection(st.section, Some(h), groups);
    var name := InnerName(h);
    st.(layers := AddLayers(st.layers, LayersOf(sec.refs, false)),
        fnLayers := AddLayers(st.fnLayers, LayersOf(sec.refs, true)),
        macros := if MacroSelected(h, groups) then st.macros[name := NewMacro(name, h.inner.value, env.enums)] else st.macros,
        noLighting := st.noLighting || SetsNoLighting(h),
        noLightingLayers := st.noLightingLayers + NoLightingList(h),
        section := sec)
  }

  /** The lighting half of a header line: the effect stored under the
      header's name, or a new one, is loaded again; one that loads is
      stored with the layers listed after the name added, one that does
      not is logged. */
  function LightingStep(st: PassState, h: Header, groups: set<GroupType>, env: Env): (r: PassState)
    ensures r.(effects := st.effects, log := st.log) == st
    ensures !LightingSelected(h, groups) ==> r == st
    ensures r.effects.Keys == if EffectLoads(h, groups, env) then st.effects.Keys + {InnerName(h)} else st.effects.Keys
    ensures forall k :: k in st.effects && k != InnerName(h) ==> r.effects[k] == st.effects[k]
    ensures r.log == if LightingSelected(h, groups) && !EffectLoads(h, groups, env)
                     then st.log + [LightingLoadFailed(InnerName(h))] else st.log
  {
    var name := InnerName(h);
    if !LightingSelected(h, groups) then st
    else
      match EffectDocument(env.files, name)
      case None => st.(log := st.log + [LightingLoadFailed(name)])
      case Some(doc) =>
        st.(effects := StoreEffect(st.effects, name, ParsedLayers(h.inner.value[1..]), doc))
  }

  /** The effect stored under `name` (or a new one) loaded again from
      `doc`, with `layers` added to its layers; its id is kept. */
  function StoreEffect(effects: map<string, EffectView>, name: string, layers: set<KeyboardLayer>, doc: seq<(string, Json)>)
    : (r: map<string, EffectView>)
    ensures r.Keys == effects.Keys + {name}
    ensures forall k :: k in effects && k != name ==> r[k] == effects[k]
    ensures name in effects ==> r[name].Id == effects[name].Id && r[name].Layers == effects[name].Layers + layers
    ensures name !in effects ==> r[name].Id == -1 && r[name].Layers == layers
    ensures r[name].Docs == (if name in effects then effects[name].Docs else []) + [doc]
  {
    var e := if name in effects then effects[name] else NewEffect;
    effects[name := EffectView(e.Id, e.Layers + layers, e.Docs + [doc])]
  }

  /** A header line: its table half, then its lighting half. */
  function HeaderStep(st: PassState, header: Option<Header>, groups: set<GroupType>, env: Env): (r: PassState)
    ensures r.section == HeaderSection(st.section, header, groups)
  {
    match header
    case None => st.(section := HeaderSection(st.section, header, groups))
    case Some(h) => LightingStep(TablesStep(st, h, groups, env), h, groups, env)
  }

  /** A remap line writes its pair into every selected layer table. */
  function RemapStep(st: PassState, r: Remap): PassState {
    st.(layers := WriteKey(st.layers, LayersOf(st.section.refs, false), r.src, r.dest.dst),
        fnLayers := WriteKey(st.fnLayers, LayersOf(st.section.refs, true), r.src, r.dest.dst),
        macros := r.dest.macros, next := r.dest.next, log := r.dest.log)
  }

  /** A data line: a remap line in a layer section, an action line in a
      macro section (`None` when its keyword is unknown), nothing
      elsewhere. */
  function DataStep(st: PassState, text: string, env: Env): Option<PassState> {
    match st.section.group
    case LayerGroup =>
      (match RemapOf(text, st.macros, st.next, st.log, env.enums, env.kv)
       case None => Some(st)
       case Some(r) => Some(RemapStep(st, r)))
    case MacroGroup =>
      var name := st.section.macro;
      if name !in st.macros then Some(st)
      else
        (match LineActions(text, st.macros[name].DefaultDelay, env.enums, env.kv)
         case None => None
         case Some(actions) => Some(st.(macros := st.macros[name := st.macros[name].(Actions := st.macros[name].Actions + actions)])))
    case _ => Some(st)
  }

  /** A line as the compile loop sees it: trimmed, then a comment, a
      header (parsed) or a data line. */
  function Step(st: PassState, kind: LineKind, groups: set<GroupType>, env: Env): Option<PassState> {
    match kind
    case CommentLine => Some(st)
    case HeaderLine(h) => Some(HeaderStep(st, h, groups, env))
    case DataLine(text) => DataStep(st, text, env)
  }

  /** One pass over the classified lines; `None` when it aborts. */
  function Run(st: PassState, kinds: seq<LineKind>, groups: set<GroupType>, env: Env): Option<PassState> {
    if kinds == [] then Some(st)
    else
      match Run(st, kinds[..|kinds| - 1], groups, env)
      case None => None
      case Some(s) => Step(s, kinds[|kinds| - 1], groups, env)
  }

  /** Every line, classified. */
  function Kinds(lines: seq<string>): (r: seq<LineKind>)
    ensures |r| == |lines|
  {
    if lines == [] then [] else Kinds(lines[..|lines| - 1]) + [Classify(lines[|lines| - 1])]
  }

  lemma KindsSnoc(lines: seq<string>, i: nat)
    requires i < |lines|
    ensures Kinds(lines[..i + 1]) == Kinds(lines[..i]) + [Classify(lines[i])]
  {
    assert lines[..i + 1][..i] == lines[..i];
  }

  /** The static `Load`: lighting and macros first, so that the layer pass
      finds every macro, each pass starting in no section. */
  function Compile(lines: seq<string>, env: Env): Option<PassState> {
    var kinds := Kinds(lines);
    match Run(Initial, kinds, {LightingGroup, MacroGroup}, env)
    case None => None
    case Some(s) => Run(s.(section := NoSection), kinds, {LayerGroup}, env)
  }

  // ---------------------------------------------------------------------
  // Aborting

  /** The null dereference of an unknown action keyword: a data line with
      a `:` whose keyword is not `press`, `down` or `up`, in a macro
      section. */
  predicate AbortsAt(sec: Section, kind: LineKind) {
    && kind.DataLine?
    && sec.group == MacroGroup
    && var fields := Split(kind.text, ':');
       |fields| > 1 && StatesOf(ToLower(fields[0])).None?
  }

  /** A step aborts exactly on such a line. */
  lemma StepAborts(st: PassState, kind: LineKind, groups: set<GroupType>, env: Env)
    requires st.section.group == MacroGroup ==> st.section.macro in st.macros
    ensures Step(st, kind, groups, env).None? <==> AbortsAt(st.section, kind)
  {
    if kind.DataLine? && st.section.group == MacroGroup {
      var name := st.section.macro;
      assert DataStep(st, kind.text, env).None? <==> LineActions(kind.text, st.macros[name].DefaultDelay, env.enums, env.kv).None?;
    }
  }

  /** Outside a macro section nothing aborts, and a pass that does not
      allow macros never enters one. */
  lemma StepOutsideMacros(st: PassState, kind: LineKind, groups: set<GroupType>, env: Env)
    requires st.section.group != MacroGroup
    ensures Step(st, kind, groups, env).Some?
    ensures MacroGroup !in groups ==> Step(st, kind, groups, env).value.section.group != MacroGroup
  {
    if kind.DataLine? {
      DataKeepsRest(st, kind.text, env);
    }
  }

  /** A pass that does not allow macros never aborts. */
  lemma {:induction false} NoMacroPassCompletes(st: PassState, kinds: seq<LineKind>, groups: set<GroupType>, env: Env)
    requires MacroGroup !in groups && st.section.group != MacroGroup
    ensures Run(st, kinds, groups, env).Some?
    ensures Run(st, kinds, groups, env).value.section.group != MacroGroup
  {
    if kinds != [] {
      NoMacroPassCompletes(st, kinds[..|kinds| - 1], groups, env);
      StepOutsideMacros(Run(st, kinds[..|kinds| - 1], groups, env).value, kinds[|kinds| - 1], groups, env);
    }
  }

  // ---------------------------------------------------------------------
  // The bookkeeping a pass keeps

  /** The consistency the compile loop keeps: the id bookkeeping, no ids
      during a macro pass, the section's group allowed by the pass, and
      the current macro defined in a macro section. */
  ghost predicate Consistent(st: PassState, groups: set<GroupType>) {
    && IdsValid(st.macros, st.next)
    && (MacroGroup in groups ==> st.next == 0)
    && (st.section.group == NoGroup || st.section.group in groups)
    && (st.section.group == MacroGroup ==> st.section.macro in st.macros)
  }

  /** A pass may allow macros or layers, not both (macros must all exist
      before the first one is bound). */
  predicate SeparatePasses(groups: set<GroupType>) {
    !(MacroGroup in groups && LayerGroup in groups)
  }

  /** A data line changes only the layer tables, the macros, the ids and
      the log. */
  lemma DataKeepsRest(st: PassState, text: string, env: Env)
    requires DataStep(st, text, env).Some?
    ensures var r := DataStep(st, text, env).value;
      && r.noLighting == st.noLighting && r.noLightingLayers == st.noLightingLayers
      && r.effects == st.effects && r.section == st.section
  {
  }

  lemma HeaderConsistent(st: PassState, header: Option<Header>, groups: set<GroupType>, env: Env)
    requires Consistent(st, groups)
    ensures Consistent(HeaderStep(st, header, groups, env), groups)
  {
    if header.Some? && MacroSelected(header.value, groups) {
      var h := header.value;
      IdsBound(st.macros, st.next);
      ReplaceUnassigned(st.macros, st.next, InnerName(h), NewMacro(InnerName(h), h.inner.value, env.enums));
    }
    var sec := HeaderSection(st.section, header, groups);
    if header.Some? {
      var h := header.value;
      if GroupOfTokens(h.groupNames, h, groups) != NoGroup {
        GroupOfTokensLast(h.groupNames, h, groups);
      }
    }
  }

  /** A remap line keeps the bookkeeping and changes no macro but its id. */
  lemma RemapKeepsMacros(st: PassState, text: string, env: Env)
    requires IdsValid(st.macros, st.next)
    requires RemapOf(text, st.macros, st.next, st.log, env.enums, env.kv).Some?
    ensures var r := RemapOf(text, st.macros, st.next, st.log, env.enums, env.kv).value.dest;
      && IdsValid(r.macros, r.next)
      && r.macros.Keys == st.macros.Keys
      && (forall k :: k in r.macros ==> r.macros[k] == st.macros[k].(Id := r.macros[k].Id))
      && (forall k :: k in r.macros && st.macros[k].Id != -1 ==> r.macros[k].Id == st.macros[k].Id)
  {
    var fields := Split(text, ':');
    var src := SourceValue(Split(fields[0], '+'), env.enums);
    DestValueKeepsMacros(DestState(0, st.macros, st.next, st.log), Split(fields[1], '+'), src, env.enums, env.kv);
  }

  lemma DataConsistent(st: PassState, text: string, groups: set<GroupType>, env: Env)
    requires Consistent(st, groups) && SeparatePasses(groups)
    requires DataStep(st, text, env).Some?
    ensures Consistent(DataStep(st, text, env).value, groups)
  {
    DataKeepsRest(st, text, env);
    if st.section.group == LayerGroup {
      if RemapOf(text, st.macros, st.next, st.log, env.enums, env.kv).Some? {
        RemapKeepsMacros(st, text, env);
      }
    } else if st.section.group == MacroGroup {
      var name := st.section.macro;
      var actions := LineActions(text, st.macros[name].DefaultDelay, env.enums, env.kv);
      ReplaceActions(st.macros, st.next, name, st.macros[name].Actions + actions.value);
    }
  }

  lemma StepConsistent(st: PassState, kind: LineKind, groups: set<GroupType>, env: Env)
    requires Consistent(st, groups) && SeparatePasses(groups)
    requires Step(st, kind, groups, env).Some?
    ensures Consistent(Step(st, kind, groups, env).value, groups)
  {
    match kind
    case CommentLine =>
    case HeaderLine(header) => HeaderConsistent(st, header, groups, env);
    case DataLine(text) => DataConsistent(st, text, groups, env);
  }

  lemma {:induction false} RunConsistent(st: PassState, kinds: seq<LineKind>, groups: set<GroupType>, env: Env)
    requires Consistent(st, groups) && SeparatePasses(groups)
    requires Run(st, kinds, groups, env).Some?
    ensures Consistent(Run(st, kinds, groups, env).value, groups)
  {
    if kinds != [] {
      RunConsistent(st, kinds[..|kinds| - 1], groups, env);
      StepConsistent(Run(st, kinds[..|kinds| - 1], groups, env).value, kinds[|kinds| - 1], groups, env);
    }
  }

  // ---------------------------------------------------------------------
  // NoLighting

  /** A `[NoLighting]` header line. */
  predicate SetsNoLightingLine(kind: LineKind) {
    kind.HeaderLine? && kind.header.Some? && SetsNoLighting(kind.header.value)
  }

  /** The layers a `[NoLighting(...)]` header line lists. */
  function NoLightingLine(kind: LineKind): set<KeyboardLayer> {
    if kind.HeaderLine? && kind.header.Some? then NoLightingList(kind.header.value) else {}
  }

  /** Whether the lines hold a `[NoLighting]` header. */
  predicate NoLightingIn(kinds: seq<LineKind>) {
    exists i :: 0 <= i < |kinds| && SetsNoLightingLine(kinds[i])
  }

  /** The layers of the `[NoLighting(...)]` headers among the lines. */
  function NoLightingLayersIn(kinds: seq<LineKind>): set<KeyboardLayer> {
    if kinds == [] then {}
    else NoLightingLayersIn(kinds[..|kinds| - 1]) + NoLightingLine(kinds[|kinds| - 1])
  }

  lemma HeaderNoLighting(st: PassState, header: Option<Header>, groups: set<GroupType>, env: Env)
    ensures HeaderStep(st, header, groups, env).noLighting == (st.noLighting || (header.Some? && SetsNoLighting(header.value)))
    ensures HeaderStep(st, header, groups, env).noLightingLayers
         == st.noLightingLayers + (if header.Some? then NoLightingList(header.value) else {})
  {
  }

  lemma StepNoLighting(st: PassState, kind: LineKind, groups: set<GroupType>, env: Env)
    requires Step(st, kind, groups, env).Some?
    ensures Step(st, kind, groups, env).value.noLighting == (st.noLighting || SetsNoLightingLine(kind))
    ensures Step(st, kind, groups, env).value.noLightingLayers == st.noLightingLayers + NoLightingLine(kind)
  {
    match kind
    case CommentLine =>
    case HeaderLine(h) => HeaderNoLighting(st, h, groups, env);
    case DataLine(text) => DataKeepsRest(st, text, env);
  }

  /** `NoLighting` headers take effect whatever groups the pass allows, so
      both passes apply them. */
  lemma {:induction false} NoLightingEveryPass(st: PassState, kinds: seq<LineKind>, groups: set<GroupType>, env: Env)
    requires Run(st, kinds, groups, env).Some?
    ensures Run(st, kinds, groups, env).value.noLighting == (st.noLighting || NoLightingIn(kinds))
    ensures Run(st, kinds, groups, env).value.noLightingLayers == st.noLightingLayers + NoLightingLayersIn(kinds)
  {
    if kinds != [] {
      var n := |kinds| - 1;
      var prefix := kinds[..n];
      NoLightingEveryPass(st, prefix, groups, env);
      StepNoLighting(Run(st, prefix, groups, env).value, kinds[n], groups, env);
      assert forall i :: 0 <= i < n ==> prefix[i] == kinds[i];
      if NoLightingIn(kinds) && !NoLightingIn(prefix) {
        var i :| 0 <= i < |kinds| && SetsNoLightingLine(kinds[i]);
        assert i == n;
      }
    }
  }

  /** After a compile, `NoLighting` and `NoLightingLayers` are what the
      `NoLighting` headers say. */
  lemma CompileNoLighting(lines: seq<string>, env: Env)
    requires Compile(lines, env).Some?
    ensures Compile(lines, env).value.noLighting == NoLightingIn(Kinds(lines))
    ensures Compile(lines, env).value.noLightingLayers == NoLightingLayersIn(Kinds(lines))
  {
    var kinds := Kinds(lines);
    NoLightingEveryPass(Initial, kinds, {LightingGroup, MacroGroup}, env);
    var s := Run(Initial, kinds, {LightingGroup, MacroGroup}, env).value;
    NoLightingEveryPass(s.(section := NoSection), kinds, {LayerGroup}, env);
  }

  // ---------------------------------------------------------------------
  // Effect ids

  /** No stored effect has an id yet: a compile stores effects with id
      -1, and only `GetLighting` hands ids out. */
  ghost predicate NoIdsYet(effects: map<string, EffectView>) {
    forall k :: k in effects ==> effects[k].Id == -1
  }

  lemma StepKeepsNoIds(st: PassState, kind: LineKind, groups: set<GroupType>, env: Env)
    requires NoIdsYet(st.effects) && Step(st, kind, groups, env).Some?
    ensures NoIdsYet(Step(st, kind, groups, env).value.effects)
  {
    match kind
    case CommentLine =>
    case HeaderLine(h) =>
      if h.Some? && EffectLoads(h.value, groups, env) {
        var t := TablesStep(st, h.value, groups, env);
        var name := InnerName(h.value);
        assert LightingStep(t, h.value, groups, env).effects
            == StoreEffect(t.effects, name, ParsedLayers(h.value.inner.value[1..]), EffectDocument(env.files, name).value);
      }
    case DataLine(text) => DataKeepsRest(st, text, env);
  }

  /** A pass that starts with no ids given out ends with none. */
  lemma {:induction false} RunKeepsNoIds(st: PassState, kinds: seq<LineKind>, groups: set<GroupType>, env: Env)
    requires NoIdsYet(st.effects) && Run(st, kinds, groups, env).Some?
    ensures NoIdsYet(Run(st, kinds, groups, env).value.effects)
  {
    if kinds != [] {
      var n := |kinds| - 1;
      RunKeepsNoIds(st, kinds[..n], groups, env);
      StepKeepsNoIds(Run(st, kinds[..n], groups, env).value, kinds[n], groups, env);
    }
  }

  /** Every effect a compile stores has id -1. */
  lemma CompileNoIds(lines: seq<string>, env: Env)
    requires Compile(lines, env).Some?
    ensures forall k :: k in Compile(lines, env).value.effects ==> Compile(lines, env).value.effects[k].Id == -1
  {
    var kinds := Kinds(lines);
    RunKeepsNoIds(Initial, kinds, {LightingGroup, MacroGroup}, env);
    var s := Run(Initial, kinds, {LightingGroup, MacroGroup}, env).value;
    RunKeepsNoIds(s.(section := NoSection), kinds, {LayerGroup}, env);
  }

  // ---------------------------------------------------------------------
  // What each pass touches

  /** What a pass leaves alone: without the layer group, the layer
      tables and ids; without the macro group, every macro but its id;
      without the lighting group, the stored effects. */
  ghost predicate Untouched(st: PassState, r: PassState, groups: set<GroupType>) {
    && (LayerGroup !in groups ==> r.layers == st.layers && r.fnLayers == st.fnLayers && r.next == st.next)
    && (MacroGroup !in groups ==>
          && r.macros.Keys == st.macros.Keys
          && (forall k :: k in r.macros ==> r.macros[k] == st.macros[k].(Id := r.macros[k].Id))
          && (forall k :: k in r.macros && st.macros[k].Id != -1 ==> r.macros[k].Id == st.macros[k].Id))
    && (LightingGroup !in groups ==> r.effects == st.effects)
  }

  lemma UntouchedTrans(a: PassState, b: PassState, c: PassState, groups: set<GroupType>)
    requires Untouched(a, b, groups) && Untouched(b, c, groups)
    ensures Untouched(a, c, groups)
  {
  }

  lemma HeaderUntouched(st: PassState, header: Option<Header>, groups: set<GroupType>, env: Env)
    ensures Untouched(st, HeaderStep(st, header, groups, env), groups)
  {
    var r := HeaderStep(st, header, groups, env);
    if header.Some? {
      var h := header.value;
      if LayerGroup !in groups {
        NoLayersAdded(st.layers, h.groupNames, groups);
        NoLayersAdded(st.fnLayers, h.groupNames, groups);
      }
      if MacroGroup !in groups {
        assert !MacroSelected(h, groups);
        assert r.macros == st.macros;
      }
      if LightingGroup !in groups {
        assert !EffectLoads(h, groups, env);
      }
    }
  }

  /** Outside a layer pass, a header selects and adds no layer. */
  lemma NoLayersAdded(m: map<KeyboardLayer, Layer>, tokens: seq<string>, groups: set<GroupType>)
    requires LayerGroup !in groups
    ensures forall fn :: AddLayers(m, LayersOf(RefsOfTokens(tokens, groups), fn)) == m
  {
    assert RefsOfTokens(tokens, groups) == {};
    forall fn ensures AddLayers(m, LayersOf({}, fn)) == m {
      assert LayersOf({}, fn) == {};
    }
  }

  lemma DataUntouched(st: PassState, text: string, groups: set<GroupType>, env: Env)
    requires Consistent(st, groups)
    requires DataStep(st, text, env).Some?
    ensures Untouched(st, DataStep(st, text, env).value, groups)
  {
    DataKeepsRest(st, text, env);
    if st.section.group == LayerGroup && RemapOf(text, st.macros, st.next, st.log, env.enums, env.kv).Some? {
      RemapKeepsMacros(st, text, env);
    }
  }

  lemma StepUntouched(st: PassState, kind: LineKind, groups: set<GroupType>, env: Env)
    requires Consistent(st, groups)
    requires Step(st, kind, groups, env).Some?
    ensures Untouched(st, Step(st, kind, groups, env).value, groups)
  {
    match kind
    case CommentLine =>
    case HeaderLine(header) => HeaderUntouched(st, header, groups, env);
    case DataLine(text) => DataUntouched(st, text, groups, env);
  }

  /** The passes are separate: each leaves alone what it does not allow. */
  lemma {:induction false} PassTouches(st: PassState, kinds: seq<LineKind>, groups: set<GroupType>, env: Env)
    requires Consistent(st, groups) && SeparatePasses(groups)
    requires Run(st, kinds, groups, env).Some?
    ensures Untouched(st, Run(st, kinds, groups, env).value, groups)
  {
    if kinds != [] {
      var prefix := kinds[..|kinds| - 1];
      PassTouches(st, prefix, groups, env);
      RunConsistent(st, prefix, groups, env);
      var mid := Run(st, prefix, groups, env).value;
      StepUntouched(mid, kinds[|kinds| - 1], groups, env);
      UntouchedTrans(st, mid, Run(st, kinds, groups, env).value, groups);
    }
  }

  // ---------------------------------------------------------------------
  // Macros

  /** The name a `[Macro(name, ...)]` header line defines. */
  function MacroNameOf(kind: LineKind): set<string> {
    if kind.HeaderLine? && kind.header.Some? && MacroSelected(kind.header.value, {MacroGroup})
    then {InnerName(kind.header.value)} else {}
  }

  /** The names the macro headers among the lines define. */
  function MacroNames(kinds: seq<LineKind>): set<string> {
    if kinds == [] then {} else MacroNames(kinds[..|kinds| - 1]) + MacroNameOf(kinds[|kinds| - 1])
  }

  lemma DataMacroNames(st: PassState, text: string, env: Env)
    requires IdsValid(st.macros, st.next)
    requires DataStep(st, text, env).Some?
    ensures DataStep(st, text, env).value.macros.Keys == st.macros.Keys
  {
    if st.section.group == LayerGroup && RemapOf(text, st.macros, st.next, st.log, env.enums, env.kv).Some? {
      RemapKeepsMacros(st, text, env);
    }
  }

  lemma StepMacroNames(st: PassState, kind: LineKind, groups: set<GroupType>, env: Env)
    requires IdsValid(st.macros, st.next)
    requires Step(st, kind, groups, env).Some?
    ensures Step(st, kind, groups, env).value.macros.Keys <= st.macros.Keys + MacroNameOf(kind)
  {
    match kind
    case CommentLine =>
    case HeaderLine(header) =>
      if header.Some? {
        var h := header.value;
        assert Step(st, kind, groups, env).value.macros == TablesStep(st, h, groups, env).macros;
        assert MacroSelected(h, groups) ==> MacroNameOf(kind) == {InnerName(h)};
      }
    case DataLine(text) => DataMacroNames(st, text, env);
  }

  /** Macros come only from macro headers. */
  lemma {:induction false} RunMacroNames(st: PassState, kinds: seq<LineKind>, groups: set<GroupType>, env: Env)
    requires Consistent(st, groups) && SeparatePasses(groups)
    requires Run(st, kinds, groups, env).Some?
    ensures Run(st, kinds, groups, env).value.macros.Keys <= st.macros.Keys + MacroNames(kinds)
  {
    if kinds != [] {
      var prefix := kinds[..|kinds| - 1];
      RunMacroNames(st, prefix, groups, env);
      RunConsistent(st, prefix, groups, env);
      StepMacroNames(Run(st, prefix, groups, env).value, kinds[|kinds| - 1], groups, env);
    }
  }

  /** A macro header starts its macro over: whatever was defined under
      that name before, the table now holds the new macro, with no
      actions and no id. */
  lemma MacroRedefinition(st: PassState, h: Header, groups: set<GroupType>, env: Env)
    requires MacroSelected(h, groups)
    ensures var r := HeaderStep(st, Some(h), groups, env);
      var name := InnerName(h);
      && r.macros == st.macros[name := NewMacro(name, h.inner.value, env.enums)]
      && r.macros[name].Actions == [] && r.macros[name].Id == -1
      && r.section.macro == name
  {
  }

  /** An action line appends its actions to the current macro and changes
      no other. */
  lemma ActionLineAppends(st: PassState, text: string, env: Env)
    requires st.section.group == MacroGroup && st.section.macro in st.macros
    requires DataStep(st, text, env).Some?
    ensures var name := st.section.macro;
      var r := DataStep(st, text, env).value;
      && LineActions(text, st.macros[name].DefaultDelay, env.enums, env.kv).Some?
      && r.macros == st.macros[name := st.macros[name].(Actions := st.macros[name].Actions
                                         + LineActions(text, st.macros[name].DefaultDelay, env.enums, env.kv).value)]
      && r.layers == st.layers && r.fnLayers == st.fnLayers
  {
  }

  /** A remap line in a section of several layers writes the same pair
      into each of them and into no other table. */
  lemma RemapWritesSelected(st: PassState, r: Remap, kv: KeyValues, ref: LayerRef, q: uint32)
    requires ref.layer in (if ref.fn then st.fnLayers else st.layers)
    ensures var s := RemapStep(st, r);
      var before := if ref.fn then st.fnLayers else st.layers;
      var after := if ref.fn then s.fnLayers else s.layers;
      && ref.layer in after
      && (ref in st.section.refs ==> after[ref.layer].GetKey(kv, r.src) == r.dest.dst)
      && (ref in st.section.refs && q != r.src ==> after[ref.layer].GetKey(kv, q) == before[ref.layer].GetKey(kv, q))
      && (ref !in st.section.refs ==> after[ref.layer] == before[ref.layer])
  {
    var before := if ref.fn then st.fnLayers else st.layers;
    WriteKeyExact(before, LayersOf(st.section.refs, ref.fn), r.src, r.dest.dst, kv, ref.layer, q);
  }

  /** The `Debug.Assert` on binding a macro holds for every profile with
      at most 256 macro names: after a compile every macro has no id or
      an id that fits a byte, ids are distinct, and each bound one was
      given in order from 0. */
  lemma CompileIdsFit(lines: seq<string>, env: Env)
    requires Compile(lines, env).Some? && |MacroNames(Kinds(lines))| <= 256
    ensures var r := Compile(lines, env).value;
      && IdsValid(r.macros, r.next)
      && forall name :: name in r.macros ==> -1 <= r.macros[name].Id <= 255
  {
    var kinds := Kinds(lines);
    var g1, g2 := {LightingGroup, MacroGroup}, {LayerGroup};
    EmptyIdsValid();
    assert Consistent(Initial, g1);
    RunConsistent(Initial, kinds, g1, env);
    RunMacroNames(Initial, kinds, g1, env);
    var s := Run(Initial, kinds, g1, env).value;
    var s2 := s.(section := NoSection);
    assert Consistent(s2, g2);
    SubsetCard(s.macros.Keys, MacroNames(kinds));
    RunConsistent(s2, kinds, g2, env);
    PassTouches(s2, kinds, g2, env);
    var r := Compile(lines, env).value;
    assert r.macros.Keys == s.macros.Keys;
    forall name | name in r.macros ensures -1 <= r.macros[name].Id <= 255 {
      IdsFitByte(r.macros, r.next, name);
    }
  }

  /** A compile aborts only in its first pass: the layer pass always
      completes. */
  lemma CompileAborts(lines: seq<string>, env: Env)
    ensures Compile(lines, env).None? <==> Run(Initial, Kinds(lines), {LightingGroup, MacroGroup}, env).None?
  {
    var s := Run(Initial, Kinds(lines), {LightingGroup, MacroGroup}, env);
    if s.Some? {
      NoMacroPassCompletes(s.value.(section := NoSection), Kinds(lines), {LayerGroup}, env);
    }
  }
}
