# GK6X user data file, modelled in Dafny

GK6X programs GK6x keyboards. Its `UserDataFile` turns a keyboard
profile into the in-memory tables the device layer sends to the keyboard.
A profile is a sectioned text file, and each lighting effect it uses is a
JSON document. The tables are the per-layer key remaps, the named macros
and the named lighting effects. This project models that compiler and
proves what it does.

The model follows `GK6X/UserDataFile.cs` part by part:

- **Colour parser** (`Lighting.ParseColor`). It reads a `0x`/`#`
  AARRGGBB string and repacks it as R | G<<8 | B<<16 | A<<24. With the
  static-lighting fix-up on, a zero alpha becomes 0xFF when some channel
  is set.
- **Key-location resolver** (`Lighting.ResolveKeyLocation`). It tries a
  `0x` driver value looked up in the keyboard's table, then a decimal
  location code, then a `DriverValue` name looked up in the table, then a
  JSON integer. A `0x` key never falls through to the later rules.
- **Lighting-effect loader** (class `Lighting.LightingEffect`). `Load`,
  `LoadStatic` and `LoadDynamic` fill `KeyColors`, `Frames`,
  `TotalFrames` and `Params` in place. Each is proved against a function
  of the JSON document: `StaticColors`, `FramesOf`, `AddCounts` and
  `ParamsOf`.
- **Profile compiler** (class `UserData.UserDataFile`). The static `Load`
  runs two passes of the private `Load` (`LoadPass`). Each pass is a loop
  over the lines that updates the object's tables in place. Every method
  of that loop is proved against the pure compiler in module `Passes`.
  There one pass is `Run`, a fold of `Step` over the classified lines,
  and a whole compile is `Compile`. The properties of the compiler are
  lemmas about `Run` and `Compile`, and about the header, remap and macro
  functions of modules `Headers`, `Remaps` and `Macros`. The pure
  compiler sees a lighting effect as its id, its layers and the documents
  it was loaded from, in order (`EffectView`). The object's stored effects
  agree with that view (`EffectsAgree`): each has the same id and layers,
  and its contents are `ContentsAfter` of those documents.

The collaborators outside the file are parameters (module `Tables`). The
keyboard is its driver-value to location-code map. The enums parsed by
name (`DriverValue`, `MacroRepeatType`, `LightingEffectType`,
`LightingEffectColorType`) are lists of (name, value) pairs. `KeyValues`
is a record of functions plus the `UnusedKeyValue` constant. `KeyboardLayer`
is a fixed datatype of four members: Base, Layer1, Layer2 and Layer3. The profile's lines come in as
`Option<seq<string>>`, where `None` means the file does not exist. The
effect files come in as a map from effect name to parsed JSON (module
`Json`). Log messages are appended to a `Log` sequence.

The model follows the code where the code does something other than one
might expect:

- A `0x` token in a layer line is given to the hexadecimal parser with
  its `0x` still on (lines 739 and 757). The parse fails, so the token
  stores 0 (`HexNameStoresZero`, `HexDestStoresZero`). The colour parser
  and the key resolver strip the prefix first (lines 206 and 247).
- An action line whose key name does not parse still appends an action
  (line 923). That action keeps the default type, key code and modifier.
- An unknown action keyword leaves the state list null, and line 833
  dereferences it. Nothing catches this, so the compile aborts:
  `LoadResult.Aborted`, and `Compile` returns `None`. The layer pass can
  never abort (`CompileAborts`).
- `[Macro(X, ...)]` replaces any macro named X, actions included
  (`MacroRedefinition`). It does not merge.
- Loading an effect that is already stored appends to its `Frames`,
  `Params` and `TotalFrames` without clearing them
  (`ReloadedKeeps`, `ReloadedTwice`).
- `[NoLighting]` headers ignore the pass's allow-list, so both passes
  apply them (`NoLightingEveryPass`).
- Layer names inside `Lighting(...)` and `NoLighting(...)` lists are
  case-sensitive (`ParsedLayersCaseSensitive`). Header group names are
  compared after lower-casing.
- `GetLighting` is modelled, but nothing in the compiler calls it.

## Model

| member | source | states |
|---|---|---|
| `Lighting.ParseColor` | GK6X/UserDataFile.cs:194-235 | Fails on an empty string or one without a `0x`/`#` prefix (out value 0xFFFFFFFF), and on bad hex digits (out value 0). Otherwise succeeds with R, G, B in bytes 0-2 and alpha in byte 3, alpha forced to 0xFF only when the fix-up is on, alpha is 0 and a channel is set |
| `Lighting.ParseColorRoundTrip` | GK6X/UserDataFile.cs:204-224 | Any AARRGGBB colour written after `0x` or `#` parses to R \| G<<8 \| B<<16 \| A<<24. An all-zero colour keeps alpha 0 even with the fix-up |
| `Lighting.ParseColorKeepsChannels` | GK6X/UserDataFile.cs:212-224 | Without the fix-up, all four input channels come back unchanged, only moved |
| `Lighting.ResolveKeyLocation` | GK6X/UserDataFile.cs:237-269 | A JSON integer resolves to itself cast to `int`. Anything that is not a string or an integer fails |
| `Lighting.HexKeyDoesNotFallThrough` | GK6X/UserDataFile.cs:244-252 | A `0x` key resolves exactly when its digits parse and the value is in the keyboard's table, and then only to a code of that table |
| `Lighting.DecimalKeyIgnoresTable` | GK6X/UserDataFile.cs:253-256 | A decimal key that is not `0x` is its own location code, the same on every keyboard |
| `Lighting.NamedKeyComesFromTable` | GK6X/UserDataFile.cs:257-261 | Any other string resolves only to the table entry of the `DriverValue` its name parses to (case-insensitive) |
| `Lighting.KeySetMembers` | GK6X/UserDataFile.cs:313-338 | A key set holds exactly the codes some item resolves to |
| `Lighting.ResolveKeys` | GK6X/UserDataFile.cs:330-337 | The key loop collects exactly the resolvable keys of its items |
| `Lighting.ResolveFrameKeys` | GK6X/UserDataFile.cs:313-338 | A frame's keys come from the member names of an object `Data` or from the items of a list `Data` |
| `Lighting.ResolveParamKeys` | GK6X/UserDataFile.cs:405-416 | A param's keys are the resolvable items of its `Keys` list |
| `Lighting.FrameCount` | GK6X/UserDataFile.cs:302-310 | A frame's count is its JSON `Count` when that is a positive integer, cast to a 32-bit int (wrapping, line 305), and 1 otherwise; a count below 2^31 is kept as it is |
| `Lighting.FramesOfLength` | GK6X/UserDataFile.cs:294-300 | `Frames` gains exactly one frame per object entry; other entries are skipped |
| `Lighting.FramesOfCounts` | GK6X/UserDataFile.cs:294-311 | Every appended frame is the frame of some object entry of the list |
| `Lighting.AddCountsWraps` | GK6X/UserDataFile.cs:311 | `TotalFrames` grows by the sum of the appended frames' counts, wrapped as a 32-bit `int` |
| `Lighting.ParamsOfNonEmpty` | GK6X/UserDataFile.cs:418-421 | No appended param has an empty key set, and each config entry gives at most one param |
| `Lighting.ParamFields` | GK6X/UserDataFile.cs:353-416 | ColorType is the parsed `Type` name or the `Type` number, and Monochrome when absent or unparseable. Val1 is `Count`, else `Val1`, else 0. Val2 is `StayCount`, else `Val2`, else 0. UseRawValues is the boolean, or true for the integer 1. Keys are the resolvable items of `Keys` |
| `Lighting.StaticColorsKeys` | GK6X/UserDataFile.cs:271-287 | Static loading keeps every existing key and adds only keys that some `Data` member resolves to |
| `Lighting.LastMemberWins` | GK6X/UserDataFile.cs:271-287 | A key's colour after static loading is that of the last `Data` member that sets it (`SetsKey`: its name resolves to the key and its value parses as a colour); one member at a time, `StaticEntryAt` |
| `Lighting.UnsetKeyKept` | GK6X/UserDataFile.cs:271-287 | A key no `Data` member sets keeps the colour it had, and a key without one stays without |
| `Lighting.SetKeyPresent` | GK6X/UserDataFile.cs:271-287 | Every key some `Data` member sets has a colour after static loading |
| `Lighting.LightingEffect.constructor` | GK6X/UserDataFile.cs:122-126 | A new effect has id -1, its name, and no frames, params, colours or layers |
| `Lighting.LightingEffect.Load` | GK6X/UserDataFile.cs:142-192 | Succeeds exactly when the effect's file holds a JSON object, and changes nothing when it fails. On success it keeps id, name and layers, and its contents become `Reloaded` of the document over the old contents |
| `Lighting.ReloadedKeeps` | GK6X/UserDataFile.cs:158-186 | A load sets `Type` from the document and clears nothing: old frames and params stay in front, old coloured keys stay coloured, a static load leaves the frames alone and any other load the colours |
| `Lighting.ContentsAfterSnoc` | GK6X/UserDataFile.cs:675-680 | The contents of an effect loaded from a list of documents, one after another (`ContentsAfter`, `LastLoaded`), are those of the last document reloaded over what the earlier ones left |
| `Lighting.ReloadedTwice` | GK6X/UserDataFile.cs:176-183 | Loading a dynamic effect a second time appends its frames and params a second time and keeps the colours |
| `Lighting.LightingEffect.LoadStatic` | GK6X/UserDataFile.cs:271-287 | `KeyColors` becomes the old colours updated by every resolvable `Data` member whose colour parses |
| `Lighting.LightingEffect.LoadDynamic` | GK6X/UserDataFile.cs:289-425 | Appends the frames of `Frames` and the params of `LEConfigs`, and adds the frame counts to `TotalFrames` |
| `Lighting.LightingEffect.LoadFrames` | GK6X/UserDataFile.cs:292-341 | `Frames` becomes the old frames plus one frame per object entry, and `TotalFrames` grows by their counts |
| `Lighting.LightingEffect.AddFrame` | GK6X/UserDataFile.cs:296-338 | One frame object appends exactly one frame and adds its count |
| `Lighting.LightingEffect.LoadParams` | GK6X/UserDataFile.cs:343-424 | `Params` becomes the old params plus the param of every config object that has keys |
| `Tables.ParseKeyboardLayerExact` | GK6X/UserDataFile.cs:687 | A `KeyboardLayer` parses from its exact spelling only |
| `Tables.EnumParse` | GK6X/UserDataFile.cs:162 | A name parses exactly when some member's name matches it, and gives that member's value |
| `Keymap.GetKeyAfterWrite` | GK6X/UserDataFile.cs:31-39 | `GetKey` gives `UnusedKeyValue` for an unmapped key, and a write is seen at its key only |
| `Keymap.AddLayer` | GK6X/UserDataFile.cs:436-447 | A missing layer is added empty and an existing layer is kept unchanged |
| `Keymap.WriteKeyExact` | GK6X/UserDataFile.cs:796-799 | Each selected layer maps the source to the destination and keeps its other keys; every other layer is unchanged |
| `Headers.ParseHeader` | GK6X/UserDataFile.cs:545-578 | A header parses only when `]` is at index 2 or later. With parentheses it has exactly one group name; without them, none of its names contains a comma |
| `Headers.ListHeaderHasNoInnerName` | GK6X/UserDataFile.cs:570-578 | A header without parentheses has no inner name, so it cannot open a macro or lighting section |
| `Headers.LayerTokens` | GK6X/UserDataFile.cs:583-638 | The eight lower-case layer group names and the eight layer tables correspond one to one |
| `Headers.TokenGroup` | GK6X/UserDataFile.cs:579-716 | A group name opens only a group that the pass allows |
| `Headers.GroupOfTokensLast` | GK6X/UserDataFile.cs:579-717 | The current group is the one opened by the last name that opens any. It stays None when no name opens one |
| `Headers.MultiLayerHeader` | GK6X/UserDataFile.cs:579-638 | When layers are allowed, a header selects exactly the layer tables its names name, in any case. Other names are ignored |
| `Headers.ParsedLayers` | GK6X/UserDataFile.cs:684-691 | A lighting or no-lighting list names exactly the layers spelled exactly in it |
| `Headers.ParsedLayersCaseSensitive` | GK6X/UserDataFile.cs:705 | `Base` names a layer in such a list and `base` does not |
| `Headers.HeaderSection` | GK6X/UserDataFile.cs:540-717 | After a header that does not parse, the section has no group and no layers. A macro group is open only after a selected macro header, which names the current macro |
| `Headers.HeaderResets` | GK6X/UserDataFile.cs:540-543 | The group and layers after a header depend only on the header, never on the section before it |
| `Macros.NewMacro` | GK6X/UserDataFile.cs:639-669 | A macro header creates a macro with no id and no actions. The delay is field 1 as a `ushort`, else 0. The repeat type is field 2 parsed case-insensitively, else RepeatXTimes. The repeat count is field 3 as a byte when that is non-zero, else 1. The trailing delay is on exactly when field 4 parses as true |
| `Macros.NewMacroDelay` | GK6X/UserDataFile.cs:647 | A delay written in decimal becomes the macro's default delay |
| `Macros.AssignIdValid` | GK6X/UserDataFile.cs:449-460 | `GetMacro` gives a known macro without an id the next id, and changes no other macro. An id once given never changes. An unknown name consumes no id. Ids stay distinct and counted by `nextMacroId` |
| `Macros.IdsBound` | GK6X/UserDataFile.cs:449-460 | Ids run from 0 up to `nextMacroId`, which is at most the number of macros |
| `Macros.IdsFitByte` | GK6X/UserDataFile.cs:769 | With at most 256 macros, every id fits in a byte |
| `Macros.StatesOf` | GK6X/UserDataFile.cs:820-832 | `press` gives down then up, `down` gives down, `up` gives up, and every other keyword gives none |
| `Macros.TokenAction` | GK6X/UserDataFile.cs:835-923 | An action has the line's state and its delay. A name that does not parse keeps the default type, code and modifier. A modifier key is a Key action with code 0 and its modifier. A mouse key is a Mouse action with its button code. Any other key is a Key action with its short driver value cut to a byte |
| `Macros.ExpandLine` | GK6X/UserDataFile.cs:833-925 | A line gives \|states\| × \|keys\| actions |
| `Macros.ExpandLineOrder` | GK6X/UserDataFile.cs:833-849 | The action for state j and key k is at j·\|keys\| + k, and only the very last one carries the delay |
| `Macros.PressTwoKeys` | GK6X/UserDataFile.cs:823-849 | `press: A+B` gives A down, B down, A up, B up, with the delay on B up only |
| `Macros.LineDelay` | GK6X/UserDataFile.cs:811-818 | An action line's delay is field 2 as a `ushort`, else the macro's default delay |
| `Macros.LineActions` | GK6X/UserDataFile.cs:806-833 | A line without a key list appends nothing. An unknown keyword is the abort case. Otherwise the line appends `ExpandLine` of its keyword's states and its `+`-separated keys with `LineDelay`, \|states\| × \|keys\| actions |
| `Remaps.SourceValueNone` | GK6X/UserDataFile.cs:732-749 | With no name that stores a value, the source stays 0 |
| `Remaps.SourceValueLast` | GK6X/UserDataFile.cs:735-749 | The source is the value of the last name that stores one. A later failed lookup changes nothing |
| `Remaps.HexNameStoresZero` | GK6X/UserDataFile.cs:737-740 | A `0x` source name stores 0, because the parse sees the `0x` |
| `Remaps.MacroCall` | GK6X/UserDataFile.cs:761-765 | A name is extracted exactly when the first `(` is not the first character and comes before the first `)`; the name contains no `)` |
| `Remaps.MacroCallOf` | GK6X/UserDataFile.cs:761-765 | `prefix(name)suffix` yields exactly `name` when the prefix is non-empty without brackets and the name has no `)` |
| `Remaps.MacroRef` | GK6X/UserDataFile.cs:770 | A macro with id 0..255 is bound as 0x0A010000 + id |
| `Remaps.MacroRefInjective` | GK6X/UserDataFile.cs:770 | Distinct byte-sized macro ids give distinct driver values |
| `Remaps.DestTokenRules` | GK6X/UserDataFile.cs:778-794 | A Key-type constant is OR'd into the destination and any other constant replaces it. An unknown name changes nothing |
| `Remaps.DestMacroRules` | GK6X/UserDataFile.cs:759-776 | A defined macro replaces the destination with its reference and gets an id if it had none. An undefined one leaves the value and the macros alone and logs exactly one message |
| `Remaps.HexDestStoresZero` | GK6X/UserDataFile.cs:755-758 | A `0x` destination name stores 0 |
| `Remaps.DestValueKeepsMacros` | GK6X/UserDataFile.cs:753-795 | The destination loop changes only macro ids, keeps ids already given, and appends only missing-macro messages |
| `Remaps.DestValueBindsLast` | GK6X/UserDataFile.cs:753-795 | A destination ending in a defined `macro(name)` is that macro's reference, under an id below `nextMacroId` that never changes once given |
| `Remaps.RemapOf` | GK6X/UserDataFile.cs:726-751 | A line writes only when it has a destination field and a non-zero source. The source is the value of its source names |
| `Passes.Classify` | GK6X/UserDataFile.cs:535-540 | After trimming, a `#` line is a comment, a `[` line is a header, and anything else is data |
| `Passes.StoreEffect` | GK6X/UserDataFile.cs:671-697 | Storing a loaded effect's view under its name: every other name keeps its view; a stored effect keeps its id and gains the listed layers, a new one has id -1 and just those layers; the document is appended to those it was loaded from |
| `Passes.TablesStep` | GK6X/UserDataFile.cs:579-716 | The table half of a header sets the section that `HeaderSection` gives and leaves effects, log and ids alone |
| `Passes.LightingStep` | GK6X/UserDataFile.cs:671-698 | The lighting half changes only effects and log, and does nothing unless a lighting header is allowed |
| `Passes.StepAborts` | GK6X/UserDataFile.cs:820-833 | A line aborts the pass exactly when it is an action line with an unknown keyword in a macro section |
| `Passes.NoMacroPassCompletes` | GK6X/UserDataFile.cs:526-932 | A pass that does not allow macros never aborts |
| `Passes.CompileAborts` | GK6X/UserDataFile.cs:514-524 | A compile aborts only in its first pass |
| `Passes.RunConsistent` | GK6X/UserDataFile.cs:526-932 | A pass keeps the macro-id bookkeeping and its section's group allowed. In a macro section, the current macro exists |
| `Passes.NoLightingEveryPass` | GK6X/UserDataFile.cs:699-715 | Whatever the allow-list, a pass applies every `NoLighting` header |
| `Passes.RunKeepsNoIds` | GK6X/UserDataFile.cs:671-698 | A pass that starts with every stored effect at id -1 ends that way: the loader never sets an id, and a new effect starts at -1 (`StepKeepsNoIds` is one line) |
| `Passes.CompileNoIds` | GK6X/UserDataFile.cs:514-524 | Every effect a compile stores has id -1 |
| `Passes.CompileNoLighting` | GK6X/UserDataFile.cs:514-524 | After a compile, `NoLighting` and `NoLightingLayers` are exactly what the profile's `NoLighting` headers say |
| `Passes.PassTouches` | GK6X/UserDataFile.cs:579-799 | Each pass leaves alone what its allow-list excludes: layers and ids, the macros apart from their ids, or the effects |
| `Passes.RunMacroNames` | GK6X/UserDataFile.cs:639-644 | Macros come only from macro headers |
| `Passes.MacroRedefinition` | GK6X/UserDataFile.cs:639-669 | A macro header replaces any macro of that name with a new one that has no actions and no id, and makes it the current macro |
| `Passes.ActionLineAppends` | GK6X/UserDataFile.cs:804-928 | An action line appends its actions to the current macro and changes nothing else |
| `Passes.RemapWritesSelected` | GK6X/UserDataFile.cs:796-799 | A remap line writes the same pair into every selected table, keeps their other keys, and leaves the other tables unchanged |
| `Passes.CompileIdsFit` | GK6X/UserDataFile.cs:766-770 | With at most 256 macro names, every macro id after a compile is -1 or fits in a byte, and ids are distinct |
| `UserData.MacroIdsOf` | GK6X/UserDataFile.cs:503-509 | The ids collected are exactly the data bytes of the macro-type values |
| `UserData.LayerMacroIds` | GK6X/UserDataFile.cs:488-512 | The ids of a layer are the union of those of its plain and its Fn table |
| `UserData.UserDataFile.constructor` | GK6X/UserDataFile.cs:12-25 | A new file is the compiler's initial state, and its lighting id counter starts at 0 |
| `UserData.UserDataFile.FindOrAddLayer` | GK6X/UserDataFile.cs:436-447 | Returns the layer of the chosen dictionary, adding it empty when missing; the other dictionary is unchanged |
| `UserData.UserDataFile.GetMacro` | GK6X/UserDataFile.cs:449-460 | Returns the named macro after `AssignId`, or none for an unknown name |
| `UserData.UserDataFile.GetLighting` | GK6X/UserDataFile.cs:462-473 | Gives a stored effect without an id the next lighting id. No other id changes, and lighting ids stay distinct |
| `UserData.UserDataFile.GetLightingEffects` | GK6X/UserDataFile.cs:475-486 | Returns exactly the stored effects used on the layer, each once |
| `UserData.UserDataFile.GetNumMacros` | GK6X/UserDataFile.cs:488-512 | Counts the distinct macro ids of the layer's plain and Fn tables, which is at most 256 |
| `UserData.UserDataFile.CollectMacroIds` | GK6X/UserDataFile.cs:501-510 | Adds the macro ids of one table's values |
| `UserData.UserDataFile.SelectGroups` | GK6X/UserDataFile.cs:579-638 | The header loop sets the group and selected tables as the pure compiler does, and adds the selected tables |
| `UserData.UserDataFile.Reload` | GK6X/UserDataFile.cs:679 | An effect that loads keeps id, name and layers and takes `Reloaded` contents; one that does not is unchanged |
| `UserData.UserDataFile.LoadLighting` | GK6X/UserDataFile.cs:671-698 | When the effect loads, the view of the stored effects becomes `StoreEffect` of the old one; otherwise one failure is logged and the view is unchanged. Every other name keeps the same effect object. `Compiling` is kept: names are the keys, lighting ids are valid, and every stored effect's id, layers and contents agree with the view, its contents being `ContentsAfter` of the documents it loaded (`EffectsAgree`). It dispatches to `LoadStoredEffect`, `StoredEffectFails`, `LoadNewEffect` or `NewEffectFails` |
| `UserData.UserDataFile.LoadStoredEffect` | GK6X/UserDataFile.cs:675-697 | For a stored name whose effect loads: the same objects stay stored, nothing is logged, and the view becomes `StoreEffect` of the old one; `Compiling` is kept |
| `UserData.UserDataFile.StoredEffectFails` | GK6X/UserDataFile.cs:675-694 | For a stored name whose effect does not load: the same objects stay stored, one failure is logged, and `Compiling` is kept |
| `UserData.UserDataFile.LoadNewEffect` | GK6X/UserDataFile.cs:675-697 | For a new name whose effect loads: only a fresh effect is added, nothing is logged, and the view becomes `StoreEffect` of the old one; `Compiling` is kept |
| `UserData.UserDataFile.NewEffectFails` | GK6X/UserDataFile.cs:675-694 | For a new name whose effect does not load: nothing is stored, one failure is logged, and `Compiling` is kept |
| `UserData.UserDataFile.ReloadStored` | GK6X/UserDataFile.cs:675-697 | Reloading a stored effect keeps the table and the id, adds the layers, and its contents become `ContentsAfter` of its documents plus the new one; or it logs and changes nothing |
| `UserData.UserDataFile.LoadNew` | GK6X/UserDataFile.cs:675-697 | A new effect is stored, fresh with id -1, the listed layers and contents `ContentsAfter` of the one document, only when it loads |
| `UserData.AgreeAfterLoad` | GK6X/UserDataFile.cs:675-690 | An effect loaded and stored under its name, with every other effect object unchanged, keeps `EffectsAgree` with the view that `StoreEffect` gives |
| `UserData.UserDataFile.HeaderLighting` | GK6X/UserDataFile.cs:671-698 | The lighting half of a header changes the stored effects and the log as `LightingStep` says, and keeps `Compiling` |
| `UserData.UserDataFile.HeaderTables` | GK6X/UserDataFile.cs:579-716 | Updates the tables as `TablesStep` says |
| `UserData.UserDataFile.HeaderSettings` | GK6X/UserDataFile.cs:639-716 | A selected macro header stores `NewMacro` under its name; a `NoLighting` header sets the flag or adds its layers |
| `UserData.UserDataFile.SelectName` | GK6X/UserDataFile.cs:583-638 | One header name moves the group to the last one opened and adds the tables it selects, as `TokenGroups` and `RefsOfTokens` say |
| `UserData.UserDataFile.ProcessHeader` | GK6X/UserDataFile.cs:540-719 | A header line updates the tables, the section and the stored effects as `HeaderStep` says (through `HeaderTables` and `HeaderLighting`), and keeps `Compiling`: every stored effect's id, layers and loaded documents are those the pure compiler tracks, and its contents are `ContentsAfter` of those documents |
| `UserData.UserDataFile.SourceOf` | GK6X/UserDataFile.cs:732-749 | The source loop computes `SourceValue` |
| `UserData.UserDataFile.DestStep` | GK6X/UserDataFile.cs:755-794 | One destination name updates the value, the macros, the ids and the log as `DestToken` says |
| `UserData.UserDataFile.DestOf` | GK6X/UserDataFile.cs:753-795 | The destination loop computes `DestValue` |
| `UserData.UserDataFile.RemapFor` | GK6X/UserDataFile.cs:726-795 | Computes `RemapOf` of the line, with the macros, ids and log it leaves |
| `UserData.UserDataFile.ProcessData` | GK6X/UserDataFile.cs:719-931 | A data line changes the object as `DataStep` says, through `RemapData` in a layer section and `ActionData` in a macro section, and fails exactly when `DataStep` aborts |
| `UserData.UserDataFile.RemapData` | GK6X/UserDataFile.cs:724-803 | A layer line changes the object as `DataStep` says, which never aborts |
| `UserData.UserDataFile.ActionData` | GK6X/UserDataFile.cs:804-928 | An action line changes the object as `DataStep` says, and fails exactly when it aborts |
| `UserData.UserDataFile.ProcessLayerLine` | GK6X/UserDataFile.cs:724-803 | A layer line writes `RemapOf`'s pair into every selected table, or changes nothing |
| `UserData.UserDataFile.ExpandActions` | GK6X/UserDataFile.cs:833-925 | The nested state and key loops build `ExpandLine` |
| `UserData.UserDataFile.ProcessMacroLine` | GK6X/UserDataFile.cs:804-928 | An action line appends `LineActions` to the current macro, or fails on an unknown keyword |
| `UserData.UserDataFile.ProcessLine` | GK6X/UserDataFile.cs:535-931 | One line changes the object as `Step` says (through `ProcessHeader` or `ProcessData`), fails exactly when `Step` aborts, and keeps `Compiling`, so the stored effects' ids, layers and contents stay those of the pure compiler's view. The lighting id counter is unchanged (`StepLine` states the same for line `i` of a pass) |
| `UserData.UserDataFile.LoadPass` | GK6X/UserDataFile.cs:526-932 | The private `Load` leaves the object in the state `Run` gives, and fails exactly when `Run` aborts. `Compiling` holds throughout (`StepLine` is one turn of the loop): lighting ids stay valid and every stored effect's id, layers and contents agree with `Run`'s view of the effects. The lighting id counter is unchanged |
| `UserData.UserDataFile.Load` | GK6X/UserDataFile.cs:514-524 | No file gives no profile. Otherwise the result is a fresh object holding `Compile`'s tables, or an abort exactly when `Compile` aborts. A compiled profile meets `GetLighting`'s precondition, and each of its effects has the id, the layers and the contents (`ContentsAfter` of the documents loaded for it, in order) that `Compile`'s view of the effects gives. The lighting id counter is 0 and every stored effect's id is -1, so no id is handed out before `GetLighting` |

## Left out

- File access (`File.Exists`, `File.ReadAllLines`, `File.ReadAllText`, `Path.Combine`): the lines and the parsed effect files are inputs.
- MiniJSON: deserialisation is replaced by the `Json` datatype. `Json.TryGetValue` is a lookup by name plus a match on the value's shape.
- Exceptions: the `try/catch` blocks of `LightingEffect.Load` and `TryParseColor` are modelled only through their explicit failure returns. A load that throws partway through, after mutating the effect, is not modelled.
- `Program.Log`: messages are appended to `Log` and never read back.
- `Enum.TryParse` quirks: surrounding whitespace, numeric strings and comma-separated flag lists are not modelled. Only exact or case-insensitive name matching is. `ToLower` and case-insensitive matching cover ASCII letters only.
- The bodies of `KeyValues`, `KeyboardState` and the enums `DriverValue`, `DriverValueModifer` and `DriverValueMouseButton` are not part of this model. They are parameters.
- `KeyboardLayer` is fixed to Base, Layer1, Layer2 and Layer3. Its declaration is not part of this model. A name of any other member it may have is rejected by `ParseKeyboardLayer`, so such a layer is never selected.
- `Json.Get`: a JSON object is a list of members, and a lookup reads the first member of that name. MiniJSON is not part of this model, so which of two members with the same name its dictionary keeps is not modelled. Documents with duplicate member names are outside what the model promises.
- The constants `NumKeys`, `MaxEffects` and `NumStaticLightingBytes` are unused by this file.
- Object identity: `Layer` and `Macro` are values stored by key in their dictionaries. `currentLayers` is a set of (layer, fn) keys and `currentMacro` is a macro name. Each of these objects is reachable from exactly one key, so no aliasing is lost.
- The view of the stored effects (`Effects`, checked by `EffectsAgree`) is kept through a compile only. Ids handed out afterwards by `GetLighting` are not recorded in it.
- `UserData.UserDataFile.GetLightingEffects`: the result's order is not modelled, because `Dictionary` enumeration order is not part of its contract. It states only which effects are returned, each once.
- `Debug.Assert` at line 769: it is not a precondition. `MacroRef` wraps like the C# cast, and `Passes.CompileIdsFit` proves the assertion for profiles with at most 256 macro names.
