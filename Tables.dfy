/** The collaborators of the profile compiler that live outside
    UserDataFile.cs, reduced to the values it reads from them: the
    keyboard's driver-value to location-code table, the enums it parses
    by name, and the `KeyValues` helper functions. */
module Tables {
  import opened Options
  import opened Numeric
  import opened Text

  /** The `KeyboardLayer` members this file names. */
  datatype KeyboardLayer = Base | Layer1 | Layer2 | Layer3

  /** `Enum.TryParse(s, out KeyboardLayer layer)`: case-sensitive. */
  function ParseKeyboardLayer(s: string): (r: Option<KeyboardLayer>)
    ensures r.Some? ==> LayerName(r.value) == s
  {
    if s == "Base" then Some(Base)
    else if s == "Layer1" then Some(Layer1)
    else if s == "Layer2" then Some(Layer2)
    else if s == "Layer3" then Some(Layer3)
    else None
  }

  function LayerName(l: KeyboardLayer): string {
    match l
    case Base => "Base"
    case Layer1 => "Layer1"
    case Layer2 => "Layer2"
    case Layer3 => "Layer3"
  }

  /** Layer names parse back to their layer, and only in their exact
      spelling. */
  lemma ParseKeyboardLayerExact(l: KeyboardLayer, s: string)
    ensures ParseKeyboardLayer(LayerName(l)) == Some(l)
    ensures ParseKeyboardLayer(s) == Some(l) <==> s == LayerName(l)
  {
  }

  /** `DriverValueModifer`; `NoModifier` is its zero value. */
  datatype Modifier = NoModifier | LCtrl | LShift | LAlt | LWin | RCtrl | RShift | RAlt | RWin

  /** `DriverValueType`, the classification `KeyValues.GetKeyType` returns;
      only `Key` and `Macro` matter to this file. */
  datatype DriverValueType = KeyType | MacroType | OtherType(code: int)

  /** Whether `name` matches an enum member name, optionally ignoring
      case. */
  predicate NameMatches(member: string, name: string, ignoreCase: bool) {
    if ignoreCase then EqualsIgnoreCase(member, name) else member == name
  }

  /** `Enum.TryParse(name, ignoreCase, out v)` over an enum given as its
      members (name, value) in declaration order: the first member whose
      name matches. */
  function EnumParse<V>(members: seq<(string, V)>, name: string, ignoreCase: bool): (r: Option<V>)
    ensures r.None? <==> forall i :: 0 <= i < |members| ==> !NameMatches(members[i].0, name, ignoreCase)
    ensures r.Some? ==> exists i :: 0 <= i < |members| && NameMatches(members[i].0, name, ignoreCase) && r.value == members[i].1
  {
    if members == [] then None
    else if NameMatches(members[0].0, name, ignoreCase) then Some(members[0].1)
    else
      var r := EnumParse(members[1..], name, ignoreCase);
      assert r.Some? ==> exists i :: 1 <= i < |members| && NameMatches(members[i].0, name, ignoreCase) && r.value == members[i].1 by {
        if r.Some? {
          var i :| 0 <= i < |members[1..]| && NameMatches(members[1..][i].0, name, ignoreCase) && r.value == members[1..][i].1;
          assert members[i + 1] == members[1..][i];
        }
      }
      r
  }

  /** `KeyboardState`: only its `DriverValueToLocationCode` table. */
  datatype KeyboardState = KeyboardState(driverValueToLocationCode: map<uint32, int32>)

  /** The enums parsed by name, each as its members in declaration order,
      and the few members of each that this file names. */
  datatype Enums = Enums(
    /** `DriverValue` */
    driverValues: seq<(string, uint32)>,
    /** The eight modifier members of `DriverValue` (LCtrl ... RWin), by
        value, with the `DriverValueModifer` each one maps to. */
    modifierKeys: map<uint32, Modifier>,
    /** The five mouse members of `DriverValue` (MouseLClick,
        MouseRClick, MouseMClick, MouseBack, MouseAdvance), by value, with
        the byte of the `DriverValueMouseButton` each one maps to. */
    mouseButtons: map<uint32, uint8>,
    /** `MacroRepeatType` and its member `RepeatXTimes` */
    repeatTypes: seq<(string, int32)>,
    repeatXTimes: int32,
    /** `LightingEffectType` and its members `Static` and `Dynamic` */
    effectTypes: seq<(string, int32)>,
    staticEffect: int32,
    dynamicEffect: int32,
    /** `LightingEffectColorType` and its member `Monochrome` */
    colorTypes: seq<(string, int32)>,
    monochrome: int32)

  /** The `KeyValues` helpers this file calls and its `UnusedKeyValue`
      constant. */
  datatype KeyValues = KeyValues(
    getKeyType: uint32 -> DriverValueType,
    getKeyData2: uint32 -> uint8,
    getShortDriverValue: uint32 -> int,
    unusedKeyValue: uint32)
}
