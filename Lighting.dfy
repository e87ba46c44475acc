/** Lighting effects (`UserDataFile.LightingEffect`): the colour parser,
    the key-location resolver, and the loader that fills an effect from
    its parsed JSON document. */
module Lighting {
  import opened Options
  import opened Numeric
  import opened Text
  import opened Json
  import opened Tables

  // ---------------------------------------------------------------------
  // Colours

  /** Byte `k` of a 32-bit value, counting from the least significant
      (`(byte)(v >> 8 * k)`). */
  function ByteAt(v: uint32, k: nat): uint8
    requires k < 4
  {
    var d := if k == 0 then 1 else if k == 1 then 0x100 else if k == 2 then 0x1_0000 else 0x100_0000;
    (v / d) % 0x100
  }

  /** Four bytes laid out from the least significant:
      `b0 | b1 << 8 | b2 << 16 | b3 << 24`. */
  function Pack(b0: uint8, b1: uint8, b2: uint8, b3: uint8): uint32 {
    b0 + b1 * 0x100 + b2 * 0x1_0000 + b3 * 0x100_0000
  }

  /** Packing and byte extraction are inverse. */
  lemma PackBytes(b0: uint8, b1: uint8, b2: uint8, b3: uint8)
    ensures ByteAt(Pack(b0, b1, b2, b3), 0) == b0
    ensures ByteAt(Pack(b0, b1, b2, b3), 1) == b1
    ensures ByteAt(Pack(b0, b1, b2, b3), 2) == b2
    ensures ByteAt(Pack(b0, b1, b2, b3), 3) == b3
  {
    var v := Pack(b0, b1, b2, b3);
    var h1, h2 := b1 + b2 * 0x100 + b3 * 0x1_0000, b2 + b3 * 0x100;
    DivModUnique(v, 0x100, h1, b0);
    DivModUnique(v, 0x1_0000, h2, b0 + b1 * 0x100);
    DivModUnique(v, 0x100_0000, b3, b0 + b1 * 0x100 + b2 * 0x1_0000);
    DivModUnique(h1, 0x100, h2, b1);
    DivModUnique(h2, 0x100, b3, b2);
    DivModUnique(b3, 0x100, 0, b3);
  }

  lemma UnpackBytes(v: uint32)
    ensures Pack(ByteAt(v, 0), ByteAt(v, 1), ByteAt(v, 2), ByteAt(v, 3)) == v
  {
    var h1 := v / 0x100;
    var h2 := h1 / 0x100;
    var b0, b1, b2, b3 := v % 0x100, h1 % 0x100, h2 % 0x100, h2 / 0x100;
    assert v == h1 * 0x100 + b0;
    assert h1 == h2 * 0x100 + b1;
    assert h2 == b3 * 0x100 + b2;
    DivModUnique(v, 0x1_0000, h2, b1 * 0x100 + b0);
    DivModUnique(v, 0x100_0000, b3, b2 * 0x1_0000 + b1 * 0x100 + b0);
    DivModUnique(b3, 0x100, 0, b3);
  }

  /** The alpha the parser stores: forced to 0xFF when the fix-up is on,
      the alpha is 0 and some colour channel is set. */
  function FixedAlpha(a: uint8, r: uint8, g: uint8, b: uint8, fixupAlpha: bool): uint8 {
    if fixupAlpha && a == 0 && (r != 0 || g != 0 || b != 0) then 0xFF else a
  }

  /** What `TryParseColor` returns and what it leaves in its `out`
      parameter. */
  datatype ColorResult = ColorResult(ok: bool, color: uint32)

  /** The hexadecimal value after a `0x` or `#` prefix: `None` when the
      prefix is missing, `Some(None)` when the digits do not parse. */
  function ColorDigits(s: string): Option<Option<uint32>> {
    if "0x" <= s then Some(ParseHex(s[2..]))
    else if "#" <= s then Some(ParseHex(s[1..]))
    else None
  }

  lemma ColorDigitsOfPrefix(prefix: string, digits: string)
    requires prefix == "0x" || prefix == "#"
    ensures ColorDigits(prefix + digits) == Some(ParseHex(digits))
  {
    var s := prefix + digits;
    assert s[|prefix|..] == digits;
    if prefix == "#" {
      assert s[0] == '#';
    } else {
      assert s[..2] == "0x";
    }
  }

  /** AARRGGBB moved to R | G << 8 | B << 16 | A << 24. */
  function Repack(v: uint32, fixupAlpha: bool): uint32 {
    var a, r, g, b := ByteAt(v, 3), ByteAt(v, 2), ByteAt(v, 1), ByteAt(v, 0);
    Pack(r, g, b, FixedAlpha(a, r, g, b, fixupAlpha))
  }

  /** `TryParseColor(colorStr, fixupAlpha, out color)`: reads AARRGGBB
      after a `0x` or `#` prefix and repacks it as
      R | G << 8 | B << 16 | A << 24.  On failure the out value is
      0xFFFFFFFF, or 0 once a hexadecimal parse has been attempted. */
  function ParseColor(s: string, fixupAlpha: bool): (r: ColorResult)
    ensures r.ok <==> s != [] && ColorDigits(s).Some? && ColorDigits(s).value.Some?
    ensures s == [] || ColorDigits(s).None? ==> r == ColorResult(false, 0xFFFF_FFFF)
    ensures s != [] && ColorDigits(s) == Some(None) ==> r == ColorResult(false, 0)
    ensures r.ok ==>
      var v := ColorDigits(s).value.value;
      && ByteAt(r.color, 0) == ByteAt(v, 2)
      && ByteAt(r.color, 1) == ByteAt(v, 1)
      && ByteAt(r.color, 2) == ByteAt(v, 0)
      && ByteAt(r.color, 3) == FixedAlpha(ByteAt(v, 3), ByteAt(v, 2), ByteAt(v, 1), ByteAt(v, 0), fixupAlpha)
  {
    if s == [] then ColorResult(false, 0xFFFF_FFFF)
    else
      match ColorDigits(s)
      case None => ColorResult(false, 0xFFFF_FFFF)
      case Some(None) => ColorResult(false, 0)
      case Some(Some(v)) =>
        PackBytes(ByteAt(v, 2), ByteAt(v, 1), ByteAt(v, 0),
                  FixedAlpha(ByteAt(v, 3), ByteAt(v, 2), ByteAt(v, 1), ByteAt(v, 0), fixupAlpha));
        ColorResult(true, Repack(v, fixupAlpha))
  }

  /** A parsed colour string yields the repacked value of its digits. */
  lemma ParseColorOfDigits(prefix: string, digits: string, v: uint32, fixupAlpha: bool)
    requires prefix == "0x" || prefix == "#"
    requires ParseHex(digits) == Some(v)
    ensures ParseColor(prefix + digits, fixupAlpha) == ColorResult(true, Repack(v, fixupAlpha))
  {
    ColorDigitsOfPrefix(prefix, digits);
  }

  /** Writing a colour as `0x`/`#` followed by AARRGGBB and parsing it
      gives R | G << 8 | B << 16 | A << 24, the alpha fixed up only on
      request. */
  lemma ParseColorRoundTrip(prefix: string, a: uint8, r: uint8, g: uint8, b: uint8, fixupAlpha: bool)
    requires prefix == "0x" || prefix == "#"
    ensures ParseColor(prefix + FormatDigits(Pack(b, g, r, a), 16, 8), fixupAlpha)
         == ColorResult(true, Pack(r, g, b, FixedAlpha(a, r, g, b, fixupAlpha)))
  {
    var v := Pack(b, g, r, a);
    ParseHexOfFormat(v);
    ParseColorOfDigits(prefix, FormatDigits(v, 16, 8), v, fixupAlpha);
    PackBytes(b, g, r, a);
  }

  /** Without the fix-up the parse loses nothing: the four channels of
      the input come back, moved to their RGBA places. */
  lemma ParseColorKeepsChannels(s: string)
    requires ParseColor(s, false).ok
    ensures var v := ColorDigits(s).value.value;
      ParseColor(s, false).color == Pack(ByteAt(v, 2), ByteAt(v, 1), ByteAt(v, 0), ByteAt(v, 3))
  {
    var c := ParseColor(s, false).color;
    UnpackBytes(c);
  }

  // ---------------------------------------------------------------------
  // Key locations

  function LocationOf(keyboard: KeyboardState, driverValue: uint32): Option<int32> {
    if driverValue in keyboard.driverValueToLocationCode
    then Some(keyboard.driverValueToLocationCode[driverValue]) else None
  }

  /** `TryGetKeyLocationCode`: a `0x` string is a hexadecimal driver value
      looked up in the keyboard's table (and nothing else is tried);
      otherwise a decimal string is the location code itself; otherwise a
      `DriverValue` name (any case) is looked up in the table.  A JSON
      integer is cast to `int`; anything else fails. */
  function ResolveKeyLocation(keyboard: KeyboardState, enums: Enums, key: Json): (r: Option<int32>)
    ensures key.JInt? ==> r == Some(Wrap32(key.i))
    ensures !key.JInt? && !key.JString? ==> r.None?
  {
    match key
    case JString(s) =>
      if "0x" <= s then
        (match ParseHex(s[2..])
         case Some(v) => LocationOf(keyboard, v)
         case None => None)
      else
        (match ParseInt32(s)
         case Some(n) => Some(n)
         case None =>
           (match EnumParse(enums.driverValues, s, true)
            case Some(v) => LocationOf(keyboard, v)
            case None => None))
    case JInt(n) => Some(Wrap32(n))
    case _ => None
  }

  /** A `0x` key is resolved by the table alone: if its digits do not
      parse or the value is not in the table it fails, whatever a decimal
      or named reading of the string would give. */
  lemma HexKeyDoesNotFallThrough(keyboard: KeyboardState, enums: Enums, s: string)
    requires "0x" <= s
    ensures ResolveKeyLocation(keyboard, enums, JString(s)).Some? <==>
      ParseHex(s[2..]).Some? && ParseHex(s[2..]).value in keyboard.driverValueToLocationCode
    ensures ResolveKeyLocation(keyboard, enums, JString(s)).Some? ==>
      ResolveKeyLocation(keyboard, enums, JString(s)).value in keyboard.driverValueToLocationCode.Values
  {
  }

  /** A decimal key is its own location code: the table is not
      consulted, so every keyboard resolves it alike. */
  lemma DecimalKeyIgnoresTable(k1: KeyboardState, k2: KeyboardState, enums: Enums, s: string, n: int32)
    requires !("0x" <= s) && ParseInt32(s) == Some(n)
    ensures ResolveKeyLocation(k1, enums, JString(s)) == Some(n)
    ensures ResolveKeyLocation(k1, enums, JString(s)) == ResolveKeyLocation(k2, enums, JString(s))
  {
  }

  /** Any other string resolves only to a location code of the table,
      the one its (case-insensitive) `DriverValue` name maps to. */
  lemma NamedKeyComesFromTable(keyboard: KeyboardState, enums: Enums, s: string)
    requires !("0x" <= s) && ParseInt32(s).None?
    ensures var r := ResolveKeyLocation(keyboard, enums, JString(s));
      r.Some? ==> exists v :: (EnumParse(enums.driverValues, s, true) == Some(v)
        && v in keyboard.driverValueToLocationCode && r.value == keyboard.driverValueToLocationCode[v])
  {
  }

  /** How an effect resolves a key: `TryGetKeyLocationCode` for one
      keyboard and its enums. */
  type Locator = Json -> Option<int32>

  function KeyLocator(keyboard: KeyboardState, enums: Enums): Locator {
    key => ResolveKeyLocation(keyboard, enums, key)
  }

  /** The location codes of the resolvable keys among `items`. */
  function KeySet(locate: Locator, items: seq<Json>): set<int32> {
    set i, k | 0 <= i < |items| && locate(items[i]) == Some(k) :: k
  }

  /** One more item adds its code, when it resolves. */
  lemma KeySetStep(locate: Locator, items: seq<Json>, j: nat)
    requires j < |items|
    ensures KeySet(locate, items[..j + 1]) == match locate(items[j])
      case Some(k) => KeySet(locate, items[..j]) + {k}
      case None => KeySet(locate, items[..j])
  {
    var a, b := items[..j + 1], items[..j];
    var r := locate(items[j]);
    var extra: set<int32> := if r.Some? then {r.value} else {};
    forall k ensures k in KeySet(locate, a) <==> k in KeySet(locate, b) + extra {
      if k in KeySet(locate, a) {
        var i :| 0 <= i < |a| && locate(a[i]) == Some(k);
        if i < j {
          assert b[i] == a[i];
        }
      }
      if k in KeySet(locate, b) {
        var i :| 0 <= i < |b| && locate(b[i]) == Some(k);
        assert a[i] == b[i];
      }
      if k in extra {
        assert a[j] == items[j];
      }
    }
  }

  /** A code is in the key set exactly when some item resolves to it, so
      unresolvable items are dropped and nothing else is added. */
  lemma KeySetMembers(locate: Locator, items: seq<Json>, k: int32)
    ensures k in KeySet(locate, items) <==>
      exists i :: 0 <= i < |items| && locate(items[i]) == Some(k)
  {
  }

  /** The member names of a JSON object, as JSON strings. */
  function MemberKeys(members: seq<(string, Json)>): (r: seq<Json>)
    ensures |r| == |members|
    ensures forall i :: 0 <= i < |members| ==> r[i] == JString(members[i].0)
  {
    seq(|members|, i requires 0 <= i < |members| => JString(members[i].0))
  }

  // ---------------------------------------------------------------------
  // Frames and params

  /** One frame of a dynamic effect: shown `Count` times, lighting
      `KeyCodes`. */
  datatype Frame = Frame(Count: int32, KeyCodes: set<int32>)

  /** One parameter block (`LEConfigs` entry) of a dynamic effect. */
  datatype Param = Param(Color: uint32, ColorType: int32, Keys: set<int32>, Val1: int32, Val2: int32, UseRawValues: bool)

  /** A frame's count: its JSON `Count` when that is an integer above 0
      (cast to a 32-bit `int`, wrapping), else 1. */
  function FrameCount(frame: seq<(string, Json)>): (r: int32)
    ensures if Get(frame, "Count").Some? && Get(frame, "Count").value.JInt? && Get(frame, "Count").value.i > 0
            then r == Wrap32(Get(frame, "Count").value.i)
            else r == 1
    ensures (Get(frame, "Count").Some? && Get(frame, "Count").value.JInt? && 0 < Get(frame, "Count").value.i < 0x8000_0000)
      ==> r == Get(frame, "Count").value.i
    ensures r != 1 ==> Get(frame, "Count").Some? && Get(frame, "Count").value.JInt? && Get(frame, "Count").value.i > 1
  {
    match Get(frame, "Count")
    case Some(JInt(n)) => if n > 0 then Wrap32(n) else 1
    case _ => 1
  }

  /** A frame's keys: those of its `Data`, read from the member names of
      an object (their values are ignored) or from the items of a list. */
  function FrameKeys(locate: Locator, frame: seq<(string, Json)>): set<int32> {
    match Get(frame, "Data")
    case Some(JObject(ms)) => KeySet(locate, MemberKeys(ms))
    case Some(JArray(items)) => KeySet(locate, items)
    case _ => {}
  }

  function FrameOf(locate: Locator, frame: seq<(string, Json)>): Frame {
    Frame(FrameCount(frame), FrameKeys(locate, frame))
  }

  /** The frames a `Frames` list contributes: one per object entry, in
      order; other entries are skipped. */
  function FramesOf(locate: Locator, entries: seq<Json>): seq<Frame> {
    if entries == [] then []
    else
      var prefix := FramesOf(locate, entries[..|entries| - 1]);
      match entries[|entries| - 1]
      case JObject(m) => prefix + [FrameOf(locate, m)]
      case _ => prefix
  }

  function ObjectCount(entries: seq<Json>): nat {
    if entries == [] then 0
    else ObjectCount(entries[..|entries| - 1]) + (if entries[|entries| - 1].JObject? then 1 else 0)
  }

  /** The sum of the frames' counts. */
  function CountSum(frames: seq<Frame>): int {
    if frames == [] then 0 else CountSum(frames[..|frames| - 1]) + frames[|frames| - 1].Count
  }

  /** One more entry adds its frame when it is an object. */
  lemma FramesStep(locate: Locator, entries: seq<Json>, i: nat)
    requires i < |entries|
    ensures FramesOf(locate, entries[..i + 1]) == FramesOf(locate, entries[..i])
      + (if entries[i].JObject? then [FrameOf(locate, entries[i].members)] else [])
  {
    assert entries[..i + 1][..i] == entries[..i];
    if !entries[i].JObject? {
      assert FramesOf(locate, entries[..i]) + [] == FramesOf(locate, entries[..i]);
    }
  }

  /** `TotalFrames` after `+=` of each frame's count onto `total`, each
      addition wrapping as C#'s unchecked `int` does. */
  function AddCounts(total: int32, frames: seq<Frame>): int32 {
    if frames == [] then total else Wrap32(AddCounts(total, frames[..|frames| - 1]) + frames[|frames| - 1].Count)
  }

  /** Wrapping at every addition gives the wrapped sum of all counts. */
  lemma {:induction false} AddCountsWraps(total: int32, frames: seq<Frame>)
    ensures AddCounts(total, frames) == Wrap32(total + CountSum(frames))
  {
    if frames != [] {
      var n := |frames| - 1;
      AddCountsWraps(total, frames[..n]);
      Wrap32Add(total + CountSum(frames[..n]), frames[n].Count);
    }
  }

  /** Exactly one frame per object entry of `Frames`. */
  lemma {:induction false} FramesOfLength(locate: Locator, entries: seq<Json>)
    ensures |FramesOf(locate, entries)| == ObjectCount(entries)
  {
    if entries != [] {
      FramesOfLength(locate, entries[..|entries| - 1]);
    }
  }

  /** Every frame of the list is the frame of some object entry, so its
      count is 1 or the (cast) positive JSON `Count`. */
  lemma {:induction false} FramesOfCounts(locate: Locator, entries: seq<Json>, i: nat)
    requires i < |FramesOf(locate, entries)|
    ensures exists j :: (0 <= j < |entries| && entries[j].JObject?
      && FramesOf(locate, entries)[i] == FrameOf(locate, entries[j].members))
  {
    var n := |entries| - 1;
    var prefix := FramesOf(locate, entries[..n]);
    if i < |prefix| {
      FramesOfCounts(locate, entries[..n], i);
      var j :| 0 <= j < n && entries[..n][j].JObject?
        && prefix[i] == FrameOf(locate, entries[..n][j].members);
      assert entries[j] == entries[..n][j];
    } else {
      assert entries[n].JObject?;
    }
  }

  /** `Type`: a (case-insensitive) `LightingEffectColorType` name, or its
      number; Monochrome when absent or unparseable. */
  function ColorTypeOf(enums: Enums, config: seq<(string, Json)>): int32 {
    match Get(config, "Type")
    case Some(JString(s)) => EnumParse<int32>(enums.colorTypes, s, true).GetOr(enums.monochrome)
    case Some(JInt(n)) => Wrap32(n)
    case _ => enums.monochrome
  }

  /** `Color`, parsed without the alpha fix-up; the out value of a failed
      parse is kept, and 0 when there is no string `Color`. */
  function ParamColor(config: seq<(string, Json)>): uint32 {
    match Get(config, "Color")
    case Some(JString(s)) => ParseColor(s, false).color
    case _ => 0
  }

  /** The integer under the first of two names that holds one. */
  function FirstInt(config: seq<(string, Json)>, first: string, second: string): int32 {
    match Get(config, first)
    case Some(JInt(n)) => Wrap32(n)
    case _ =>
      match Get(config, second)
      case Some(JInt(n)) => Wrap32(n)
      case _ => 0
  }

  /** `UseRawValues`: the boolean, or true for the integer 1. */
  function UseRawValuesOf(config: seq<(string, Json)>): bool {
    match Get(config, "UseRawValues")
    case Some(JBool(b)) => b
    case Some(JInt(n)) => n == 1
    case _ => false
  }

  function ParamKeys(locate: Locator, config: seq<(string, Json)>): set<int32> {
    match Get(config, "Keys")
    case Some(JArray(items)) => KeySet(locate, items)
    case _ => {}
  }

  /** The param an `LEConfigs` object yields, or `None` when none of its
      keys resolves. */
  function ParamOf(enums: Enums, locate: Locator, config: seq<(string, Json)>): Option<Param> {
    var keys := ParamKeys(locate, config);
    if keys == {} then None
    else Some(Param(ParamColor(config), ColorTypeOf(enums, config), keys,
                    FirstInt(config, "Count", "Val1"), FirstInt(config, "StayCount", "Val2"),
                    UseRawValuesOf(config)))
  }

  /** The params an `LEConfigs` list contributes, in order. */
  function ParamsOf(enums: Enums, locate: Locator, configs: seq<Json>): seq<Param> {
    if configs == [] then []
    else
      var prefix := ParamsOf(enums, locate, configs[..|configs| - 1]);
      match configs[|configs| - 1]
      case JObject(m) =>
        (match ParamOf(enums, locate, m)
         case Some(p) => prefix + [p]
         case None => prefix)
      case _ => prefix
  }

  /** No param has an empty key set, and at most one comes from each
      entry. */
  lemma {:induction false} ParamsOfNonEmpty(enums: Enums, locate: Locator, configs: seq<Json>)
    ensures |ParamsOf(enums, locate, configs)| <= |configs|
    ensures forall p :: p in ParamsOf(enums, locate, configs) ==> p.Keys != {}
  {
    if configs != [] {
      ParamsOfNonEmpty(enums, locate, configs[..|configs| - 1]);
    }
  }

  /** The field rules of a param: a `Type` name or number when given,
      Monochrome otherwise, `Count` before `Val1`, `StayCount` before
      `Val2`, and `UseRawValues` as a boolean
      or as the integer 1. */
  lemma ParamFields(enums: Enums, locate: Locator, config: seq<(string, Json)>)
    requires ParamOf(enums, locate, config).Some?
    ensures var p := ParamOf(enums, locate, config).value;
      && (Get(config, "Type").None? ==> p.ColorType == enums.monochrome)
      && (forall s :: Get(config, "Type") == Some(JString(s)) && EnumParse<int32>(enums.colorTypes, s, true).None?
            ==> p.ColorType == enums.monochrome)
      && (forall n: int64 :: Get(config, "Count") == Some(JInt(n)) ==> p.Val1 == Wrap32(n))
      && (!Get(config, "Count").Some? || !Get(config, "Count").value.JInt? ==>
            p.Val1 == (if Get(config, "Val1").Some? && Get(config, "Val1").value.JInt?
                       then Wrap32(Get(config, "Val1").value.i) else 0))
      && (forall s :: Get(config, "Type") == Some(JString(s)) && EnumParse<int32>(enums.colorTypes, s, true).Some?
            ==> p.ColorType == EnumParse<int32>(enums.colorTypes, s, true).value)
      && (forall n: int64 :: Get(config, "Type") == Some(JInt(n)) ==> p.ColorType == Wrap32(n))
      && (forall n: int64 :: Get(config, "StayCount") == Some(JInt(n)) ==> p.Val2 == Wrap32(n))
      && (!Get(config, "StayCount").Some? || !Get(config, "StayCount").value.JInt? ==>
            p.Val2 == (if Get(config, "Val2").Some? && Get(config, "Val2").value.JInt?
                       then Wrap32(Get(config, "Val2").value.i) else 0))
      && p.Keys == ParamKeys(locate, config)
      && (p.UseRawValues <==> Get(config, "UseRawValues") in {Some(JBool(true)), Some(JInt(1))})
  {
  }

  /** The key colours a static `Data` object stores over `colors`: each
      member whose name resolves and whose value is a colour string that
      parses (with the alpha fix-up) sets that key, later members
      winning. */
  function StaticColors(locate: Locator, colors: map<int32, uint32>,
                        data: seq<(string, Json)>): map<int32, uint32>
  {
    if data == [] then colors
    else StaticEntry(locate, StaticColors(locate, colors, data[..|data| - 1]), data[|data| - 1])
  }

  /** The colour a `Data` member's value gives: a string parsed with the
      alpha fix-up; anything else parses as empty (null). */
  function EntryColor(value: Json): ColorResult {
    if value.JString? then ParseColor(value.s, true) else ParseColor([], true)
  }

  /** One member of `Data`: its key takes its colour when both resolve. */
  function StaticEntry(locate: Locator, colors: map<int32, uint32>,
                       entry: (string, Json)): map<int32, uint32>
  {
    var color := EntryColor(entry.1);
    match locate(JString(entry.0))
    case Some(k) => if color.ok then colors[k := color.color] else colors
    case None => colors
  }

  lemma StaticColorsStep(locate: Locator, colors: map<int32, uint32>,
                         data: seq<(string, Json)>, i: nat)
    requires i < |data|
    ensures StaticColors(locate, colors, data[..i + 1])
         == StaticEntry(locate, StaticColors(locate, colors, data[..i]), data[i])
  {
    assert data[..i + 1][..i] == data[..i];
  }

  /** Static loading keeps every existing key colour it does not
      overwrite, and only adds keys that some member resolves to. */
  lemma {:induction false} StaticColorsKeys(locate: Locator, colors: map<int32, uint32>,
                                            data: seq<(string, Json)>, k: int32)
    ensures k in colors ==> k in StaticColors(locate, colors, data)
    ensures k in StaticColors(locate, colors, data) && k !in colors ==>
      exists i :: 0 <= i < |data| && locate(JString(data[i].0)) == Some(k)
  {
    if data != [] {
      var n := |data| - 1;
      StaticColorsKeys(locate, colors, data[..n], k);
      var r := StaticColors(locate, colors, data);
      if k in r && k !in colors && k !in StaticColors(locate, colors, data[..n]) {
        assert locate(JString(data[n].0)) == Some(k);
      } else if k in r && k !in colors {
        var i :| 0 <= i < n && locate(JString(data[..n][i].0)) == Some(k);
        assert data[i] == data[..n][i];
      }
    }
  }

  /** A `Data` member that sets key `k`: its name resolves to `k` and its
      value is a colour that parses. */
  predicate SetsKey(locate: Locator, entry: (string, Json), k: int32) {
    locate(JString(entry.0)) == Some(k) && EntryColor(entry.1).ok
  }

  /** One member changes key `k` only if it sets it. */
  lemma StaticEntryAt(locate: Locator, colors: map<int32, uint32>, entry: (string, Json), k: int32)
    ensures SetsKey(locate, entry, k) ==>
      k in StaticEntry(locate, colors, entry) && StaticEntry(locate, colors, entry)[k] == EntryColor(entry.1).color
    ensures !SetsKey(locate, entry, k) ==>
      && (k in StaticEntry(locate, colors, entry) <==> k in colors)
      && (k in colors ==> StaticEntry(locate, colors, entry)[k] == colors[k])
  {
  }

  /** The last member that sets `k` gives `k` its colour. */
  lemma {:induction false} LastMemberWins(locate: Locator, colors: map<int32, uint32>,
                                          data: seq<(string, Json)>, i: nat, k: int32)
    requires i < |data| && SetsKey(locate, data[i], k)
    requires forall j :: i < j < |data| ==> !SetsKey(locate, data[j], k)
    ensures k in StaticColors(locate, colors, data)
    ensures StaticColors(locate, colors, data)[k] == EntryColor(data[i].1).color
  {
    var n := |data| - 1;
    var prefix := data[..n];
    var before := StaticColors(locate, colors, prefix);
    assert StaticColors(locate, colors, data) == StaticEntry(locate, before, data[n]);
    StaticEntryAt(locate, before, data[n], k);
    if i < n {
      assert !SetsKey(locate, data[n], k);
      assert prefix[i] == data[i];
      assert forall j :: i < j < |prefix| ==> prefix[j] == data[j];
      LastMemberWins(locate, colors, prefix, i, k);
    } else {
      assert i == n;
    }
  }

  /** A key no member sets keeps the colour it had, or stays absent. */
  lemma {:induction false} UnsetKeyKept(locate: Locator, colors: map<int32, uint32>,
                                        data: seq<(string, Json)>, k: int32)
    requires forall j :: 0 <= j < |data| ==> !SetsKey(locate, data[j], k)
    ensures k in StaticColors(locate, colors, data) <==> k in colors
    ensures k in colors ==> StaticColors(locate, colors, data)[k] == colors[k]
  {
    if data != [] {
      var n := |data| - 1;
      StaticEntryAt(locate, StaticColors(locate, colors, data[..n]), data[n], k);
      UnsetKeyKept(locate, colors, data[..n], k);
    }
  }

  /** Every key some member sets is present after static loading. */
  lemma {:induction false} SetKeyPresent(locate: Locator, colors: map<int32, uint32>,
                                         data: seq<(string, Json)>, i: nat, k: int32)
    requires i < |data| && SetsKey(locate, data[i], k)
    ensures k in StaticColors(locate, colors, data)
  {
    var n := |data| - 1;
    var prefix := data[..n];
    assert StaticColors(locate, colors, data) == StaticEntry(locate, StaticColors(locate, colors, prefix), data[n]);
    StaticEntryAt(locate, StaticColors(locate, colors, prefix), data[n], k);
    if i < n {
      assert prefix[i] == data[i];
      SetKeyPresent(locate, colors, prefix, i, k);
    } else {
      assert i == n;
    }
  }

  // ---------------------------------------------------------------------
  // The effect

  /** The effect document for `name`: `files` maps an effect name to the
      parsed content of `lighting/<name>.le` (missing: no such file;
      `None`: not valid JSON).  Only a JSON object counts as a document. */
  function EffectDocument(files: map<string, Option<Json>>, name: string): Option<seq<(string, Json)>> {
    if name == [] || name !in files then None
    else
      match files[name]
      case Some(JObject(m)) => Some(m)
      case _ => None
  }

  /** `Type`: a (case-insensitive) `LightingEffectType` name, or its
      number; Dynamic when absent or unparseable. */
  function EffectTypeOf(enums: Enums, doc: seq<(string, Json)>): int32 {
    match Get(doc, "Type")
    case Some(JString(s)) => EnumParse<int32>(enums.effectTypes, s, true).GetOr(enums.dynamicEffect)
    case Some(JInt(n)) => Wrap32(n)
    case _ => enums.dynamicEffect
  }

  function StaticData(doc: seq<(string, Json)>): seq<(string, Json)> {
    match Get(doc, "Data")
    case Some(JObject(m)) => m
    case _ => []
  }

  function FrameEntries(doc: seq<(string, Json)>): seq<Json> {
    match Get(doc, "Frames")
    case Some(JArray(items)) => items
    case _ => []
  }

  function ConfigEntries(doc: seq<(string, Json)>): seq<Json> {
    match Get(doc, "LEConfigs")
    case Some(JArray(items)) => items
    case _ => []
  }

  /** The set of keys of `items` that resolve (the two `Data` loops and the
      `Keys` loop of `LoadDynamic`). */
  method ResolveKeys(locate: Locator, items: seq<Json>) returns (keys: set<int32>)
    ensures keys == KeySet(locate, items)
  {
    keys := {};
    var j := 0;
    while j < |items|
      invariant 0 <= j <= |items|
      invariant keys == KeySet(locate, items[..j])
    {
      KeySetStep(locate, items, j);
      var key := locate(items[j]);
      if key.Some? {
        keys := keys + {key.value};
      }
      j := j + 1;
    }
    assert items[..j] == items;
  }

  /** The keys of a frame's `Data`, an object or a list. */
  method ResolveFrameKeys(locate: Locator, frame: seq<(string, Json)>) returns (keys: set<int32>)
    ensures keys == FrameKeys(locate, frame)
  {
    keys := {};
    match Get(frame, "Data") {
      case Some(JObject(ms)) =>
        keys := ResolveKeys(locate, MemberKeys(ms));
      case Some(JArray(items)) =>
        keys := ResolveKeys(locate, items);
      case _ =>
    }
  }

  /** The keys of a config's `Keys` list. */
  method ResolveParamKeys(locate: Locator, config: seq<(string, Json)>) returns (keys: set<int32>)
    ensures keys == ParamKeys(locate, config)
  {
    keys := {};
    match Get(config, "Keys") {
      case Some(JArray(items)) =>
        keys := ResolveKeys(locate, items);
      case _ =>
    }
  }

  /** What an effect holds besides its id, name and layers. */
  datatype EffectContents = EffectContents(Type: int32, Frames: seq<Frame>, TotalFrames: int32, Params: seq<Param>,
                                           KeyColors: map<int32, uint32>)

  /** The contents of a new effect. */
  const NoContents := EffectContents(0, [], 0, [], map[])

  /** The contents `Load` leaves after reading `doc` over `c`: the
      document's type, then a static effect's colours over the old ones,
      or a dynamic effect's frames, counts and params after the old
      ones; nothing is cleared. */
  function Reloaded(enums: Enums, locate: Locator, doc: seq<(string, Json)>, c: EffectContents): EffectContents {
    var t := EffectTypeOf(enums, doc);
    if t == enums.staticEffect then
      c.(Type := t, KeyColors := StaticColors(locate, c.KeyColors, StaticData(doc)))
    else if t == enums.dynamicEffect then
      var frames := FramesOf(locate, FrameEntries(doc));
      c.(Type := t, Frames := c.Frames + frames, TotalFrames := AddCounts(c.TotalFrames, frames),
         Params := c.Params + ParamsOf(enums, locate, ConfigEntries(doc)))
    else c.(Type := t)
  }

  /** The contents of a new effect after loading `docs`, in order. */
  function ContentsAfter(enums: Enums, locate: Locator, docs: seq<seq<(string, Json)>>): EffectContents
    decreases |docs|, 1
  {
    if docs == [] then NoContents else LastLoaded(enums, locate, docs)
  }

  /** The last of `docs` loaded over the contents the earlier ones left. */
  function LastLoaded(enums: Enums, locate: Locator, docs: seq<seq<(string, Json)>>): EffectContents
    requires docs != []
    decreases |docs|, 0
  {
    Reloaded(enums, locate, docs[|docs| - 1], ContentsAfter(enums, locate, docs[..|docs| - 1]))
  }

  /** Loading one more document reloads the contents the earlier ones
      left. */
  lemma ContentsAfterSnoc(enums: Enums, locate: Locator, docs: seq<seq<(string, Json)>>, doc: seq<(string, Json)>)
    ensures ContentsAfter(enums, locate, docs + [doc]) == Reloaded(enums, locate, doc, ContentsAfter(enums, locate, docs))
  {
    assert (docs + [doc])[..|docs|] == docs;
    assert ContentsAfter(enums, locate, docs + [doc]) == LastLoaded(enums, locate, docs + [doc]);
  }

  /** Loading never clears: the old frames and params stay in front, the
      old coloured keys stay coloured, and a static load touches no frame
      and a dynamic one no colour. */
  lemma ReloadedKeeps(enums: Enums, locate: Locator, doc: seq<(string, Json)>, c: EffectContents)
    ensures var r := Reloaded(enums, locate, doc, c);
      && r.Type == EffectTypeOf(enums, doc)
      && c.Frames <= r.Frames && c.Params <= r.Params
      && c.KeyColors.Keys <= r.KeyColors.Keys
      && (r.Type != enums.staticEffect ==> r.KeyColors == c.KeyColors)
      && (r.Type == enums.staticEffect || r.Type != enums.dynamicEffect ==>
            r.Frames == c.Frames && r.TotalFrames == c.TotalFrames && r.Params == c.Params)
  {
    if EffectTypeOf(enums, doc) == enums.staticEffect {
      forall k | k in c.KeyColors
        ensures k in StaticColors(locate, c.KeyColors, StaticData(doc))
      {
        StaticColorsKeys(locate, c.KeyColors, StaticData(doc), k);
      }
    }
  }

  /** Loading a dynamic effect a second time appends its frames and
      params a second time. */
  lemma ReloadedTwice(enums: Enums, locate: Locator, doc: seq<(string, Json)>, c: EffectContents)
    requires EffectTypeOf(enums, doc) == enums.dynamicEffect != enums.staticEffect
    ensures var frames, params := FramesOf(locate, FrameEntries(doc)), ParamsOf(enums, locate, ConfigEntries(doc));
      var r := Reloaded(enums, locate, doc, Reloaded(enums, locate, doc, c));
      && r.Frames == c.Frames + frames + frames
      && r.Params == c.Params + params + params
      && r.KeyColors == c.KeyColors
  {
  }

  class LightingEffect {
    var Id: int
    var Name: string
    var Type: int32
    /** Each frame holds a set of key location codes. */
    var Frames: seq<Frame>
    /** Total number of frames, from the count of each frame. */
    var TotalFrames: int32
    var Params: seq<Param>
    /** Static lighting: key location code to packed RGBA colour. */
    var KeyColors: map<int32, uint32>
    /** The layers this effect is used on. */
    var Layers: set<KeyboardLayer>

    constructor (name: string)
      ensures Id == -1 && Name == name && Type == 0 && Contents() == NoContents
      ensures Frames == [] && TotalFrames == 0 && Params == [] && KeyColors == map[] && Layers == {}
    {
      Id := -1;
      Name := name;
      Type := 0;
      Frames := [];
      TotalFrames := 0;
      Params := [];
      KeyColors := map[];
      Layers := {};
    }

    /** Everything but the id, name and layers. */
    ghost function Contents(): EffectContents
      reads this
    {
      EffectContents(Type, Frames, TotalFrames, Params, KeyColors)
    }

    /** `Load`: fails, changing nothing, unless the effect's file holds a
        JSON object; otherwise sets `Type` and loads the static colours or
        the dynamic frames and params on top of what the effect already
        holds. */
    method Load(enums: Enums, locate: Locator, files: map<string, Option<Json>>) returns (ok: bool)
      modifies this
      ensures ok <==> EffectDocument(files, old(Name)).Some?
      ensures !ok ==> unchanged(this)
      ensures Id == old(Id) && Name == old(Name) && Layers == old(Layers)
      ensures ok ==> Contents() == Reloaded(enums, locate, EffectDocument(files, Name).value, old(Contents()))
    {
      var document := EffectDocument(files, Name);
      if document.None? {
        return false;
      }
      var doc := document.value;
      Type := EffectTypeOf(enums, doc);
      if Type == enums.staticEffect {
        LoadStatic(locate, doc);
      } else if Type == enums.dynamicEffect {
        LoadDynamic(enums, locate, doc);
      }
      ok := true;
    }

    /** `LoadStatic`: stores the colour of every resolvable key of `Data`. */
    method LoadStatic(locate: Locator, doc: seq<(string, Json)>)
      modifies this`KeyColors
      ensures KeyColors == StaticColors(locate, old(KeyColors), StaticData(doc))
    {
      var data := StaticData(doc);
      var i := 0;
      while i < |data|
        invariant 0 <= i <= |data|
        invariant KeyColors == StaticColors(locate, old(KeyColors), data[..i])
      {
        StaticColorsStep(locate, old(KeyColors), data, i);
        var (name, value) := data[i];
        var color := EntryColor(value);
        var key := locate(JString(name));
        if key.Some? && color.ok {
          KeyColors := KeyColors[key.value := color.color];
        }
        i := i + 1;
      }
      assert data[..i] == data;
    }

    /** `LoadDynamic`: appends one frame per object of `Frames`, adds
        their counts to `TotalFrames` (wrapping as an `int`), and appends
        the params of `LEConfigs` that have keys. */
    method LoadDynamic(enums: Enums, locate: Locator, doc: seq<(string, Json)>)
      modifies this`Frames, this`TotalFrames, this`Params
      ensures Frames == old(Frames) + FramesOf(locate, FrameEntries(doc))
      ensures TotalFrames == AddCounts(old(TotalFrames), FramesOf(locate, FrameEntries(doc)))
      ensures Params == old(Params) + ParamsOf(enums, locate, ConfigEntries(doc))
    {
      LoadFrames(locate, FrameEntries(doc));
      LoadParams(enums, locate, ConfigEntries(doc));
    }

    /** The `Frames` loop of `LoadDynamic`. */
    method LoadFrames(locate: Locator, entries: seq<Json>)
      modifies this`Frames, this`TotalFrames
      ensures Frames == old(Frames) + FramesOf(locate, entries)
      ensures TotalFrames == AddCounts(old(TotalFrames), FramesOf(locate, entries))
    {
      var i := 0;
      while i < |entries|
        invariant 0 <= i <= |entries|
        invariant Frames == old(Frames) + FramesOf(locate, entries[..i])
        invariant TotalFrames == AddCounts(old(TotalFrames), FramesOf(locate, entries[..i]))
      {
        FramesStep(locate, entries, i);
        LoadFrameEntry(locate, entries[i], old(Frames), old(TotalFrames),
                       FramesOf(locate, entries[..i]), FramesOf(locate, entries[..i + 1]));
        i := i + 1;
      }
      assert entries[..i] == entries;
    }

    /** One entry of the `Frames` list: an object adds its frame, and its
        count to `TotalFrames`, after the frames `before` loaded so far,
        giving the frames `after`. */
    method LoadFrameEntry(locate: Locator, entry: Json, ghost startFrames: seq<Frame>, ghost startTotal: int32,
                          ghost before: seq<Frame>, ghost after: seq<Frame>)
      requires Frames == startFrames + before && TotalFrames == AddCounts(startTotal, before)
      requires after == before + (if entry.JObject? then [FrameOf(locate, entry.members)] else [])
      modifies this`Frames, this`TotalFrames
      ensures Frames == startFrames + after && TotalFrames == AddCounts(startTotal, after)
    {
      if entry.JObject? {
        AddFrame(locate, entry.members);
        assert after[..|after| - 1] == before;
      } else {
        assert after == before;
      }
    }

    /** One frame object of `Frames`. */
    method AddFrame(locate: Locator, frameData: seq<(string, Json)>)
      modifies this`Frames, this`TotalFrames
      ensures Frames == old(Frames) + [FrameOf(locate, frameData)]
      ensures TotalFrames == Wrap32(old(TotalFrames) + FrameCount(frameData))
    {
      var count := FrameCount(frameData);
      var keys := ResolveFrameKeys(locate, frameData);
      Frames := Frames + [Frame(count, keys)];
      TotalFrames := Wrap32(TotalFrames + count);
    }

    /** The `LEConfigs` loop of `LoadDynamic`. */
    method LoadParams(enums: Enums, locate: Locator, configs: seq<Json>)
      modifies this`Params
      ensures Params == old(Params) + ParamsOf(enums, locate, configs)
    {
      var i := 0;
      while i < |configs|
        invariant 0 <= i <= |configs|
        invariant Params == old(Params) + ParamsOf(enums, locate, configs[..i])
      {
        assert configs[..i + 1][..i] == configs[..i];
        if configs[i].JObject? {
          var config := configs[i].members;
          var keys := ResolveParamKeys(locate, config);
          if keys != {} {
            Params := Params + [Param(ParamColor(config), ColorTypeOf(enums, config), keys,
                                      FirstInt(config, "Count", "Val1"), FirstInt(config, "StayCount", "Val2"),
                                      UseRawValuesOf(config))];
          }
        }
        i := i + 1;
      }
      assert configs[..i] == configs;
    }
  }
}
