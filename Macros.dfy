/** Macros (`UserDataFile.Macro`): the header fields of a
    `[Macro(name, ...)]` section, lazy id assignment, and the expansion of
    an action line into key-down and key-up actions. */
module Macros {
  import opened Options
  import opened Numeric
  import opened Text
  import opened Tables

  datatype MacroKeyState = Down | Up

  /** `MacroKeyType`; `DefaultType` is the enum's zero value, which an
      action keeps when its key name does not parse. */
  datatype MacroKeyType = DefaultType | Key | Mouse

  /** `Macro.Action`. */
  datatype Action = Action(State: MacroKeyState, Type: MacroKeyType, KeyCode: uint8, Modifier: Modifier, Delay: uint16)

  /** `Macro`; `Id` is -1 until the macro is first bound to a key. */
  datatype Macro = Macro(Name: string, Id: int, RepeatType: int32, RepeatCount: uint8, DefaultDelay: uint16,
                         UseTrailingDelay: bool, Actions: seq<Action>)

  // ---------------------------------------------------------------------
  // The macro header

  /** The macro a `[Macro(name, delay, repeatType, repeatCount,
      trailingDelay)]` header creates from its trimmed `fields` (the
      first being the name): each missing or unparseable field keeps the
      constructor's default, except that a repeat count that does not
      parse or is 0 becomes 1. */
  function NewMacro(name: string, fields: seq<string>, enums: Enums): (r: Macro)
    ensures r.Name == name && r.Id == -1 && r.Actions == []
    ensures r.RepeatCount >= 1
    ensures |fields| <= 1 ==> r.DefaultDelay == 0
    ensures |fields| > 1 && ParseUInt16(fields[1]).Some? ==> r.DefaultDelay == ParseUInt16(fields[1]).value
    ensures |fields| > 1 && ParseUInt16(fields[1]).None? ==> r.DefaultDelay == 0
    ensures |fields| <= 2 ==> r.RepeatType == enums.repeatXTimes
    ensures |fields| > 2 && EnumParse<int32>(enums.repeatTypes, fields[2], true).None? ==> r.RepeatType == enums.repeatXTimes
    ensures |fields| > 2 && EnumParse<int32>(enums.repeatTypes, fields[2], true).Some? ==>
      r.RepeatType == EnumParse<int32>(enums.repeatTypes, fields[2], true).value
    ensures |fields| > 3 && ParseUInt8(fields[3]).Some? && ParseUInt8(fields[3]).value != 0 ==>
      r.RepeatCount == ParseUInt8(fields[3]).value
    ensures |fields| <= 3 || ParseUInt8(fields[3]).GetOr(0) == 0 ==> r.RepeatCount == 1
    ensures r.UseTrailingDelay <==> |fields| > 4 && ParseBool(fields[4]) == Some(true)
  {
    Macro(name, -1, HeaderRepeatType(fields, enums), HeaderRepeatCount(fields), HeaderDelay(fields),
          HeaderTrailing(fields), [])
  }

  function HeaderDelay(fields: seq<string>): (r: uint16)
    ensures |fields| > 1 && ParseUInt16(fields[1]).Some? ==> r == ParseUInt16(fields[1]).value
    ensures |fields| <= 1 || ParseUInt16(fields[1]).None? ==> r == 0
  {
    if |fields| > 1 then ParseUInt16(fields[1]).GetOr(0) else 0
  }

  function HeaderRepeatType(fields: seq<string>, enums: Enums): (r: int32)
    ensures |fields| > 2 && EnumParse<int32>(enums.repeatTypes, fields[2], true).Some? ==>
      r == EnumParse<int32>(enums.repeatTypes, fields[2], true).value
    ensures |fields| <= 2 || EnumParse<int32>(enums.repeatTypes, fields[2], true).None? ==> r == enums.repeatXTimes
  {
    if |fields| > 2 then EnumParse<int32>(enums.repeatTypes, fields[2], true).GetOr(enums.repeatXTimes)
    else enums.repeatXTimes
  }

  function HeaderRepeatCount(fields: seq<string>): (r: uint8)
    ensures r >= 1
    ensures |fields| > 3 && ParseUInt8(fields[3]).Some? && ParseUInt8(fields[3]).value != 0 ==>
      r == ParseUInt8(fields[3]).value
    ensures |fields| <= 3 || ParseUInt8(fields[3]).GetOr(0) == 0 ==> r == 1
  {
    var count := if |fields| > 3 then ParseUInt8(fields[3]).GetOr(0) else 0;
    if count == 0 then 1 else count
  }

  function HeaderTrailing(fields: seq<string>): (r: bool)
    ensures r <==> |fields| > 4 && ParseBool(fields[4]) == Some(true)
  {
    |fields| > 4 && ParseBool(fields[4]).GetOr(false)
  }

  /** A delay written in decimal comes back as the macro's default delay. */
  lemma NewMacroDelay(name: string, enums: Enums, delay: uint16, n: nat, rest: seq<string>)
    requires 0 < n && delay < Pow(10, n)
    ensures NewMacro(name, [name, FormatDigits(delay, 10, n)] + rest, enums).DefaultDelay == delay
  {
    var fields := [name, FormatDigits(delay, 10, n)] + rest;
    assert fields[1] == FormatDigits(delay, 10, n);
    ParseIntegerOfFormat(delay, n, 0, 0xFFFF);
  }

  // ---------------------------------------------------------------------
  // Ids

  /** The names whose macro has been given an id. */
  function AssignedNames(macros: map<string, Macro>): set<string> {
    set name | name in macros && macros[name].Id != -1
  }

  /** The id bookkeeping `GetMacro` keeps: the ids handed out so far are
      distinct, each below `next`, and there are exactly `next` of them. */
  ghost predicate IdsValid(macros: map<string, Macro>, next: int) {
    && (forall name :: name in macros ==> -1 <= macros[name].Id < next)
    && (forall a, b :: a in macros && b in macros && a != b && macros[a].Id != -1 ==> macros[a].Id != macros[b].Id)
    && next == |AssignedNames(macros)|
  }

  /** `GetMacro`'s effect on the table: a known macro without an id gets
      `next`, which then advances; otherwise nothing changes. */
  function AssignId(macros: map<string, Macro>, next: int, name: string): (map<string, Macro>, int) {
    if name in macros && macros[name].Id == -1
    then (macros[name := macros[name].(Id := next)], next + 1)
    else (macros, next)
  }

  /** Id assignment keeps the bookkeeping, changes no macro but the named
      one and only its id, gives every known name an id, never changes
      an id once given, and consumes an id only for a known macro that
      had none. */
  lemma AssignIdValid(macros: map<string, Macro>, next: int, name: string)
    requires IdsValid(macros, next)
    ensures var (m, n) := AssignId(macros, next, name);
      && IdsValid(m, n)
      && m.Keys == macros.Keys
      && (forall k :: k in m ==> m[k] == macros[k].(Id := m[k].Id))
      && (forall k :: k in m && macros[k].Id != -1 ==> m[k].Id == macros[k].Id)
      && (name in m ==> m[name].Id != -1)
      && (n == next + 1 <==> name in macros && macros[name].Id == -1)
      && (n != next + 1 ==> n == next && m == macros)
  {
    AssignIdFrame(macros, next, name);
    if name in macros && macros[name].Id == -1 {
      var m := macros[name := macros[name].(Id := next)];
      AssignedGrows(macros, name, next);
      forall a, b | a in m && b in m && a != b && m[a].Id != -1
        ensures m[a].Id != m[b].Id
      {
        if a != name && b != name {
          assert m[a] == macros[a] && m[b] == macros[b];
        }
      }
    }
  }

  /** What `AssignId` changes: only the named macro, and only its id when
      it had none. */
  lemma AssignIdFrame(macros: map<string, Macro>, next: int, name: string)
    requires next != -1
    ensures var (m, n) := AssignId(macros, next, name);
      && m.Keys == macros.Keys
      && (forall k :: k in m ==> m[k] == macros[k].(Id := m[k].Id))
      && (forall k :: k in m && macros[k].Id != -1 ==> m[k].Id == macros[k].Id)
      && (name in m ==> m[name].Id != -1)
  {
    if name in macros && macros[name].Id == -1 {
      var m := macros[name := macros[name].(Id := next)];
      forall k | k in m
        ensures m[k] == macros[k].(Id := m[k].Id)
      {
        if k != name {
          assert m[k] == macros[k];
        }
      }
    }
  }

  /** Giving an id to a macro that had none adds its name to the named
      ones. */
  lemma AssignedGrows(macros: map<string, Macro>, name: string, id: int)
    requires name in macros && macros[name].Id == -1 && id != -1
    ensures AssignedNames(macros[name := macros[name].(Id := id)]) == AssignedNames(macros) + {name}
    ensures name !in AssignedNames(macros)
  {
  }

  /** The ids are the numbers below `next`, one name each: ids are given
      consecutively from 0. */
  lemma {:induction false} IdsBound(macros: map<string, Macro>, next: int)
    requires IdsValid(macros, next)
    ensures 0 <= next <= |macros|
    ensures forall name :: name in macros && macros[name].Id != -1 ==> 0 <= macros[name].Id < next
  {
    assert AssignedNames(macros) <= macros.Keys;
    SubsetCard(AssignedNames(macros), macros.Keys);
  }

  lemma SubsetCard<T>(a: set<T>, b: set<T>)
    requires a <= b
    ensures |a| <= |b|
  {
    if a != {} {
      var x :| x in a;
      SubsetCard(a - {x}, b - {x});
    }
  }

  /** With at most 256 macros every id fits the byte a macro reference
      carries (the `Debug.Assert` on binding a macro). */
  lemma IdsFitByte(macros: map<string, Macro>, next: int, name: string)
    requires IdsValid(macros, next) && |macros| <= 256 && name in macros
    ensures -1 <= macros[name].Id <= 255
  {
    IdsBound(macros, next);
  }

  /** The table every compile starts with: no macros, no ids. */
  lemma EmptyIdsValid()
    ensures IdsValid(map[], 0)
  {
    assert AssignedNames(map[]) == {};
  }

  /** Replacing a macro that has no id by one without an id (a macro
      header) keeps the bookkeeping. */
  lemma ReplaceUnassigned(macros: map<string, Macro>, next: int, name: string, m: Macro)
    requires IdsValid(macros, next) && m.Id == -1 && (name in macros ==> macros[name].Id == -1)
    ensures IdsValid(macros[name := m], next)
  {
    assert AssignedNames(macros[name := m]) == AssignedNames(macros);
  }

  /** Changing only the actions of a macro keeps the bookkeeping. */
  lemma ReplaceActions(macros: map<string, Macro>, next: int, name: string, actions: seq<Action>)
    requires IdsValid(macros, next) && name in macros
    ensures IdsValid(macros[name := macros[name].(Actions := actions)], next)
  {
    assert AssignedNames(macros[name := macros[name].(Actions := actions)]) == AssignedNames(macros);
  }

  // ---------------------------------------------------------------------
  // Action lines

  /** The key states an action keyword stands for (after `ToLower`); any
      other keyword has none. */
  function StatesOf(keyword: string): (r: Option<seq<MacroKeyState>>)
    ensures r.Some? ==> |r.value| >= 1
    ensures r == Some([Down, Up]) <==> keyword == "press"
    ensures r == Some([Down]) <==> keyword == "down"
    ensures r == Some([Up]) <==> keyword == "up"
    ensures r.None? <==> keyword !in {"press", "down", "up"}
  {
    if keyword == "press" then Some([Down, Up])
    else if keyword == "down" then Some([Down])
    else if keyword == "up" then Some([Up])
    else None
  }

  /** The action for one key name: a modifier key sets `Modifier`, a mouse
      key sets the mouse button, any other known key its short driver
      value (truncated to a byte); a name that does not parse keeps the
      default type, key code and modifier. */
  function TokenAction(state: MacroKeyState, token: string, delay: uint16, enums: Enums, kv: KeyValues): (r: Action)
    ensures r.State == state && r.Delay == delay
    ensures EnumParse(enums.driverValues, token, false).None? ==> r.Type == DefaultType && r.KeyCode == 0 && r.Modifier == NoModifier
    ensures r.Type == Mouse ==> r.Modifier == NoModifier
    ensures r.Modifier != NoModifier ==> r.Type == Key && r.KeyCode == 0
    ensures EnumParse(enums.driverValues, token, false).Some? ==>
      var v := EnumParse(enums.driverValues, token, false).value;
      if v in enums.modifierKeys then r.Type == Key && r.KeyCode == 0 && r.Modifier == enums.modifierKeys[v]
      else if v in enums.mouseButtons then r.Type == Mouse && r.KeyCode == enums.mouseButtons[v] && r.Modifier == NoModifier
      else r.Type == Key && r.KeyCode == kv.getShortDriverValue(v) % 0x100 && r.Modifier == NoModifier
  {
    match EnumParse(enums.driverValues, token, false)
    case None => Action(state, DefaultType, 0, NoModifier, delay)
    case Some(v) =>
      if v in enums.modifierKeys then Action(state, Key, 0, enums.modifierKeys[v], delay)
      else if v in enums.mouseButtons then Action(state, Mouse, enums.mouseButtons[v], NoModifier, delay)
      else Action(state, Key, kv.getShortDriverValue(v) % 0x100, NoModifier, delay)
  }

  /** Every state for every key, state-major, the delay on the very last
      action only. */
  function ExpandLine(states: seq<MacroKeyState>, tokens: seq<string>, delay: uint16, enums: Enums, kv: KeyValues): (r: seq<Action>)
    ensures |r| == |states| * |tokens|
  {
    if tokens == [] then []
    else
      var n := |states| * |tokens|;
      seq(n, i requires 0 <= i < n =>
        TokenAction(states[i / |tokens|], tokens[i % |tokens|], if i == n - 1 then delay else 0, enums, kv))
  }

  /** The action for state `j` and key `k` sits at `j * |tokens| + k`, and
      only the last action carries the delay. */
  lemma ExpandLineOrder(states: seq<MacroKeyState>, tokens: seq<string>, delay: uint16, enums: Enums, kv: KeyValues,
                        j: nat, k: nat)
    requires j < |states| && k < |tokens|
    ensures j * |tokens| + k < |ExpandLine(states, tokens, delay, enums, kv)|
    ensures var last := j == |states| - 1 && k == |tokens| - 1;
      ExpandLine(states, tokens, delay, enums, kv)[j * |tokens| + k]
        == TokenAction(states[j], tokens[k], if last then delay else 0, enums, kv)
  {
    var t, s := |tokens|, |states|;
    var i := j * t + k;
    assert (j + 1) * t == j * t + t;
    MulMono(j + 1, s, t);
    DivModUnique(i, t, j, k);
    assert (s - 1) * t + t == s * t;
    if j + 1 < s {
      MulMono(j + 2, s, t);
      assert (j + 2) * t == j * t + t + t;
    }
  }

  /** `press: A+B` is A down, B down, A up, B up, the delay on B up. */
  lemma PressTwoKeys(a: string, b: string, delay: uint16, enums: Enums, kv: KeyValues)
    ensures ExpandLine([Down, Up], [a, b], delay, enums, kv)
         == [TokenAction(Down, a, 0, enums, kv), TokenAction(Down, b, 0, enums, kv),
             TokenAction(Up, a, 0, enums, kv), TokenAction(Up, b, delay, enums, kv)]
  {
    var r := ExpandLine([Down, Up], [a, b], delay, enums, kv);
    ExpandLineOrder([Down, Up], [a, b], delay, enums, kv, 0, 0);
    ExpandLineOrder([Down, Up], [a, b], delay, enums, kv, 0, 1);
    ExpandLineOrder([Down, Up], [a, b], delay, enums, kv, 1, 0);
    ExpandLineOrder([Down, Up], [a, b], delay, enums, kv, 1, 1);
  }

  /** The delay of an action line: its third field when that parses as a
      `ushort`, else the macro's default. */
  function LineDelay(fields: seq<string>, defaultDelay: uint16): (r: uint16)
    ensures |fields| > 2 && ParseUInt16(fields[2]).Some? ==> r == ParseUInt16(fields[2]).value
    ensures |fields| <= 2 || ParseUInt16(fields[2]).None? ==> r == defaultDelay
  {
    if |fields| > 2 then ParseUInt16(fields[2]).GetOr(defaultDelay) else defaultDelay
  }

  /** The actions a macro data line appends: none for a line without a
      `:`-separated key list, `None` (the compile aborts) for an unknown
      action keyword, and otherwise one per state and key. */
  function LineActions(text: string, defaultDelay: uint16, enums: Enums, kv: KeyValues): (r: Option<seq<Action>>)
    ensures |Split(text, ':')| <= 1 ==> r == Some([])
    ensures |Split(text, ':')| > 1 ==> (r.None? <==> StatesOf(ToLower(Split(text, ':')[0])).None?)
    ensures r.Some? && |Split(text, ':')| > 1 ==>
      |r.value| == |StatesOf(ToLower(Split(text, ':')[0])).value| * |Split(Split(text, ':')[1], '+')|
    ensures r.Some? && |Split(text, ':')| > 1 ==>
      var fields := Split(text, ':');
      r.value == ExpandLine(StatesOf(ToLower(fields[0])).value, Split(fields[1], '+'), LineDelay(fields, defaultDelay), enums, kv)
  {
    var fields := Split(text, ':');
    if |fields| <= 1 then Some([])
    else
      match StatesOf(ToLower(fields[0]))
      case None => None
      case Some(states) => Some(ExpandLine(states, Split(fields[1], '+'), LineDelay(fields, defaultDelay), enums, kv))
  }
}
