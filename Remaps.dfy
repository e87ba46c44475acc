/** Remap lines of a layer section, `source: destination`: the source key
    from the `+`-separated names before the colon, and the destination
    value from those after it, where key-type names are OR'd together
    (modifiers), other names replace, and `macro(name)` binds a macro. */
module Remaps {
  import opened Options
  import opened Numeric
  import opened Text
  import opened Tables
  import opened Macros

  /** The messages the compiler logs (`Program.Log`). */
  datatype LogEntry = LightingLoadFailed(effect: string) | MacroNotFound(macro: string, key: uint32)

  // ---------------------------------------------------------------------
  // Source

  /** The value a source name stores, if it stores one: every `0x` name
      does (its hexadecimal parse, given the whole name, `0x` included,
      stores its result, 0 on failure), and so does every `DriverValue`
      name (case-sensitive); other names store nothing. */
  function SourceTokenValue(token: string, enums: Enums): Option<uint32> {
    if "0x" <= token then Some(ParseHex(token).GetOr(0))
    else EnumParse(enums.driverValues, token, false)
  }

  /** The last value stored, 0 when none is. */
  function LastStored(values: seq<Option<uint32>>): uint32 {
    if values == [] then 0
    else
      match values[|values| - 1]
      case Some(v) => v
      case None => LastStored(values[..|values| - 1])
  }

  /** The source loop: each name in turn stores its value, if any, over
      the one before, starting from 0. */
  function SourceValue(tokens: seq<string>, enums: Enums): uint32 {
    LastStored(seq(|tokens|, i requires 0 <= i < |tokens| => SourceTokenValue(tokens[i], enums)))
  }

  lemma {:induction false} LastStoredNone(values: seq<Option<uint32>>)
    requires forall i :: 0 <= i < |values| ==> values[i].None?
    ensures LastStored(values) == 0
  {
    if values != [] {
      LastStoredNone(values[..|values| - 1]);
    }
  }

  lemma {:induction false} LastStoredLast(values: seq<Option<uint32>>, i: nat)
    requires i < |values| && values[i].Some?
    requires forall k :: i < k < |values| ==> values[k].None?
    ensures LastStored(values) == values[i].value
  {
    if i < |values| - 1 {
      LastStoredLast(values[..|values| - 1], i);
    }
  }

  /** With no name that stores a value, the source value stays 0. */
  lemma SourceValueNone(tokens: seq<string>, enums: Enums)
    requires forall i :: 0 <= i < |tokens| ==> SourceTokenValue(tokens[i], enums).None?
    ensures SourceValue(tokens, enums) == 0
  {
    LastStoredNone(seq(|tokens|, i requires 0 <= i < |tokens| => SourceTokenValue(tokens[i], enums)));
  }

  /** The source value is the value of the last name that stores one;
      names after it that do not parse change nothing. */
  lemma SourceValueLast(tokens: seq<string>, enums: Enums, i: nat)
    requires i < |tokens| && SourceTokenValue(tokens[i], enums).Some?
    requires forall k :: i < k < |tokens| ==> SourceTokenValue(tokens[k], enums).None?
    ensures SourceValue(tokens, enums) == SourceTokenValue(tokens[i], enums).value
  {
    LastStoredLast(seq(|tokens|, i requires 0 <= i < |tokens| => SourceTokenValue(tokens[i], enums)), i);
  }

  /** A `0x` name always stores 0: the parse sees the `0x` and fails. */
  lemma HexNameStoresZero(token: string, enums: Enums)
    requires "0x" <= token
    ensures SourceTokenValue(token, enums) == Some(0)
  {
    assert token == "0x" + token[2..];
    ParseHexRejectsSpecifier(token[2..]);
  }

  // ---------------------------------------------------------------------
  // Destination

  /** What the destination loop updates: the value, the macro table and
      id counter (`GetMacro`), and the log. */
  datatype DestState = DestState(dst: uint32, macros: map<string, Macro>, next: int, log: seq<LogEntry>)

  /** The name inside `macro(name)`: the text between the first `(`,
      which must not be the first character, and the first `)` after
      it. */
  function MacroCall(token: string): (r: Option<string>)
    ensures r.Some? <==> 0 < IndexOf(token, '(') < IndexOf(token, ')')
    ensures r.Some? ==> ')' !in r.value
  {
    var open, close := IndexOf(token, '('), IndexOf(token, ')');
    if open > 0 && close > open then
      assert ')' !in token[open + 1..close] by {
        assert forall i :: open + 1 <= i < close ==> token[open + 1..close][i - open - 1] == token[..close][i];
      }
      Some(token[open + 1..close])
    else None
  }

  /** `prefix(name)suffix` names `name` when the prefix is non-empty and
      has no bracket and the name has no `)`. */
  lemma MacroCallOf(prefix: string, name: string, suffix: string)
    requires 0 < |prefix| && '(' !in prefix && ')' !in prefix && ')' !in name
    ensures MacroCall(prefix + "(" + name + ")" + suffix) == Some(name)
  {
    var token := prefix + "(" + name + ")" + suffix;
    IndexOfFirst(prefix, '(', name + ")" + suffix);
    assert token == prefix + ['('] + (name + ")" + suffix);
    IndexOfFirst(prefix + "(" + name, ')', suffix);
    assert token == (prefix + "(" + name) + [')'] + suffix;
    assert token[|prefix| + 1..|prefix| + 1 + |name|] == name;
  }

  /** The driver value that runs macro `id`: `(uint)(0x0A010000 + id)`. */
  function MacroRef(id: int): (r: uint32)
    ensures 0 <= id <= 255 ==> r == 0x0A01_0000 + id
  {
    (0x0A01_0000 + id) % 0x1_0000_0000
  }

  /** Distinct macro ids that fit a byte give distinct driver values. */
  lemma MacroRefInjective(a: int, b: int)
    requires 0 <= a <= 255 && 0 <= b <= 255 && a != b
    ensures MacroRef(a) != MacroRef(b)
  {
  }

  /** One destination name: a `0x` name stores its (failing) parse; a name
      starting with `macro` (any case) binds the macro it names, or logs
      that it is missing; any other `DriverValue` name is OR'd in when it
      is a key and replaces the value otherwise. */
  function DestToken(st: DestState, token: string, src: uint32, enums: Enums, kv: KeyValues): DestState {
    if "0x" <= token then st.(dst := ParseHex(token).GetOr(0))
    else if "macro" <= ToLower(token) then
      match MacroCall(token)
      case None => st
      case Some(name) =>
        if name in st.macros then
          var (macros, next) := AssignId(st.macros, st.next, name);
          st.(dst := MacroRef(macros[name].Id), macros := macros, next := next)
        else st.(log := st.log + [MacroNotFound(name, src)])
    else
      match EnumParse(enums.driverValues, token, false)
      case Some(v) => st.(dst := if kv.getKeyType(v) == KeyType then Or32(st.dst, v) else v)
      case None => st
  }

  /** The destination after all destination names. */
  function DestValue(st: DestState, tokens: seq<string>, src: uint32, enums: Enums, kv: KeyValues): DestState {
    if tokens == [] then st
    else DestToken(DestValue(st, tokens[..|tokens| - 1], src, enums, kv), tokens[|tokens| - 1], src, enums, kv)
  }

  /** The precedence rule of a named destination: a key is OR'd into the
      value, any other constant replaces it, and an unknown name changes
      nothing; the macro table and the log stay as they were. */
  lemma DestTokenRules(st: DestState, token: string, src: uint32, enums: Enums, kv: KeyValues)
    requires !("0x" <= token) && !("macro" <= ToLower(token))
    ensures var r := DestToken(st, token, src, enums, kv);
      && r.macros == st.macros && r.next == st.next && r.log == st.log
      && match EnumParse(enums.driverValues, token, false)
         case None => r.dst == st.dst
         case Some(v) => r.dst == if kv.getKeyType(v) == KeyType then Or32(st.dst, v) else v
  {
  }

  /** A macro binding: a defined macro replaces the value with its
      reference, giving it an id if it had none; an undefined one leaves
      the value and the table alone and logs exactly one message. */
  lemma DestMacroRules(st: DestState, token: string, src: uint32, enums: Enums, kv: KeyValues)
    requires !("0x" <= token) && "macro" <= ToLower(token) && MacroCall(token).Some?
    requires IdsValid(st.macros, st.next)
    ensures var r := DestToken(st, token, src, enums, kv);
      var name := MacroCall(token).value;
      && (name in st.macros ==>
            && (r.macros, r.next) == AssignId(st.macros, st.next, name)
            && r.macros[name].Id >= 0
            && r.dst == MacroRef(r.macros[name].Id)
            && r.log == st.log)
      && (name !in st.macros ==>
            r == st.(log := st.log + [MacroNotFound(name, src)]))
  {
    var name := MacroCall(token).value;
    if name in st.macros {
      AssignIdValid(st.macros, st.next, name);
      var (m, n) := AssignId(st.macros, st.next, name);
      IdsBound(m, n);
    }
  }

  /** A `0x` destination name stores 0. */
  lemma HexDestStoresZero(st: DestState, token: string, src: uint32, enums: Enums, kv: KeyValues)
    requires "0x" <= token
    ensures DestToken(st, token, src, enums, kv) == st.(dst := 0)
  {
    assert token == "0x" + token[2..];
    ParseHexRejectsSpecifier(token[2..]);
  }

  /** One destination name keeps the id bookkeeping and every macro but
      the id of the one it binds, and logs at most a missing macro. */
  lemma DestTokenKeepsMacros(st: DestState, token: string, src: uint32, enums: Enums, kv: KeyValues)
    requires IdsValid(st.macros, st.next)
    ensures var r := DestToken(st, token, src, enums, kv);
      && IdsValid(r.macros, r.next)
      && r.macros.Keys == st.macros.Keys
      && (forall k :: k in r.macros ==> r.macros[k] == st.macros[k].(Id := r.macros[k].Id))
      && (forall k :: k in r.macros && st.macros[k].Id != -1 ==> r.macros[k].Id == st.macros[k].Id)
      && st.next <= r.next
      && st.log <= r.log && |r.log| <= |st.log| + 1
      && (forall i :: |st.log| <= i < |r.log| ==> r.log[i].MacroNotFound? && r.log[i].key == src)
  {
    if "0x" <= token {
    } else if "macro" <= ToLower(token) {
      match MacroCall(token)
      case None =>
      case Some(name) =>
        if name in st.macros {
          AssignIdValid(st.macros, st.next, name);
        }
    } else {
      DestTokenRules(st, token, src, enums, kv);
    }
  }

  /** The destination loop keeps the id bookkeeping, leaves every macro
      but its id alone, keeps every id already given, and only ever
      appends missing-macro messages to the log. */
  lemma {:induction false} DestValueKeepsMacros(st: DestState, tokens: seq<string>, src: uint32, enums: Enums, kv: KeyValues)
    requires IdsValid(st.macros, st.next)
    ensures var r := DestValue(st, tokens, src, enums, kv);
      && IdsValid(r.macros, r.next)
      && r.macros.Keys == st.macros.Keys
      && (forall k :: k in r.macros ==> r.macros[k] == st.macros[k].(Id := r.macros[k].Id))
      && (forall k :: k in r.macros && st.macros[k].Id != -1 ==> r.macros[k].Id == st.macros[k].Id)
      && st.next <= r.next
      && st.log <= r.log
      && (forall i :: |st.log| <= i < |r.log| ==> r.log[i].MacroNotFound? && r.log[i].key == src)
  {
    if tokens != [] {
      var prefix := tokens[..|tokens| - 1];
      DestValueKeepsMacros(st, prefix, src, enums, kv);
      var mid := DestValue(st, prefix, src, enums, kv);
      DestTokenKeepsMacros(mid, tokens[|tokens| - 1], src, enums, kv);
    }
  }

  /** Every defined macro the destination names ends up with an id, and a
      destination whose last name binds a macro is that macro's reference
      under its final, and first-given, id. */
  lemma {:induction false} DestValueBindsLast(st: DestState, tokens: seq<string>, src: uint32, enums: Enums, kv: KeyValues)
    requires IdsValid(st.macros, st.next) && tokens != []
    requires var t := tokens[|tokens| - 1];
      !("0x" <= t) && "macro" <= ToLower(t) && MacroCall(t).Some? && MacroCall(t).value in st.macros
    ensures var r := DestValue(st, tokens, src, enums, kv);
      var name := MacroCall(tokens[|tokens| - 1]).value;
      && name in r.macros
      && 0 <= r.macros[name].Id < r.next
      && r.dst == MacroRef(r.macros[name].Id)
      && (st.macros[name].Id != -1 ==> r.macros[name].Id == st.macros[name].Id)
  {
    var prefix := tokens[..|tokens| - 1];
    DestValueKeepsMacros(st, prefix, src, enums, kv);
    var mid := DestValue(st, prefix, src, enums, kv);
    var name := MacroCall(tokens[|tokens| - 1]).value;
    DestMacroRules(mid, tokens[|tokens| - 1], src, enums, kv);
    AssignIdValid(mid.macros, mid.next, name);
    var r := DestValue(st, tokens, src, enums, kv);
    IdsBound(r.macros, r.next);
  }

  // ---------------------------------------------------------------------
  // A whole remap line

  /** The key a remap line writes and the destination state after it. */
  datatype Remap = Remap(src: uint32, dest: DestState)

  /** A layer data line: `None` (nothing written, nothing looked up) when
      it has no `:`-separated destination or its source value is 0. */
  function RemapOf(text: string, macros: map<string, Macro>, next: int, log: seq<LogEntry>,
                   enums: Enums, kv: KeyValues): (r: Option<Remap>)
    ensures r.Some? ==> r.value.src != 0
    ensures r.Some? ==> |Split(text, ':')| > 1 && r.value.src == SourceValue(Split(Split(text, ':')[0], '+'), enums)
  {
    var fields := Split(text, ':');
    if |fields| <= 1 then None
    else
      var src := SourceValue(Split(fields[0], '+'), enums);
      if src == 0 then None
      else Some(Remap(src, DestValue(DestState(0, macros, next, log), Split(fields[1], '+'), src, enums, kv)))
  }
}
