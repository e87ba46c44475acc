/** Section headers of a profile file: `[Base, FnLayer1]`,
    `[Macro(name, ...)]`, `[Lighting(name, layers...)]`,
    `[NoLighting]` and `[NoLighting(layers...)]`, and the section state
    (current group, selected layers, current macro) they set. */
module Headers {
  import opened Options
  import opened Text
  import opened Tables
  import opened Keymap

  /** `GroupType`. */
  datatype GroupType = NoGroup | LayerGroup | MacroGroup | LightingGroup

  /** A parsed header: its group names and, when it has a parenthesised
      list, that list's trimmed entries (`innerNameSplitted`). */
  datatype Header = Header(groupNames: seq<string>, inner: Option<seq<string>>)

  /** Every piece trimmed. */
  function TrimAll(pieces: seq<string>): (r: seq<string>)
    ensures |r| == |pieces|
    ensures forall i :: 0 <= i < |pieces| ==> r[i] == Trim(pieces[i])
  {
    seq(|pieces|, i requires 0 <= i < |pieces| => Trim(pieces[i]))
  }

  /** The text of a trimmed header line starting with `[`: `None` unless
      a `]` follows at position 2 or later.  With `(` after the first
      character and a later `)`, the header names one group, the text
      before the `(`, and carries the comma-separated list inside;
      otherwise it is a comma-separated list of group names. */
  function ParseHeader(line: string): (r: Option<Header>)
    ensures r.None? <==> IndexOf(line, ']') <= 1
    ensures r.Some? && r.value.inner.Some? ==> |r.value.groupNames| == 1
    ensures r.Some? && r.value.inner.None? ==> forall i :: 0 <= i < |r.value.groupNames| ==> ',' !in r.value.groupNames[i]
  {
    var endBrace := IndexOf(line, ']');
    if endBrace <= 1 then None
    else
      var full := Trim(line[1..endBrace]);
      var open, close := IndexOf(full, '('), IndexOf(full, ')');
      if open > 0 && close > open then
        Some(Header([Trim(full[..open])], Some(TrimAll(Split(full[open + 1..close], ',')))))
      else
        var names := TrimAll(Split(full, ','));
        assert forall i :: 0 <= i < |names| ==> ',' !in names[i] by {
          forall i | 0 <= i < |names| ensures ',' !in names[i] {
            TrimSub(Split(full, ',')[i], ',');
          }
        }
        Some(Header(names, None))
  }

  /** Trimming adds no character: a separator absent from a piece is
      absent from its trim. */
  lemma TrimSub(s: string, c: char)
    requires c !in s
    ensures c !in Trim(s)
  {
    var a := TrimStartBy(s, false);
    var b := TrimEndBy(a, false);
    forall j | 0 <= j < |b|
      ensures b[j] != c
    {
      assert b[j] == a[j] == s[|s| - |a| + j];
    }
  }

  /** The macro or lighting name of a header: the first entry of its
      list, or empty (null) without one. */
  function InnerName(h: Header): string {
    if h.inner.Some? && |h.inner.value| > 0 then h.inner.value[0] else ""
  }

  /** A plain list of names carries no inner name, so it cannot open a
      macro or lighting section. */
  lemma ListHeaderHasNoInnerName(line: string)
    requires ParseHeader(line).Some? && ParseHeader(line).value.inner.None?
    ensures InnerName(ParseHeader(line).value) == ""
  {
  }

  // ---------------------------------------------------------------------
  // Group names

  /** The layer table a lower-cased layer group name selects. */
  function LayerTokenRef(token: string): Option<LayerRef> {
    if token == "base" then Some(LayerRef(Base, false))
    else if token == "layer1" then Some(LayerRef(Layer1, false))
    else if token == "layer2" then Some(LayerRef(Layer2, false))
    else if token == "layer3" then Some(LayerRef(Layer3, false))
    else if token == "fnbase" then Some(LayerRef(Base, true))
    else if token == "fnlayer1" then Some(LayerRef(Layer1, true))
    else if token == "fnlayer2" then Some(LayerRef(Layer2, true))
    else if token == "fnlayer3" then Some(LayerRef(Layer3, true))
    else None
  }

  /** The group name of each layer table. */
  function RefToken(ref: LayerRef): string {
    match ref
    case LayerRef(Base, false) => "base"
    case LayerRef(Layer1, false) => "layer1"
    case LayerRef(Layer2, false) => "layer2"
    case LayerRef(Layer3, false) => "layer3"
    case LayerRef(Base, true) => "fnbase"
    case LayerRef(Layer1, true) => "fnlayer1"
    case LayerRef(Layer2, true) => "fnlayer2"
    case LayerRef(Layer3, true) => "fnlayer3"
  }

  /** The eight layer group names and the eight layer tables correspond
      one to one. */
  lemma LayerTokens(ref: LayerRef, token: string)
    ensures LayerTokenRef(RefToken(ref)) == Some(ref)
    ensures LayerTokenRef(token) == Some(ref) <==> token == RefToken(ref)
  {
  }

  /** Whether some group name of the list is `word` once lower-cased. */
  predicate HasToken(tokens: seq<string>, word: string) {
    exists i :: 0 <= i < |tokens| && ToLower(tokens[i]) == word
  }

  /** The group a group name opens in a pass that allows `groups`, if
      any: layer names need the layer group; `macro` and `lighting` need
      their group and an inner name; anything else opens none. */
  function TokenGroup(token: string, h: Header, groups: set<GroupType>): (r: Option<GroupType>)
    ensures r.Some? ==> r.value in groups && r.value != NoGroup
  {
    var t := ToLower(token);
    if LayerTokenRef(t).Some? then (if LayerGroup in groups then Some(LayerGroup) else None)
    else if t == "macro" then (if MacroGroup in groups && InnerName(h) != "" then Some(MacroGroup) else None)
    else if t == "lighting" then (if LightingGroup in groups && InnerName(h) != "" then Some(LightingGroup) else None)
    else None
  }

  /** The group each name of a header opens, if any. */
  function TokenGroups(tokens: seq<string>, h: Header, groups: set<GroupType>): seq<Option<GroupType>> {
    seq(|tokens|, i requires 0 <= i < |tokens| => TokenGroup(tokens[i], h, groups))
  }

  /** The last group opened, `None` when no entry opens one. */
  function LastGroup(values: seq<Option<GroupType>>): GroupType {
    if values == [] then NoGroup
    else
      match values[|values| - 1]
      case Some(g) => g
      case None => LastGroup(values[..|values| - 1])
  }

  /** The group after the names of a header: set by the last name that
      opens one; `None` stays in force when no name does. */
  function GroupOfTokens(tokens: seq<string>, h: Header, groups: set<GroupType>): GroupType {
    LastGroup(TokenGroups(tokens, h, groups))
  }

  /** Entry `i` opens a group and no later entry does. */
  predicate OpensLast(values: seq<Option<GroupType>>, i: int) {
    0 <= i < |values| && values[i].Some? && forall k :: i < k < |values| ==> values[k].None?
  }

  lemma {:induction false} LastGroupLast(values: seq<Option<GroupType>>)
    requires forall i :: 0 <= i < |values| ==> values[i] != Some(NoGroup)
    ensures LastGroup(values) == NoGroup <==> forall i :: 0 <= i < |values| ==> values[i].None?
    ensures LastGroup(values) != NoGroup ==>
      exists i :: OpensLast(values, i) && values[i] == Some(LastGroup(values))
  {
    if values != [] {
      var n := |values| - 1;
      var prefix := values[..n];
      assert forall i :: 0 <= i < n ==> prefix[i] == values[i];
      LastGroupLast(prefix);
      if values[n].Some? {
        assert OpensLast(values, n);
      } else if LastGroup(values) != NoGroup {
        var i :| OpensLast(prefix, i) && prefix[i] == Some(LastGroup(prefix));
        assert OpensLast(values, i);
      }
    }
  }

  /** The layer tables the names of a header select: every layer name,
      when the pass allows layers. */
  function RefsOfTokens(tokens: seq<string>, groups: set<GroupType>): (r: set<LayerRef>)
    ensures LayerGroup !in groups ==> r == {}
  {
    if LayerGroup !in groups then {}
    else set i | 0 <= i < |tokens| && LayerTokenRef(ToLower(tokens[i])).Some? :: LayerTokenRef(ToLower(tokens[i])).value
  }

  /** The group is the one the last opening name opens, and names that
      open nothing (unknown names, names the pass does not allow) are
      skipped. */
  lemma GroupOfTokensLast(tokens: seq<string>, h: Header, groups: set<GroupType>)
    ensures GroupOfTokens(tokens, h, groups) == NoGroup <==>
      forall i :: 0 <= i < |tokens| ==> TokenGroup(tokens[i], h, groups).None?
    ensures GroupOfTokens(tokens, h, groups) != NoGroup ==>
      exists i :: 0 <= i < |tokens| && TokenGroup(tokens[i], h, groups) == Some(GroupOfTokens(tokens, h, groups))
        && forall k :: i < k < |tokens| ==> TokenGroup(tokens[k], h, groups).None?
  {
    var values := TokenGroups(tokens, h, groups);
    assert forall k :: 0 <= k < |tokens| ==> values[k] == TokenGroup(tokens[k], h, groups);
    LastGroupLast(values);
    if GroupOfTokens(tokens, h, groups) != NoGroup {
      var i :| OpensLast(values, i) && values[i] == Some(LastGroup(values));
    }
  }

  /** The layer selection one name further: the name adds its layer
      table when it names a layer and the pass allows layers, and adds
      nothing otherwise. */
  lemma TokensSnoc(tokens: seq<string>, h: Header, groups: set<GroupType>, j: nat)
    requires j < |tokens|
    ensures LayerGroup in groups && LayerTokenRef(ToLower(tokens[j])).Some? ==>
      RefsOfTokens(tokens[..j + 1], groups) == RefsOfTokens(tokens[..j], groups) + {LayerTokenRef(ToLower(tokens[j])).value}
    ensures !(LayerGroup in groups && LayerTokenRef(ToLower(tokens[j])).Some?) ==>
      RefsOfTokens(tokens[..j + 1], groups) == RefsOfTokens(tokens[..j], groups)
  {
  }

  /** `[Macro(...)]`: the pass allows macros and the header names one. */
  predicate MacroSelected(h: Header, groups: set<GroupType>) {
    MacroGroup in groups && InnerName(h) != "" && HasToken(h.groupNames, "macro")
  }

  /** `[Lighting(...)]`: the pass allows lighting and the header names an
      effect. */
  predicate LightingSelected(h: Header, groups: set<GroupType>) {
    LightingGroup in groups && InnerName(h) != "" && HasToken(h.groupNames, "lighting")
  }

  /** The layers named in a list, by their exact (case-sensitive)
      `KeyboardLayer` spelling; other entries are skipped. */
  function ParsedLayers(names: seq<string>): (r: set<KeyboardLayer>)
    ensures forall l :: l in r <==> exists i :: 0 <= i < |names| && names[i] == LayerName(l)
  {
    var r := set i | 0 <= i < |names| && ParseKeyboardLayer(names[i]).Some? :: ParseKeyboardLayer(names[i]).value;
    assert forall l :: l in r <==> exists i :: 0 <= i < |names| && names[i] == LayerName(l) by {
      forall l ensures l in r <==> exists i :: 0 <= i < |names| && names[i] == LayerName(l) {
        if exists i :: 0 <= i < |names| && names[i] == LayerName(l) {
          var i :| 0 <= i < |names| && names[i] == LayerName(l);
          ParseKeyboardLayerExact(l, names[i]);
        }
        if l in r {
          var i :| 0 <= i < |names| && ParseKeyboardLayer(names[i]).Some? && ParseKeyboardLayer(names[i]).value == l;
          ParseKeyboardLayerExact(l, names[i]);
        }
      }
    }
    r
  }

  /** Layer names in lists are case-sensitive: `base` names no layer. */
  lemma ParsedLayersCaseSensitive()
    ensures ParsedLayers(["Base", "Layer2"]) == {Base, Layer2}
    ensures ParsedLayers(["base"]) == {}
  {
    assert ["Base", "Layer2"][0] == LayerName(Base);
    assert ["Base", "Layer2"][1] == LayerName(Layer2);
  }

  // ---------------------------------------------------------------------
  // Section state

  /** The locals of the compile loop that headers set: the current group,
      the selected layer tables, and the current macro (empty for null). */
  datatype Section = Section(group: GroupType, refs: set<LayerRef>, macro: string)

  /** The section after a header line: always a fresh group and layer
      selection (a header that does not parse leaves none); the current
      macro changes only on a macro header. */
  function HeaderSection(sec: Section, header: Option<Header>, groups: set<GroupType>): (r: Section)
    ensures header.None? ==> r.group == NoGroup && r.refs == {}
    ensures r.group == MacroGroup ==> header.Some? && MacroSelected(header.value, groups) && r.macro == InnerName(header.value)
  {
    match header
    case None => Section(NoGroup, {}, sec.macro)
    case Some(h) =>
      assert GroupOfTokens(h.groupNames, h, groups) == MacroGroup ==> MacroSelected(h, groups) by {
        if GroupOfTokens(h.groupNames, h, groups) == MacroGroup {
          GroupOfTokensLast(h.groupNames, h, groups);
        }
      }
      Section(GroupOfTokens(h.groupNames, h, groups), RefsOfTokens(h.groupNames, groups),
              if MacroSelected(h, groups) then InnerName(h) else sec.macro)
  }

  /** A header resets the section: the group and layer selection after it
      depend on the header alone, never on the section before it. */
  lemma HeaderResets(a: Section, b: Section, header: Option<Header>, groups: set<GroupType>)
    ensures HeaderSection(a, header, groups).group == HeaderSection(b, header, groups).group
    ensures HeaderSection(a, header, groups).refs == HeaderSection(b, header, groups).refs
  {
  }

  /** A header of layer names selects all of them and opens the layer
      group, when the pass allows layers; names that are not layer names
      are ignored. */
  lemma MultiLayerHeader(tokens: seq<string>, groups: set<GroupType>, ref: LayerRef)
    requires LayerGroup in groups
    ensures ref in RefsOfTokens(tokens, groups) <==> exists i :: 0 <= i < |tokens| && ToLower(tokens[i]) == RefToken(ref)
  {
    if exists i :: 0 <= i < |tokens| && ToLower(tokens[i]) == RefToken(ref) {
      var i :| 0 <= i < |tokens| && ToLower(tokens[i]) == RefToken(ref);
      LayerTokens(ref, ToLower(tokens[i]));
    }
    if ref in RefsOfTokens(tokens, groups) {
      var i :| 0 <= i < |tokens| && LayerTokenRef(ToLower(tokens[i])).Some? && LayerTokenRef(ToLower(tokens[i])).value == ref;
      LayerTokens(ref, ToLower(tokens[i]));
    }
  }
}
