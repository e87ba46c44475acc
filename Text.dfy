/** The .NET string operations the profile compiler uses, on `seq<char>`:
    `Trim`, `Split(..., RemoveEmptyEntries)`, `IndexOf`, `StartsWith`,
    `ToLower`, and the `TryParse` number and boolean parsers. */
module Text {
  import opened Options
  import opened Numeric

  // ---------------------------------------------------------------------
  // Whitespace and trimming

  /** `Char.IsWhiteSpace`: the characters `String.Trim()` removes. */
  predicate IsWhiteSpace(c: char) {
    c == ' ' || ('\t' <= c <= '\r') || c == '\U{85}' || c == '\U{A0}' || c == '\U{1680}'
    || ('\U{2000}' <= c <= '\U{200A}') || c == '\U{2028}' || c == '\U{2029}'
    || c == '\U{202F}' || c == '\U{205F}' || c == '\U{3000}'
  }

  /** The whitespace that `NumberStyles.AllowLeadingWhite` and
      `AllowTrailingWhite` accept around a number. */
  predicate IsNumberWhite(c: char) {
    c == ' ' || ('\t' <= c <= '\r')
  }

  /** The whitespace a trim removes: around a number when `number`,
      otherwise everything `String.Trim()` removes. */
  predicate Blank(c: char, number: bool) {
    if number then IsNumberWhite(c) else IsWhiteSpace(c)
  }

  /** Drops the longest prefix of blank characters. */
  function TrimStartBy(s: string, number: bool): (r: string)
    ensures |r| <= |s| && r == s[|s| - |r|..]
    ensures forall k :: 0 <= k < |s| - |r| ==> Blank(s[k], number)
    ensures r == [] || !Blank(r[0], number)
  {
    if s == [] || !Blank(s[0], number) then s else TrimStartBy(s[1..], number)
  }

  /** Drops the longest suffix of blank characters. */
  function TrimEndBy(s: string, number: bool): (r: string)
    ensures |r| <= |s| && r == s[..|r|]
    ensures forall k :: |r| <= k < |s| ==> Blank(s[k], number)
    ensures r == [] || !Blank(r[|r| - 1], number)
  {
    if s == [] || !Blank(s[|s| - 1], number) then s else TrimEndBy(s[..|s| - 1], number)
  }

  function TrimBy(s: string, number: bool): string {
    TrimEndBy(TrimStartBy(s, number), number)
  }

  /** `String.Trim()`. */
  function Trim(s: string): string {
    TrimBy(s, false)
  }

  /** A string whose first two characters are not whitespace keeps them
      when trimmed. */
  lemma TrimKeepsHead(s: string, number: bool)
    requires |s| >= 2 && !Blank(s[0], number) && !Blank(s[1], number)
    ensures |TrimBy(s, number)| >= 2 && TrimBy(s, number)[..2] == s[..2]
  {
    var t := TrimStartBy(s, number);
    assert t == s;
    assert !Blank(t[1], number);
  }

  /** A string without whitespace at either end is its own trim. */
  lemma TrimNoWhite(s: string, number: bool)
    requires forall k :: 0 <= k < |s| ==> !Blank(s[k], number)
    ensures TrimBy(s, number) == s
  {
  }

  // ---------------------------------------------------------------------
  // Searching and splitting

  /** `s.IndexOf(c)`: the first position of `c`, or -1. */
  function IndexOf(s: string, c: char): (r: int)
    ensures -1 <= r < |s|
    ensures r == -1 <==> c !in s
    ensures 0 <= r ==> s[r] == c && c !in s[..r]
  {
    if s == [] then -1
    else if s[0] == c then 0
    else
      var k := IndexOf(s[1..], c);
      assert s == [s[0]] + s[1..];
      if k == -1 then -1 else k + 1
  }

  /** The first `c` of `a + [c] + b` is the one after `a` when `a` has
      none. */
  lemma IndexOfFirst(a: string, c: char, b: string)
    requires c !in a
    ensures IndexOf(a + [c] + b, c) == |a|
  {
    var s := a + [c] + b;
    assert s[|a|] == c;
    assert forall i :: 0 <= i < |a| ==> s[i] == a[i];
  }

  /** `s` with every `c` removed. */
  function Remove(s: string, c: char): (r: string)
    ensures c !in r
  {
    if s == [] then [] else (if s[0] == c then [] else [s[0]]) + Remove(s[1..], c)
  }

  /** The pieces joined back together, without separators. */
  function Concat(pieces: seq<string>): string {
    if pieces == [] then [] else pieces[0] + Concat(pieces[1..])
  }

  lemma {:induction false} RemoveAbsent(s: string, c: char)
    requires c !in s
    ensures Remove(s, c) == s
  {
    if s != [] {
      RemoveAbsent(s[1..], c);
    }
  }

  lemma {:induction false} ConcatAppend(a: seq<string>, b: seq<string>)
    ensures Concat(a + b) == Concat(a) + Concat(b)
  {
    if a != [] {
      assert (a + b)[1..] == a[1..] + b;
      ConcatAppend(a[1..], b);
    } else {
      assert a + b == b;
    }
  }

  /** `s.Split(new[] { sep }, StringSplitOptions.RemoveEmptyEntries)`:
      the maximal non-empty runs of `s` free of `sep`, in order.  Every
      piece is non-empty and free of `sep`, and together they are
      exactly the characters of `s` other than `sep`. */
  function Split(s: string, sep: char): (r: seq<string>)
    ensures Pieces(r, sep)
    ensures Concat(r) == Remove(s, sep)
    decreases |s|
  {
    var k := IndexOf(s, sep);
    if k < 0 then
      RemoveAbsent(s, sep);
      if s == [] then [] else [s]
    else
      var head: seq<string> := if k == 0 then [] else [s[..k]];
      var rest := Split(s[k + 1..], sep);
      SplitStep(s, sep, k, head, rest);
      head + rest
  }

  /** Every piece is non-empty and free of `sep`. */
  predicate Pieces(r: seq<string>, sep: char) {
    forall i :: 0 <= i < |r| ==> r[i] != [] && sep !in r[i]
  }

  lemma SplitStep(s: string, sep: char, k: nat, head: seq<string>, rest: seq<string>)
    requires k < |s| && s[k] == sep && sep !in s[..k]
    requires head == if k == 0 then [] else [s[..k]]
    requires Pieces(rest, sep) && Concat(rest) == Remove(s[k + 1..], sep)
    ensures Pieces(head + rest, sep) && Concat(head + rest) == Remove(s, sep)
  {
    assert forall i :: 0 <= i < |head + rest| ==> (head + rest)[i] == if i < |head| then head[i] else rest[i - |head|];
    RemoveAt(s, sep, k);
    assert Concat(head) == s[..k] by {
      if k != 0 {
        assert head[1..] == [];
      }
    }
    ConcatAppend(head, rest);
  }

  /** Removing separators around the first one. */
  lemma {:induction false} RemoveAt(s: string, sep: char, k: nat)
    requires k < |s| && s[k] == sep && sep !in s[..k]
    ensures Remove(s, sep) == s[..k] + Remove(s[k + 1..], sep)
  {
    if k > 0 {
      var t := s[1..];
      assert t[..k - 1] == s[1..k];
      assert t[k..] == s[k + 1..];
      assert s[0] in s[..k];
      RemoveAt(t, sep, k - 1);
      assert [s[0]] + s[1..k] == s[..k];
    }
  }

  /** `pieces` joined with `sep` between consecutive pieces
      (`String.Join`). */
  function Join(pieces: seq<string>, sep: char): string {
    if pieces == [] then []
    else if |pieces| == 1 then pieces[0]
    else pieces[0] + [sep] + Join(pieces[1..], sep)
  }

  /** Splitting inverts joining: non-empty, separator-free pieces come
      back unchanged. */
  lemma {:induction false} SplitJoin(pieces: seq<string>, sep: char)
    requires Pieces(pieces, sep)
    ensures Split(Join(pieces, sep), sep) == pieces
  {
    if |pieces| == 1 {
      assert IndexOf(pieces[0], sep) == -1;
    } else if |pieces| > 1 {
      var p := pieces[0];
      var rest := Join(pieces[1..], sep);
      var s := p + [sep] + rest;
      assert s[..|p|] == p;
      IndexOfAfter(p, sep, rest);
      assert s[|p| + 1..] == rest;
      SplitJoin(pieces[1..], sep);
      assert [p] + pieces[1..] == pieces;
    }
  }

  lemma IndexOfAfter(p: string, sep: char, rest: string)
    requires p != [] && sep !in p
    ensures IndexOf(p + [sep] + rest, sep) == |p|
  {
    var s := p + [sep] + rest;
    assert s[|p|] == sep;
    assert s[..|p|] == p;
    assert forall i :: 0 <= i < |p| ==> s[i] == p[i];
  }

  // ---------------------------------------------------------------------
  // Case

  /** `Char.ToLowerInvariant` restricted to ASCII letters. */
  function LowerChar(c: char): char {
    if 'A' <= c <= 'Z' then (c as int + 32) as char else c
  }

  /** `String.ToLower()` on ASCII letters. */
  function ToLower(s: string): (r: string)
    ensures |r| == |s|
    ensures forall i :: 0 <= i < |s| ==> r[i] == LowerChar(s[i])
  {
    seq(|s|, i requires 0 <= i < |s| => LowerChar(s[i]))
  }

  /** Case-insensitive (ordinal, ASCII) equality. */
  predicate EqualsIgnoreCase(a: string, b: string) {
    ToLower(a) == ToLower(b)
  }

  // ---------------------------------------------------------------------
  // Digits

  function Pow(base: nat, n: nat): (r: nat)
    ensures base >= 1 ==> r >= 1
  {
    if n == 0 then 1 else base * Pow(base, n - 1)
  }

  predicate IsDecDigit(c: char) { '0' <= c <= '9' }

  predicate IsHexDigit(c: char) { IsDecDigit(c) || 'a' <= c <= 'f' || 'A' <= c <= 'F' }

  /** The value of one digit; 16 for a non-digit. */
  function DigitValue(c: char): nat {
    if '0' <= c <= '9' then c as int - '0' as int
    else if 'a' <= c <= 'f' then c as int - 'a' as int + 10
    else if 'A' <= c <= 'F' then c as int - 'A' as int + 10
    else 16
  }

  predicate AllDigits(s: string, base: nat) {
    forall i :: 0 <= i < |s| ==> DigitValue(s[i]) < base
  }

  /** The value of a digit string, most significant digit first. */
  function DigitsValue(s: string, base: nat): nat
    requires AllDigits(s, base)
  {
    if s == [] then 0
    else
      var high := DigitsValue(s[..|s| - 1], base);
      MulNonNeg(high, base);
      high * base + DigitValue(s[|s| - 1])
  }

  lemma DigitsValueSnoc(s: string, c: char, base: nat)
    requires AllDigits(s + [c], base)
    ensures AllDigits(s, base)
    ensures DigitsValue(s + [c], base) == DigitsValue(s, base) * base + DigitValue(c)
  {
    assert (s + [c])[..|s|] == s;
    assert forall i :: 0 <= i < |s| ==> s[i] == (s + [c])[i];
  }

  /** The digit for `d`, upper-case letters from ten on. */
  function DigitChar(d: nat): (c: char)
    requires d < 16
    ensures DigitValue(c) == d && !IsNumberWhite(c) && c != '-' && c != '+'
  {
    if d < 10 then ('0' as int + d) as char else ('A' as int + d - 10) as char
  }

  /** `v` written with exactly `n` digits in `base` (leading zeros). */
  function FormatDigits(v: nat, base: nat, n: nat): (s: string)
    requires 2 <= base <= 16
    ensures |s| == n && AllDigits(s, base)
    ensures forall i :: 0 <= i < |s| ==> !IsNumberWhite(s[i]) && s[i] != '-' && s[i] != '+'
  {
    if n == 0 then [] else FormatDigits(v / base, base, n - 1) + [DigitChar(v % base)]
  }

  /** Reading back `n` formatted digits gives the value back. */
  lemma {:induction false} DigitsValueOfFormat(v: nat, base: nat, n: nat)
    requires 2 <= base <= 16 && v < Pow(base, n)
    ensures DigitsValue(FormatDigits(v, base, n), base) == v
    decreases n
  {
    if n > 0 {
      var q, d := DigitSplit(v, base, Pow(base, n - 1));
      var t := FormatDigits(q, base, n - 1);
      var c := DigitChar(d);
      assert FormatDigits(v, base, n) == t + [c];
      DigitsValueSnoc(t, c, base);
      DigitsValueOfFormat(q, base, n - 1);
      assert DigitsValue(t, base) * base == q * base;
    }
  }

  /** The last digit and the rest of `v` in `base`. */
  lemma DigitSplit(v: nat, base: nat, p: nat) returns (q: nat, d: nat)
    requires base >= 2 && v < base * p
    ensures q == v / base && d == v % base
    ensures q < p && d < base && v == q * base + d
  {
    q, d := v / base, v % base;
  }

  // ---------------------------------------------------------------------
  // TryParse

  /** `uint.TryParse(s, NumberStyles.HexNumber, null, out v)`: optional
      whitespace around one or more hexadecimal digits (no `0x`
      specifier and no sign), whose value must fit in 32 bits. */
  function ParseHex(s: string): (r: Option<uint32>)
    ensures r.Some? ==> exists t :: t != [] && AllDigits(t, 16) && r.value == DigitsValue(t, 16)
  {
    var t := TrimBy(s, true);
    if t != [] && AllDigits(t, 16) && DigitsValue(t, 16) < TwoTo32 then Some(DigitsValue(t, 16)) else None
  }

  /** `T.TryParse(s, out v)` for an integer type with range `lo..hi`
      (`NumberStyles.Integer`): optional whitespace around an optional
      sign and one or more decimal digits, in range. */
  function ParseInteger(s: string, lo: int, hi: int): (r: Option<int>)
    ensures r.Some? ==> lo <= r.value <= hi
  {
    var t := TrimBy(s, true);
    var signed := t != [] && (t[0] == '-' || t[0] == '+');
    var digits := if signed then t[1..] else t;
    if digits == [] || !AllDigits(digits, 10) then None
    else
      var magnitude: int := DigitsValue(digits, 10);
      var v := if signed && t[0] == '-' then -magnitude else magnitude;
      if lo <= v <= hi then Some(v) else None
  }

  function ParseInt32(s: string): Option<int32> {
    match ParseInteger(s, -0x8000_0000, 0x7FFF_FFFF)
    case Some(v) => Some(v)
    case None => None
  }

  function ParseUInt16(s: string): Option<uint16> {
    match ParseInteger(s, 0, 0xFFFF)
    case Some(v) => Some(v)
    case None => None
  }

  function ParseUInt8(s: string): Option<uint8> {
    match ParseInteger(s, 0, 0xFF)
    case Some(v) => Some(v)
    case None => None
  }

  /** `bool.TryParse`: "true" or "false" in any case, with surrounding
      whitespace. */
  function ParseBool(s: string): (r: Option<bool>)
    ensures r == Some(true) <==> EqualsIgnoreCase(Trim(s), "true")
    ensures r == Some(false) <==> EqualsIgnoreCase(Trim(s), "false")
  {
    var t := Trim(s);
    if EqualsIgnoreCase(t, "true") then Some(true)
    else if EqualsIgnoreCase(t, "false") then Some(false)
    else None
  }

  /** Every 32-bit value written as eight hexadecimal digits parses
      back to itself. */
  lemma ParseHexOfFormat(v: uint32)
    ensures ParseHex(FormatDigits(v, 16, 8)) == Some(v)
  {
    var s := FormatDigits(v, 16, 8);
    assert DigitsValue(s, 16) == v by {
      PowSixteenEight();
      DigitsValueOfFormat(v, 16, 8);
    }
    ParseHexOfDigits(s);
  }

  lemma ParseHexOfDigits(s: string)
    requires s != [] && AllDigits(s, 16) && DigitsValue(s, 16) < TwoTo32
    requires forall i :: 0 <= i < |s| ==> !IsNumberWhite(s[i])
    ensures ParseHex(s) == Some(DigitsValue(s, 16))
  {
    TrimNoWhite(s, true);
  }

  lemma PowSixteenEight()
    ensures Pow(16, 8) == TwoTo32
  {
    assert Pow(16, 2) == 0x100;
    assert Pow(16, 4) == 0x1_0000 by { assert Pow(16, 3) == 0x1000; }
    assert Pow(16, 6) == 0x100_0000 by { assert Pow(16, 5) == 0x10_0000; }
    assert Pow(16, 7) == 0x1000_0000;
  }

  /** A token that still carries its `0x` specifier never parses as a
      `HexNumber`: the `x` is not a hexadecimal digit. */
  lemma ParseHexRejectsSpecifier(s: string)
    ensures ParseHex("0x" + s) == None
  {
    var u := "0x" + s;
    TrimKeepsHead(u, true);
    var t := TrimBy(u, true);
    assert t[1] == 'x' && DigitValue(t[1]) == 16;
  }

  /** A non-negative value written in decimal parses back to itself when
      it lies in the target range. */
  lemma ParseIntegerOfFormat(v: nat, n: nat, lo: int, hi: int)
    requires n > 0 && v < Pow(10, n) && lo <= v <= hi
    ensures ParseInteger(FormatDigits(v, 10, n), lo, hi) == Some(v)
  {
    var s := FormatDigits(v, 10, n);
    TrimNoWhite(s, true);
    DigitsValueOfFormat(v, 10, n);
  }
}
