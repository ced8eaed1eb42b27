/** `System.Guid` as 32 hexadecimal digits, with the default text form
    (`ToString()`, format "D": lower-case, grouped 8-4-4-4-12) and `Guid.Parse`
    restricted to that format. How a new value is drawn (`Guid.NewGuid`) is
    randomness and is left to the caller. */
module Guid {
  import opened Outcomes

  type Nibble = n: nat | n < 16

  type Guid = d: seq<Nibble> | |d| == 32 witness seq(32, i => 0)

  const HexDigits: string := "0123456789abcdef"

  function HexDigit(n: Nibble): char {
    HexDigits[n]
  }

  function Lower(c: char): char {
    if 'A' <= c <= 'Z' then (c as int + 32) as char else c
  }

  function ParseHexDigit(c: char): (r: Option<Nibble>)
    ensures r.Some? ==> HexDigit(r.value) == Lower(c)
  {
    if '0' <= c <= '9' then Some(c as int - '0' as int)
    else if 'a' <= c <= 'f' then Some(c as int - 'a' as int + 10)
    else if 'A' <= c <= 'F' then Some(c as int - 'A' as int + 10)
    else None
  }

  lemma HexDigitParses(n: Nibble)
    ensures ParseHexDigit(HexDigit(n)) == Some(n)
  {
  }

  function Hex(ds: seq<Nibble>): (r: string)
    ensures |r| == |ds|
  {
    seq(|ds|, i requires 0 <= i < |ds| => HexDigit(ds[i]))
  }

  /** The positions of the four group separators in the text form. */
  predicate IsGroupSeparator(j: nat) {
    j == 8 || j == 13 || j == 18 || j == 23
  }

  /** Where the `i`-th digit sits in the text form. */
  function DigitPosition(i: nat): (j: nat)
    requires i < 32
    ensures j < 36 && !IsGroupSeparator(j)
  {
    if i < 8 then i else if i < 12 then i + 1 else if i < 16 then i + 2 else if i < 20 then i + 3 else i + 4
  }

  /** Which digit sits at position `j` of the text form. */
  function DigitIndex(j: nat): (i: nat)
    requires j < 36 && !IsGroupSeparator(j)
    ensures i < 32 && DigitPosition(i) == j
  {
    if j < 8 then j else if j < 13 then j - 1 else if j < 18 then j - 2 else if j < 23 then j - 3 else j - 4
  }

  /** The digits of `s` with the four group separators at 8, 13, 18 and 23 left out. */
  function Ungrouped(s: string): (r: string)
    requires |s| == 36
    ensures |r| == 32
  {
    seq(32, i requires 0 <= i < 32 => s[DigitPosition(i)])
  }

  predicate Grouped(s: string) {
    |s| == 36 && forall j :: 0 <= j < 36 && IsGroupSeparator(j) ==> s[j] == '-'
  }

  /** `Guid.ToString()`: the digits grouped 8-4-4-4-12 by hyphens. */
  function ToString(g: Guid): string {
    seq(36, j requires 0 <= j < 36 => if IsGroupSeparator(j) then '-' else HexDigit(g[DigitIndex(j)]))
  }

  /** The text of a GUID is its 32 digits in the grouped 8-4-4-4-12 layout. */
  lemma ToStringIsGrouped(g: Guid)
    ensures Grouped(ToString(g)) && Ungrouped(ToString(g)) == Hex(g)
  {
    var r := ToString(g);
    forall i | 0 <= i < 32
      ensures Ungrouped(r)[i] == Hex(g)[i]
    {
      var j := DigitPosition(i);
      assert DigitIndex(j) == i;
    }
  }

  function ParseDigits(s: string): (r: Option<seq<Nibble>>)
    ensures r.Some? ==> |r.value| == |s|
  {
    if s == [] then Some([])
    else
      match (ParseHexDigit(s[0]), ParseDigits(s[1..]))
      case (Some(d), Some(rest)) => Some([d] + rest)
      case _ => None
  }

  lemma {:induction false} ParseDigitsOfHex(ds: seq<Nibble>)
    ensures ParseDigits(Hex(ds)) == Some(ds)
  {
    if ds != [] {
      var h := Hex(ds);
      assert h[0] == HexDigit(ds[0]);
      HexDigitParses(ds[0]);
      assert h[1..] == Hex(ds[1..]);
      ParseDigitsOfHex(ds[1..]);
      assert ParseDigits(h) == Some([ds[0]] + ds[1..]);
      assert [ds[0]] + ds[1..] == ds;
    }
  }

  /** `Guid.Parse(s)` for the grouped form; null is an `ArgumentNullException`,
      any other text a `FormatException`. */
  function Parse(s: NStr): (r: Result<Guid>)
    ensures r.Err? ==> r.error == ArgumentNull || r.error == FormatError
    ensures s.Null? ==> r == Err(ArgumentNull)
  {
    if s.Null? then Err(ArgumentNull)
    else if !Grouped(s.s) then Err(FormatError)
    else
      match ParseDigits(Ungrouped(s.s))
      case Some(ds) => var g: Guid := ds; Ok(g)
      case None => Err(FormatError)
  }

  /** Writing a GUID out and parsing it back gives the same GUID. */
  lemma {:induction false} ParseToString(g: Guid)
    ensures Parse(Str(ToString(g))) == Ok(g)
  {
    ToStringIsGrouped(g);
    ParseDigitsOfHex(g);
  }

  /** Distinct GUIDs have distinct text forms. */
  lemma ToStringInjective(g: Guid, h: Guid)
    requires ToString(g) == ToString(h)
    ensures g == h
  {
    ParseToString(g);
    ParseToString(h);
  }
}
