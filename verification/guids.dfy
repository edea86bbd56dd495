/** The connection identifier, Guid.NewGuid(), and its default text form
    Guid.ToString(): 32 lower-case hexadecimal digits grouped 8-4-4-4-12 by hyphens.
    A Guid is modelled by those 32 digits in display order; the byte order .NET
    uses internally only permutes them. */
module Guids {
  import opened Outcomes

  newtype nibble = x: int | 0 <= x < 16

  datatype Guid = Guid(digits: seq<nibble>)

  type Id = g: Guid | |g.digits| == 32 witness Guid(seq(32, i => 0))

  const HexDigits: string := "0123456789abcdef"

  /** Positions of the hyphens in the 36-character text. */
  predicate IsHyphenPosition(i: int) { i == 8 || i == 13 || i == 18 || i == 23 }

  /** Index into the 32 digits of the character at text position i (not a hyphen). */
  function DigitIndex(i: nat): (k: nat)
    requires i < 36 && !IsHyphenPosition(i)
    ensures k < 32
  {
    if i < 8 then i else if i < 13 then i - 1 else if i < 18 then i - 2 else if i < 23 then i - 3 else i - 4
  }

  function HexValue(c: char): Option<nibble>
  {
    if '0' <= c <= '9' then Some((c as int - '0' as int) as nibble)
    else if 'a' <= c <= 'f' then Some((c as int - 'a' as int + 10) as nibble)
    else None
  }

  /** Guid.ToString() */
  function Text(g: Id): (t: string)
    ensures |t| == 36
    ensures forall i :: 0 <= i < 36 ==> t[i] != '|'
  {
    seq(36, i requires 0 <= i < 36 =>
      if IsHyphenPosition(i) then '-' else HexDigits[g.digits[DigitIndex(i)]])
  }

  /** The inverse of Text: reads a Guid back from its 36-character form. */
  function Parse(t: string): (r: Option<Id>)
  {
    if |t| != 36 then None
    else if exists i :: 0 <= i < 36 && IsHyphenPosition(i) && t[i] != '-' then None
    else if exists i :: 0 <= i < 36 && !IsHyphenPosition(i) && HexValue(t[i]).None? then None
    else Some(Guid(seq(32, k requires 0 <= k < 32 => HexValue(t[TextIndex(k)]).value)))
  }

  /** Text position of digit k: the inverse of DigitIndex. */
  function TextIndex(k: nat): (i: nat)
    requires k < 32
    ensures i < 36 && !IsHyphenPosition(i) && DigitIndex(i) == k
  {
    if k < 8 then k else if k < 12 then k + 1 else if k < 16 then k + 2 else if k < 20 then k + 3 else k + 4
  }

  lemma HexValueOfDigit(d: nibble)
    ensures HexValue(HexDigits[d]) == Some(d)
  {
  }

  /** Reading back the text of a Guid gives the Guid. */
  lemma ParseText(g: Id)
    ensures Parse(Text(g)) == Some(g)
  {
    var t := Text(g);
    forall i | 0 <= i < 36 && !IsHyphenPosition(i)
      ensures HexValue(t[i]) == Some(g.digits[DigitIndex(i)])
    {
      HexValueOfDigit(g.digits[DigitIndex(i)]);
    }
    var r := Parse(t);
    assert r.Some?;
    assert r.value.digits == g.digits;
  }

  lemma DigitOfHexValue(c: char)
    requires HexValue(c).Some?
    ensures HexDigits[HexValue(c).value] == c
  {
  }

  /** Every text Parse accepts is the text of the Guid it returns. */
  lemma TextOfParse(t: string)
    requires Parse(t).Some?
    ensures Text(Parse(t).value) == t
  {
    var g := Parse(t).value;
    forall i | 0 <= i < 36
      ensures Text(g)[i] == t[i]
    {
      if !IsHyphenPosition(i) {
        DigitOfHexValue(t[i]);
        assert TextIndex(DigitIndex(i)) == i;
      }
    }
  }

  /** Distinct connections have distinct identifiers in every relayed message. */
  lemma TextInjective(g: Id, h: Id)
    requires Text(g) == Text(h)
    ensures g == h
  {
    ParseText(g);
    ParseText(h);
  }
}
