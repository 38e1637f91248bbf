/**
 * What the HTTP middlewares see of a request: query and body values, the
 * number parsing they rely on, and the verdict a validator reaches.
 */
module Requests {
  import opened Wrappers
  import opened Strings

  /** A query or body value: the text Express delivers, or a number a middleware stored. */
  datatype QueryValue = Text(s: string) | Num(n: int)

  /** A validator either passes the request on, or answers 400 with its message (None: the schema's own messages). */
  datatype Verdict = Next | Rejected(message: Option<string>) | Failed

  predicate IsSpace(c: char) {
    c == ' ' || c == '\t' || c == '\n' || c == '\r'
  }

  function TrimStart(s: string): (r: string)
    ensures |r| <= |s| && r == s[|s| - |r|..]
    ensures |r| > 0 ==> !IsSpace(r[0])
  {
    if |s| > 0 && IsSpace(s[0]) then TrimStart(s[1..]) else s
  }

  /** The longest prefix of decimal digits. */
  function LeadingDigits(s: string): (d: string)
    ensures AllDigits(d) && |d| <= |s| && d == s[..|d|]
    ensures |d| < |s| ==> !IsDigit(s[|d|])
  {
    if |s| > 0 && IsDigit(s[0]) then [s[0]] + LeadingDigits(s[1..]) else []
  }

  /** `Number.parseInt(s, 10)`: leading blanks, a sign, then the digits that follow; None stands for NaN. */
  function ParseIntText(s: string): Option<int> {
    var u := TrimStart(s);
    var negative := |u| > 0 && u[0] == '-';
    var rest := if |u| > 0 && (u[0] == '-' || u[0] == '+') then u[1..] else u;
    var d := LeadingDigits(rest);
    if |d| == 0 then None
    else if negative then Some(-(StringToNat(d) as int))
    else Some(StringToNat(d))
  }

  /** Parsing reads back the decimal rendering of a number. */
  lemma ParseIntRoundTrip(n: nat)
    ensures ParseIntText(NatToString(n)) == Some(n)
  {
    ParseDigits(NatToString(n));
    NatToStringRoundTrip(n);
  }

  /** A text made only of digits parses to the number it denotes. */
  lemma ParseDigits(s: string)
    requires |s| > 0 && AllDigits(s)
    ensures ParseIntText(s) == Some(StringToNat(s) as int)
  {
    assert IsDigit(s[0]);
    assert TrimStart(s) == s by {
      assert !IsSpace(s[0]);
    }
    assert s[0] != '-' && s[0] != '+';
    assert LeadingDigits(s) == s by {
      LeadingDigitsOfDigits(s);
    }
  }

  lemma {:induction false} LeadingDigitsOfDigits(s: string)
    requires AllDigits(s)
    ensures LeadingDigits(s) == s
  {
    if |s| > 0 {
      LeadingDigitsOfDigits(s[1..]);
    }
  }

  /** `parseInt` of an absent value, of a text, or of a number already stored. */
  function ParseIntValue(v: Option<QueryValue>): Option<int> {
    match v
    case None => None
    case Some(Num(n)) => Some(n)
    case Some(Text(s)) => ParseIntText(s)
  }

  /** A number in decimal, with a leading `-` when negative. */
  function IntToString(n: int): string {
    if n < 0 then "-" + NatToString(-n) else NatToString(n)
  }

  /** The text with every blank removed, the first step of Yup's number cast. */
  function RemoveSpaces(s: string): (r: string)
    ensures |r| <= |s|
    ensures forall i :: 0 <= i < |r| ==> !IsSpace(r[i])
    ensures (forall i :: 0 <= i < |s| ==> !IsSpace(s[i])) ==> r == s
  {
    if |s| == 0 then []
    else if IsSpace(s[0]) then RemoveSpaces(s[1..])
    else [s[0]] + RemoveSpaces(s[1..])
  }

  /**
   * A value the schemas accept as a number: a stored number, or a text that,
   * once its blanks are removed, is decimal digits after an optional `+` or `-`.
   */
  function NumberValue(v: QueryValue): Option<int> {
    match v
    case Num(n) => Some(n)
    case Text(s) =>
      var u := RemoveSpaces(s);
      var negative := |u| > 0 && u[0] == '-';
      var digits := if |u| > 0 && (u[0] == '-' || u[0] == '+') then u[1..] else u;
      if |digits| > 0 && AllDigits(digits) then
        if negative then Some(-(StringToNat(digits) as int)) else Some(StringToNat(digits))
      else None
  }

  /** The decimal text of a number is accepted as that number. */
  lemma NumberValueRoundTrip(n: int)
    ensures NumberValue(Text(IntToString(n))) == Some(n)
  {
    var m: nat := if n < 0 then -n else n;
    var d := NatToString(m);
    NatToStringRoundTrip(m);
    assert |d| > 0 && AllDigits(d) && !IsDigit('-');
    assert IsDigit(d[0]);
    if n < 0 {
      assert RemoveSpaces("-" + d) == "-" + d by {
        assert forall i :: 0 <= i < |"-" + d| ==> !IsSpace(("-" + d)[i]) by {
          forall i | 0 <= i < |"-" + d|
            ensures !IsSpace(("-" + d)[i])
          {
            if i > 0 {
              assert ("-" + d)[i] == d[i - 1] && IsDigit(d[i - 1]);
            }
          }
        }
      }
      assert ("-" + d)[1..] == d;
    } else {
      assert RemoveSpaces(d) == d by {
        assert forall i :: 0 <= i < |d| ==> IsDigit(d[i]);
      }
    }
  }

  /** Blanks anywhere and a leading `+` do not change the number. */
  lemma NumberValueIgnoresBlanksAndPlus(n: nat)
    ensures NumberValue(Text(" +" + NatToString(n) + " ")) == Some(n)
  {
    var d := NatToString(n);
    NatToStringRoundTrip(n);
    assert RemoveSpaces(" +" + d + " ") == "+" + d by {
      var s := " +" + d + " ";
      assert s == [' '] + ("+" + d + " ");
      assert RemoveSpaces(s) == RemoveSpaces("+" + d + " ");
      assert "+" + d + " " == ['+'] + (d + " ");
      RemoveSpacesOfDigitsThenBlank(d);
    }
    assert ("+" + d)[1..] == d;
  }

  lemma {:induction false} RemoveSpacesOfDigitsThenBlank(d: string)
    requires AllDigits(d)
    ensures RemoveSpaces(d + " ") == d
  {
    if |d| > 0 {
      assert IsDigit(d[0]) && !IsSpace(d[0]);
      assert (d + " ")[1..] == d[1..] + " ";
      RemoveSpacesOfDigitsThenBlank(d[1..]);
      assert d == [d[0]] + d[1..];
    } else {
      assert d + " " == [' '];
      assert RemoveSpaces([' '][1..]) == [];
    }
  }

  /** A value the schemas accept as a string; a number is read as its decimal text. */
  function StringValue(v: QueryValue): string {
    match v
    case Text(s) => s
    case Num(n) => IntToString(n)
  }
}
