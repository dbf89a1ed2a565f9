/** The guard on a profile edit (backend/src/auth/guards/profile-owner.guard.ts): the signed-in
    user's id must equal `parseInt(body.id)`.

    `parseInt` with no radix converts its argument to text, skips leading white space, reads an
    optional sign, switches to base 16 after a `0x` or `0X` prefix, and reads the longest run of
    digits of the base; with no digit the result is NaN, here None. */
module OwnerGuard {
  import opened Common

  /** The value of c as a digit of the radix (10 or 16), None when c is not one. */
  function DigitValue(c: char, radix: nat): (d: Option<nat>)
    ensures d.Some? ==> d.value < radix
  {
    if '0' <= c <= '9' && (c as int - '0' as int) < radix then Some(c as int - '0' as int)
    else if radix == 16 && 'a' <= c <= 'f' then Some(c as int - 'a' as int + 10)
    else if radix == 16 && 'A' <= c <= 'F' then Some(c as int - 'A' as int + 10)
    else None
  }

  predicate IsDigitIn(c: char, radix: nat) {
    DigitValue(c, radix).Some?
  }

  /** The longest prefix of s made of digits of the radix. */
  function LeadingDigits(s: string, radix: nat): (d: string)
    ensures |d| <= |s| && d == s[..|d|]
    ensures forall i :: 0 <= i < |d| ==> IsDigitIn(d[i], radix)
    ensures |d| < |s| ==> !IsDigitIn(s[|d|], radix)
  {
    if s == [] || !IsDigitIn(s[0], radix) then []
    else
      var rest := LeadingDigits(s[1..], radix);
      assert [s[0]] + rest == s[..|rest| + 1];
      [s[0]] + rest
  }

  /** The number a run of digits denotes. */
  function Numeral(d: string, radix: nat): nat
    requires forall i :: 0 <= i < |d| ==> IsDigitIn(d[i], radix)
  {
    if d == [] then 0
    else
      var init := d[..|d| - 1];
      DigitsOfInit(d, init, radix);
      var high := Numeral(init, radix);
      var low := DigitValue(d[|d| - 1], radix).value;
      high * radix + low
  }

  lemma DigitsOfInit(d: string, init: string, radix: nat)
    requires d != [] && init == d[..|d| - 1]
    requires forall i :: 0 <= i < |d| ==> IsDigitIn(d[i], radix)
    ensures forall i :: 0 <= i < |init| ==> IsDigitIn(init[i], radix)
    ensures IsDigitIn(d[|d| - 1], radix)
  {
    assert forall i :: 0 <= i < |init| ==> init[i] == d[i];
  }

  /** The digits after the sign: base 16 after a `0x` or `0X` prefix, base 10 otherwise. */
  predicate HasHexPrefix(u: string) {
    |u| >= 2 && u[0] == '0' && (u[1] == 'x' || u[1] == 'X')
  }

  function ParseUnsigned(u: string): Option<nat> {
    var hex := HasHexPrefix(u);
    var radix := if hex then 16 else 10;
    var digits := LeadingDigits(if hex then u[2..] else u, radix);
    if digits == [] then None else Some(Numeral(digits, radix))
  }

  /** `parseInt(text)`. */
  function ParseInt(text: string): Option<int> {
    ParseTrimmed(TrimStart(text))
  }

  /** parseInt once the leading white space is gone: an optional sign, then the digits. */
  function ParseTrimmed(t: string): Option<int> {
    var signed := |t| > 0 && (t[0] == '-' || t[0] == '+');
    match ParseUnsigned(if signed then t[1..] else t)
    case None => None
    case Some(n) => Some(if signed && t[0] == '-' then 0 - n as int else n as int)
  }

  lemma LeadingDigitsOfNumeral(s: string)
    requires forall i :: 0 <= i < |s| ==> IsDigit(s[i])
    ensures LeadingDigits(s, 10) == s
  {
  }

  lemma {:induction false} NumeralOfNatToString(n: nat)
    ensures forall i :: 0 <= i < |NatToString(n)| ==> IsDigitIn(NatToString(n)[i], 10)
    ensures Numeral(NatToString(n), 10) == n
  {
    var s := NatToString(n);
    assert forall i :: 0 <= i < |s| ==> IsDigitIn(s[i], 10) by {
      forall i | 0 <= i < |s| ensures IsDigitIn(s[i], 10) {
        assert IsDigit(s[i]);
      }
    }
    if n >= 10 {
      NumeralOfNatToString(n / 10);
      assert s[..|s| - 1] == NatToString(n / 10);
    }
  }

  lemma ParseUnsignedOfNat(n: nat)
    ensures ParseUnsigned(NatToString(n)) == Some(n)
  {
    var s := NatToString(n);
    NumeralOfNatToString(n);
    LeadingDigitsOfNumeral(s);
    assert !HasHexPrefix(s) by {
      if |s| >= 2 {
        assert IsDigit(s[1]);
      }
    }
    assert LeadingDigits(s, 10) == s;
  }

  lemma ParseTrimmedOfNegative(n: nat)
    requires n > 0
    ensures ParseTrimmed("-" + NatToString(n)) == Some(0 - n)
  {
    var text := "-" + NatToString(n);
    ParseUnsignedOfNat(n);
    assert text[0] == '-';
    assert text[1..] == NatToString(n);
  }

  lemma ParseTrimmedOfNatural(n: nat)
    ensures ParseTrimmed(NatToString(n)) == Some(n)
  {
    var text := NatToString(n);
    ParseUnsignedOfNat(n);
    assert IsDigit(text[0]);
  }

  lemma ParseTrimmedOfInt(n: int)
    ensures ParseTrimmed(IntToString(n)) == Some(n)
  {
    if n < 0 {
      ParseTrimmedOfNegative(-n);
    } else {
      ParseTrimmedOfNatural(n);
    }
  }

  /** `String(n)` starts with a sign or a digit, never with white space. */
  lemma TrimStartOfIntToString(n: int)
    ensures TrimStart(IntToString(n)) == IntToString(n)
  {
    var text := IntToString(n);
    if n >= 0 {
      assert IsDigit(text[0]);
    }
  }

  /** parseInt gives back any integer written out by `String`. */
  lemma ParseIntOfNumber(n: int)
    ensures ParseInt(ToText(JsNumber(n))) == Some(n)
  {
    assert ToText(JsNumber(n)) == IntToString(n);
    TrimStartOfIntToString(n);
    ParseTrimmedOfInt(n);
  }

  /** canActivate. `user?.id` is the authenticated user's id, absent without one. */
  function CanActivate(userId: Option<int>, bodyId: JsValue): (allowed: bool)
    ensures allowed <==> userId.Some? && userId.value != 0 && ParseInt(ToText(bodyId)) == Some(userId.value)
  {
    var profileId := ParseInt(ToText(bodyId));
    if userId.None? || userId.value == 0 || profileId.None? || profileId.value == 0 then false
    else userId.value == profileId.value
  }

  /** With a numeric body id the guard allows exactly the non-zero id of the signed-in user. */
  lemma NumericIdOwnerOnly(userId: Option<int>, id: int)
    ensures CanActivate(userId, JsNumber(id)) <==> userId == Some(id) && id != 0
  {
    ParseIntOfNumber(id);
  }

  /** A run of digits followed by a character that is not one is the run's leading digits. */
  lemma LeadingDigitsOfRun(d: string, tail: string, radix: nat)
    requires forall i :: 0 <= i < |d| ==> IsDigitIn(d[i], radix)
    requires tail == [] || !IsDigitIn(tail[0], radix)
    ensures LeadingDigits(d + tail, radix) == d
  {
    var s := d + tail;
    var r := LeadingDigits(s, radix);
    assert r == s[..|d|] == d;
  }

  /** A decimal numeral that is not followed by an `x` or `X` puts no hexadecimal prefix in front. */
  lemma NoHexPrefix(d: string, tail: string)
    requires d != [] && forall i :: 0 <= i < |d| ==> IsDigit(d[i])
    requires tail == [] || (!IsDigit(tail[0]) && tail[0] != 'x' && tail[0] != 'X')
    ensures !HasHexPrefix(d + tail)
  {
    var t := d + tail;
    if |t| >= 2 {
      if |d| >= 2 {
        assert t[1] == d[1];
      } else {
        assert t[1] == tail[0];
      }
    }
  }

  /** The digits of a decimal numeral read in base 10, whatever follows them. */
  lemma ParseUnsignedOfDecimalPrefix(d: string, tail: string)
    requires d != [] && forall i :: 0 <= i < |d| ==> IsDigit(d[i])
    requires tail == [] || (!IsDigit(tail[0]) && tail[0] != 'x' && tail[0] != 'X')
    ensures forall i :: 0 <= i < |d| ==> IsDigitIn(d[i], 10)
    ensures ParseUnsigned(d + tail) == Some(Numeral(d, 10))
  {
    NoHexPrefix(d, tail);
    LeadingDigitsOfRun(d, tail, 10);
  }

  /** Text that starts with neither white space nor a sign is read as it stands. */
  lemma ParseIntOfUnsignedText(t: string)
    requires t != [] && !IsWhitespace(t[0]) && t[0] != '-' && t[0] != '+'
    ensures ParseUnsigned(t).None? ==> ParseInt(t).None?
    ensures ParseUnsigned(t).Some? ==> ParseInt(t) == Some(ParseUnsigned(t).value as int)
  {
    assert TrimStart(t) == t;
  }

  /** parseInt reads a decimal numeral and ignores whatever follows it. */
  lemma ParseIntOfDecimalPrefix(d: string, tail: string)
    requires d != [] && forall i :: 0 <= i < |d| ==> IsDigit(d[i])
    requires tail == [] || (!IsDigit(tail[0]) && tail[0] != 'x' && tail[0] != 'X')
    ensures forall i :: 0 <= i < |d| ==> IsDigitIn(d[i], 10)
    ensures ParseInt(d + tail) == Some(Numeral(d, 10))
  {
    ParseUnsignedOfDecimalPrefix(d, tail);
    var t := d + tail;
    assert t[0] == d[0] && IsDigit(t[0]);
    ParseIntOfUnsignedText(t);
    assert ParseUnsigned(t) == Some(Numeral(d, 10));
  }

  /** parseInt is lenient: an id with trailing text passes for the user whose id it starts with. */
  lemma TrailingTextIgnored(userId: int, d: string, tail: string)
    requires d != [] && forall i :: 0 <= i < |d| ==> IsDigit(d[i])
    requires tail == [] || (!IsDigit(tail[0]) && tail[0] != 'x' && tail[0] != 'X')
    requires userId != 0 && forall i :: 0 <= i < |d| ==> IsDigitIn(d[i], 10)
    requires Numeral(d, 10) == userId
    ensures CanActivate(Some(userId), JsString(d + tail))
  {
    ParseIntOfDecimalPrefix(d, tail);
    assert ToText(JsString(d + tail)) == d + tail;
  }

  /** Leading white space is skipped. */
  lemma {:induction false} ParseIntSkipsSpace(ws: string, u: string)
    requires forall i :: 0 <= i < |ws| ==> IsWhitespace(ws[i])
    ensures ParseInt(ws + u) == ParseInt(u)
  {
    TrimStartSkipsSpace(ws, u);
  }

  lemma {:induction false} TrimStartSkipsSpace(ws: string, u: string)
    requires forall i :: 0 <= i < |ws| ==> IsWhitespace(ws[i])
    ensures TrimStart(ws + u) == TrimStart(u)
  {
    if ws == [] {
      assert ws + u == u;
    } else {
      assert (ws + u)[0] == ws[0];
      assert (ws + u)[1..] == ws[1..] + u;
      TrimStartSkipsSpace(ws[1..], u);
    }
  }

  /** A `0x` or `0X` prefix switches to base 16. */
  lemma ParseUnsignedOfHex(x: char, h: string, tail: string)
    requires x == 'x' || x == 'X'
    requires h != [] && forall i :: 0 <= i < |h| ==> IsDigitIn(h[i], 16)
    requires tail == [] || !IsDigitIn(tail[0], 16)
    ensures ParseUnsigned(['0', x] + (h + tail)) == Some(Numeral(h, 16))
  {
    var r := h + tail;
    var u := ['0', x] + r;
    assert HasHexPrefix(u);
    assert u[2..] == r;
    LeadingDigitsOfRun(h, tail, 16);
  }

  /** parseInt reads a hexadecimal numeral after white space and ignores whatever follows it. */
  lemma ParseIntOfHex(ws: string, x: char, h: string, tail: string)
    requires forall i :: 0 <= i < |ws| ==> IsWhitespace(ws[i])
    requires x == 'x' || x == 'X'
    requires h != [] && forall i :: 0 <= i < |h| ==> IsDigitIn(h[i], 16)
    requires tail == [] || !IsDigitIn(tail[0], 16)
    ensures ParseInt(ws + (['0', x] + (h + tail))) == Some(Numeral(h, 16))
  {
    var u := ['0', x] + (h + tail);
    ParseUnsignedOfHex(x, h, tail);
    ParseIntOfUnsignedText(u);
    ParseIntSkipsSpace(ws, u);
  }

  /** An id written in hexadecimal after white space passes too. */
  lemma HexadecimalAccepted(userId: int, ws: string, x: char, h: string, tail: string)
    requires forall i :: 0 <= i < |ws| ==> IsWhitespace(ws[i])
    requires x == 'x' || x == 'X'
    requires h != [] && forall i :: 0 <= i < |h| ==> IsDigitIn(h[i], 16)
    requires tail == [] || !IsDigitIn(tail[0], 16)
    requires userId != 0 && Numeral(h, 16) == userId
    ensures CanActivate(Some(userId), JsString(ws + (['0', x] + (h + tail))))
  {
    ParseIntOfHex(ws, x, h, tail);
  }

  /** Text whose first character is neither white space, a sign nor a digit is NaN and denied. */
  lemma LeadingTextDenied(userId: Option<int>, t: string)
    requires t != [] && !IsWhitespace(t[0]) && t[0] != '-' && t[0] != '+' && !IsDigit(t[0])
    ensures ParseInt(t) == None
    ensures !CanActivate(userId, JsString(t))
  {
    ParseIntOfUnsignedText(t);
    assert LeadingDigits(t, 10) == [];
    assert ToText(JsString(t)) == t;
  }
}
