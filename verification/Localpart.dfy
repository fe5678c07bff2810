/**
 * `email_to_localpart` (src/ghost.rs): the Matrix localpart of the ghost that
 * stands for an address. The address arrives here in lower case already.
 */
module Localpart {
  import opened Wrappers

  /** Characters that stand for themselves. */
  predicate IsSafe(c: char) {
    'a' <= c <= 'z' || '0' <= c <= '9' || c == '.' || c == '_' || c == '-'
  }

  predicate IsHex(c: char) {
    '0' <= c <= '9' || 'a' <= c <= 'f'
  }

  function Digit(d: nat): (c: char)
    requires d < 16
    ensures IsHex(c)
  {
    if d < 10 then '0' + d as char else 'a' + (d - 10) as char
  }

  /** `{:x}` */
  function Hex(n: nat): (h: string)
    ensures h != "" && forall i | 0 <= i < |h| :: IsHex(h[i])
  {
    if n < 16 then [Digit(n)] else Hex(n / 16) + [Digit(n % 16)]
  }

  /** `{:02x}` */
  function Hex2(n: nat): (h: string)
    ensures |h| >= 2 && forall i | 0 <= i < |h| :: IsHex(h[i])
  {
    if n < 16 then "0" + Hex(n) else Hex(n)
  }

  function Escape(c: char): (e: string) {
    if IsSafe(c) then [c] else "=" + Hex2(c as nat)
  }

  function Encode(s: string): string {
    if s == "" then "" else Escape(s[0]) + Encode(s[1..])
  }

  const PREFIX := "_jmap_"

  function Localpart(lower: string): string {
    PREFIX + Encode(lower)
  }

  method EmailToLocalpart(lower: string) returns (localpart: string)
    ensures localpart == Localpart(lower)
  {
    hide Escape;
    localpart := PREFIX;
    var i := 0;
    while i < |lower|
      invariant 0 <= i <= |lower| && Localpart(lower) == localpart + Encode(lower[i..])
    {
      assert lower[i..][1..] == lower[i + 1..];
      localpart := localpart + Escape(lower[i]);
      i := i + 1;
    }
    assert lower[i..] == "";
  }

  // ----- The alphabet -------------------------------------------------------------------

  /** Characters the user identifier grammar of the Matrix specification allows; `/` and `+` are not used. */
  predicate IsUserIdChar(c: char) {
    IsSafe(c) || c == '='
  }

  lemma {:induction false} LocalpartIsUserId(lower: string)
    ensures forall i | 0 <= i < |Localpart(lower)| :: IsUserIdChar(Localpart(lower)[i])
  {
    EncodeIsUserId(lower);
  }

  lemma {:induction false} EncodeIsUserId(s: string)
    ensures forall i | 0 <= i < |Encode(s)| :: IsUserIdChar(Encode(s)[i])
  {
    if s != "" { EncodeIsUserId(s[1..]); }
  }

  // ----- Injectivity --------------------------------------------------------------------

  /** Below U+0100 every escape has exactly two digits, and they give the code point back. */
  lemma TwoDigits(n: nat)
    ensures n < 0x100 ==> Hex2(n) == [Digit(n / 16), Digit(n % 16)]
    ensures n >= 0x100 ==> |Hex2(n)| > 2
  {
    if 16 <= n < 0x100 {
      assert Hex(n / 16) == [Digit(n / 16)];
    } else if n >= 0x100 {
      assert |Hex(n / 16)| == |Hex(n / 16 / 16)| + 1;
    }
  }

  ghost predicate IsLatin1(s: string) {
    forall i | 0 <= i < |s| :: s[i] < '\U{100}'
  }

  lemma DigitsDiffer(a: nat, b: nat)
    requires a < 16 && b < 16 && Digit(a) == Digit(b)
    ensures a == b
  {
  }

  /** The first escape of an encoding shows the character it came from. */
  lemma EscapesDiffer(c: char, d: char, x: string, y: string)
    requires c < '\U{100}' && d < '\U{100}' && Escape(c) + x == Escape(d) + y
    ensures c == d && x == y
  {
    var s := Escape(c) + x;
    assert s[0] == Escape(c)[0] == Escape(d)[0];
    if !IsSafe(c) {
      TwoDigits(c as nat);
      TwoDigits(d as nat);
      assert s[1] == Escape(c)[1] == Escape(d)[1] && s[2] == Escape(c)[2] == Escape(d)[2];
      DigitsDiffer(c as nat / 16, d as nat / 16);
      DigitsDiffer(c as nat % 16, d as nat % 16);
    }
    assert Escape(c) == Escape(d);
    assert x == s[|Escape(c)|..] == y;
  }

  /** Below U+0100 two addresses share a localpart only if their lower-case forms are the same. */
  lemma {:induction false} LocalpartsAreInjective(a: string, b: string)
    requires IsLatin1(a) && IsLatin1(b)
    ensures Localpart(a) == Localpart(b) <==> a == b
  {
    if Localpart(a) == Localpart(b) {
      assert Localpart(a)[|PREFIX|..] == Encode(a) && Localpart(b)[|PREFIX|..] == Encode(b);
      EncodeIsInjective(a, b);
    }
  }

  lemma {:induction false} EncodeIsInjective(a: string, b: string)
    requires IsLatin1(a) && IsLatin1(b) && Encode(a) == Encode(b)
    ensures a == b
  {
    hide Escape;
    EscapeIsVisible(a);
    EscapeIsVisible(b);
    if a != "" && b != "" {
      EscapesDiffer(a[0], b[0], Encode(a[1..]), Encode(b[1..]));
      EncodeIsInjective(a[1..], b[1..]);
      assert a == [a[0]] + a[1..] && b == [b[0]] + b[1..];
    }
  }

  lemma EscapeIsVisible(s: string)
    ensures s != "" ==> Encode(s) != ""
  {
  }

  // ----- Where escapes run into what follows them ------------------------------------------

  predicate IsControl(c: char) {
    c < ' ' || '\U{7F}' <= c <= '\U{9F}'
  }

  /** The escapes of U+0100 to U+01FF have three digits and the first is 1, which no other printable character has. */
  lemma ThreeDigits(n: nat)
    requires 0x100 <= n < 0x1000
    ensures Hex2(n) == [Digit(n / 256), Digit(n / 16 % 16), Digit(n % 16)]
  {
    assert Hex(n / 16) == Hex(n / 16 / 16) + [Digit(n / 16 % 16)];
    assert Hex(n / 16 / 16) == [Digit(n / 256)];
  }

  lemma {:induction false} EncodeConcat(a: string, b: string)
    ensures Encode(a + b) == Encode(a) + Encode(b)
  {
    hide Escape;
    if a == "" {
      assert a + b == b;
    } else {
      assert (a + b)[1..] == a[1..] + b;
      EncodeConcat(a[1..], b);
    }
  }

  /** Anywhere in an address, an escape of three digits is that of the character with the first two, and a digit. */
  lemma WideEscapeCollides(a: string, c: char, b: string)
    requires '\U{200}' <= c < '\U{1000}' && !IsSafe((c as nat / 16) as char)
    ensures Localpart(a + [c] + b) == Localpart(a + [(c as nat / 16) as char, Digit(c as nat % 16)] + b)
  {
    var n := c as nat;
    var narrow := [(n / 16) as char, Digit(n % 16)];
    EncodeConcat(a + [c], b);
    EncodeConcat(a, [c]);
    EncodeConcat(a + narrow, b);
    EncodeConcat(a, narrow);
    ThreeDigits(n);
    TwoDigits(n / 16);
    assert [c][1..] == "" && narrow[1..] == [Digit(n % 16)] && narrow[1..][1..] == "";
    assert Encode([c]) == Escape(c) + "" == "=" + Hex2(n);
    assert Encode([Digit(n % 16)]) == [Digit(n % 16)] + "";
    assert Encode(narrow) == ("=" + Hex2(n / 16)) + ([Digit(n % 16)] + "");
    assert Encode([c]) == Encode(narrow);
  }

  /** A modifier letter and plus-addressing give two addresses one ghost. */
  lemma PlusAddressCollides()
    ensures Localpart("a\U{2B0}@x") == Localpart("a+0@x")
  {
    WideEscapeCollides("a", '\U{2B0}', "@x");
    assert "a" + ['\U{2B0}'] + "@x" == "a\U{2B0}@x" && "a" + ['+', '0'] + "@x" == "a+0@x";
  }

  /**
   * What the bridge can be given: an address with an `@`, no control character, and
   * nothing lower-casing would change.
   */
  ghost predicate IsAddress(s: string, isLower: char -> bool, limit: char) {
    '@' in s && forall i | 0 <= i < |s| :: !IsControl(s[i]) && isLower(s[i]) && s[i] < limit
  }

  ghost predicate InjectiveBelow(isLower: char -> bool, limit: char) {
    forall a: string, b: string |
      IsAddress(a, isLower, limit) && IsAddress(b, isLower, limit) && Localpart(a) == Localpart(b) :: a == b
  }

  /** The characters below U+0200 that are no controls; their escapes can be told apart. */
  ghost predicate IsPlain(s: string) {
    forall i | 0 <= i < |s| :: ' ' <= s[i] < '\U{200}'
  }

  lemma PlainEscapesDiffer(c: char, d: char, x: string, y: string)
    requires ' ' <= c < '\U{200}' && ' ' <= d < '\U{200}' && Escape(c) + x == Escape(d) + y
    ensures c == d && x == y
  {
    var s := Escape(c) + x;
    assert s[0] == Escape(c)[0] == Escape(d)[0];
    if !IsSafe(c) {
      EscapeDigits(c);
      EscapeDigits(d);
      assert s[1] == Escape(c)[1] == Escape(d)[1] && s[2] == Escape(c)[2] == Escape(d)[2];
      DigitsDiffer(FirstDigit(c), FirstDigit(d));
      assert c < '\U{100}' <==> d < '\U{100}';
      if c < '\U{100}' {
        DigitsDiffer(c as nat % 16, d as nat % 16);
      } else {
        WideEscapesDiffer(c, d, x, y);
      }
    }
    assert Escape(c) == Escape(d);
    assert x == s[|Escape(c)|..] == y;
  }

  /** The first digit of an escape: 1 for the wide ones, which no narrow one of a printable character has. */
  function FirstDigit(c: char): nat {
    if c < '\U{100}' then c as nat / 16 else 1
  }

  lemma WideEscapesDiffer(c: char, d: char, x: string, y: string)
    requires '\U{100}' <= c < '\U{200}' && '\U{100}' <= d < '\U{200}' && Escape(c) + x == Escape(d) + y
    ensures c == d
  {
    var s := Escape(c) + x;
    EscapeDigits(c);
    EscapeDigits(d);
    assert s[2] == Escape(c)[2] == Escape(d)[2] && s[3] == Escape(c)[3] == Escape(d)[3];
    DigitsDiffer(c as nat / 16 % 16, d as nat / 16 % 16);
    DigitsDiffer(c as nat % 16, d as nat % 16);
  }

  lemma EscapeDigits(c: char)
    requires ' ' <= c < '\U{200}' && !IsSafe(c)
    ensures Escape(c) == if c < '\U{100}' then ['=', Digit(c as nat / 16), Digit(c as nat % 16)]
      else ['=', Digit(1), Digit(c as nat / 16 % 16), Digit(c as nat % 16)]
  {
    if c < '\U{100}' { TwoDigits(c as nat); } else { ThreeDigits(c as nat); }
  }

  lemma {:induction false} PlainEncodeIsInjective(a: string, b: string)
    requires IsPlain(a) && IsPlain(b) && Encode(a) == Encode(b)
    ensures a == b
  {
    hide Escape;
    EscapeIsVisible(a);
    EscapeIsVisible(b);
    if a != "" && b != "" {
      PlainEscapesDiffer(a[0], b[0], Encode(a[1..]), Encode(b[1..]));
      PlainEncodeIsInjective(a[1..], b[1..]);
      assert a == [a[0]] + a[1..] && b == [b[0]] + b[1..];
    }
  }

  /**
   * Over the addresses the bridge can be given, localparts tell all those below a
   * limit apart if and only if the limit is at most U+0201, the first lower-case
   * letter whose escape runs into what follows. Of lower-casing only this is used:
   * U+0200 is upper case; U+0201, the space, `1` and `@` are not.
   */
  lemma AddressesDifferExactlyBelow201(isLower: char -> bool, limit: char)
    requires !isLower('\U{200}') && isLower('\U{201}') && isLower(' ') && isLower('1') && isLower('@')
    ensures InjectiveBelow(isLower, limit) <==> limit <= '\U{201}'
  {
    hide Localpart;
    if limit <= '\U{201}' {
      forall a: string, b: string | IsAddress(a, isLower, limit) && IsAddress(b, isLower, limit) &&
        Localpart(a) == Localpart(b)
        ensures a == b
      {
        BelowIsPlain(a, isLower, limit);
        BelowIsPlain(b, isLower, limit);
        LocalpartEncodes(a, b);
        PlainEncodeIsInjective(a, b);
      }
    } else {
      WideEscapeCollides("@", '\U{201}', "");
      var wide, narrow := "@" + ['\U{201}'] + "", "@" + [' ', '1'] + "";
      assert wide[0] == '@' && narrow[0] == '@' && |wide| != |narrow|;
      assert IsAddress(wide, isLower, limit) && IsAddress(narrow, isLower, limit);
    }
  }

  lemma BelowIsPlain(s: string, isLower: char -> bool, limit: char)
    requires IsAddress(s, isLower, limit) && limit <= '\U{201}' && !isLower('\U{200}')
    ensures IsPlain(s)
  {
    forall i | 0 <= i < |s| ensures s[i] < '\U{200}' { assert s[i] != '\U{200}'; }
  }

  lemma LocalpartEncodes(a: string, b: string)
    ensures Localpart(a) == Localpart(b) ==> Encode(a) == Encode(b)
  {
    assert Localpart(a)[|PREFIX|..] == Encode(a) && Localpart(b)[|PREFIX|..] == Encode(b);
  }

  // ----- The bot ----------------------------------------------------------------------------

  const BOT := "_jmap_bot"

  lemma {:induction false} EscapedCharIsThere(s: string, i: nat)
    requires i < |s| && !IsSafe(s[i])
    ensures '=' in Encode(s)
  {
    if i == 0 {
      assert (Escape(s[0]) + Encode(s[1..]))[0] == '=';
    } else {
      EscapedCharIsThere(s[1..], i - 1);
    }
  }

  /** No address is taken for the bot: its `@` leaves an escape. */
  lemma AddressIsNotTheBot(lower: string)
    requires '@' in lower
    ensures Localpart(lower) != BOT
  {
    var i :| 0 <= i < |lower| && lower[i] == '@';
    EscapedCharIsThere(lower, i);
    var j :| 0 <= j < |Encode(lower)| && Encode(lower)[j] == '=';
    assert Localpart(lower)[|PREFIX| + j] == '=';
    assert '=' !in BOT;
  }

  // ----- Reading a localpart ---------------------------------------------------------------

  /** What a hexadecimal digit is worth. */
  function HexValue(c: char): Option<nat> {
    if '0' <= c <= '9' then Some(c as nat - '0' as nat)
    else if 'a' <= c <= 'f' then Some(c as nat - 'a' as nat + 10)
    else None
  }

  /** The address behind a localpart: each `=` with the two digits after it is the character they number. */
  function Decoded(s: string): Option<string>
    decreases |s|
  {
    if s == "" then Some("")
    else if s[0] != '=' then Before([s[0]], Decoded(s[1..]))
    else if |s| < 3 || HexValue(s[1]).None? || HexValue(s[2]).None? then None
    else Before([(16 * HexValue(s[1]).value + HexValue(s[2]).value) as char], Decoded(s[3..]))
  }

  function Before(a: string, rest: Option<string>): Option<string> {
    if rest.Some? then Some(a + rest.value) else None
  }

  lemma DigitIsRead(d: nat)
    requires d < 16
    ensures HexValue(Digit(d)) == Some(d)
  {
  }

  lemma EscapeIsRead(c: char, rest: string)
    requires c < '\U{100}'
    ensures Decoded(Escape(c) + rest) == Before([c], Decoded(rest))
  {
    var n, s := c as nat, Escape(c) + rest;
    if IsSafe(c) {
      assert s[0] == c && s[1..] == rest;
    } else {
      TwoDigits(n);
      DigitIsRead(n / 16);
      DigitIsRead(n % 16);
      hide Hex2, Digit, HexValue;
      assert Escape(c) == ['=', Digit(n / 16), Digit(n % 16)];
      assert s[0] == '=' && s[1] == Digit(n / 16) && s[2] == Digit(n % 16) && s[3..] == rest;
      assert 16 * (n / 16) + n % 16 == n;
    }
  }

  /** Below U+0100 every address can be read off its localpart. */
  lemma {:induction false} LocalpartIsReadBack(lower: string)
    requires IsLatin1(lower)
    ensures Localpart(lower)[..|PREFIX|] == PREFIX && Decoded(Localpart(lower)[|PREFIX|..]) == Some(lower)
  {
    assert Localpart(lower)[|PREFIX|..] == Encode(lower);
    EncodingIsReadBack(lower);
  }

  lemma {:induction false} EncodingIsReadBack(s: string)
    requires IsLatin1(s)
    ensures Decoded(Encode(s)) == Some(s)
    decreases |s|
  {
    hide Escape, Decoded;
    if s == "" {
      assert Decoded("") == Some("") by { NothingIsRead(); }
    } else {
      EncodingIsReadBack(s[1..]);
      EscapeIsRead(s[0], Encode(s[1..]));
      assert [s[0]] + s[1..] == s;
    }
  }

  lemma NothingIsRead()
    ensures Decoded("") == Some("")
  {
  }

  /** Lower-case letters, digits, `.`, `_` and `-`. */
  ghost predicate IsPlainAddress(lower: string) {
    forall i | 0 <= i < |lower| ::
      'a' <= lower[i] <= 'z' || '0' <= lower[i] <= '9' || lower[i] == '.' || lower[i] == '_' || lower[i] == '-'
  }

  /** An address stands for itself behind the prefix exactly if it has no other characters. */
  lemma UnchangedIffPlain(lower: string)
    ensures Localpart(lower) == PREFIX + lower <==> IsPlainAddress(lower)
  {
    EncodedIffPlain(lower);
    assert Localpart(lower)[|PREFIX|..] == Encode(lower) && (PREFIX + lower)[|PREFIX|..] == lower;
  }

  lemma {:induction false} EncodedIffPlain(s: string)
    ensures Encode(s) == s <==> IsPlainAddress(s)
    ensures |Encode(s)| >= |s|
    decreases |s|
  {
    hide Hex2;
    if s != "" {
      var rest := s[1..];
      EncodedIffPlain(rest);
      assert s == [s[0]] + rest;
      assert IsPlainAddress(s) <==> IsSafe(s[0]) && IsPlainAddress(rest);
      if IsSafe(s[0]) {
        assert Encode(s)[1..] == Encode(rest);
      } else {
        assert |Escape(s[0])| >= 3;
      }
    }
  }
}
