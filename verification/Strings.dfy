/** The string helpers that the codecs are built from: searching, splitting, decimal numbers and
    the percent-encoding of section 2.1 of RFC 3986.  A string is a sequence of bytes. */
module Strings {
  import opened Arrays

  predicate IsBytes(s: string) {
    forall i :: 0 <= i < |s| ==> s[i] as int < 256
  }

  // ---- searching ----

  /** The index of the first `c`, or the length when there is none. */
  function IndexOf(s: string, c: char): (n: nat)
    ensures n <= |s|
    ensures n < |s| ==> s[n] == c
    ensures c !in s[..n]
  {
    if s == "" then 0 else if s[0] == c then 0 else 1 + IndexOf(s[1..], c)
  }

  /** The index of the last `c`, or -1. */
  function RIndexOf(s: string, c: char): (n: int)
    ensures -1 <= n < |s|
    ensures n >= 0 ==> s[n] == c
    ensures c !in s[n + 1..]
  {
    if s == "" then -1 else if s[|s| - 1] == c then |s| - 1 else RIndexOf(s[..|s| - 1], c)
  }

  lemma {:induction false} IndexOfJoined(a: string, c: char, b: string)
    requires c !in a
    ensures IndexOf(a + [c] + b, c) == |a|
  {
    var s := a + [c] + b;
    if a != "" {
      assert s[1..] == a[1..] + [c] + b;
      IndexOfJoined(a[1..], c, b);
      assert s[0] == a[0] && a[0] in a;
    }
  }

  lemma IndexOfNone(a: string, c: char)
    requires c !in a
    ensures IndexOf(a, c) == |a|
  {
  }

  /** The text before the first `c`, and the text behind it. */
  function Before(s: string, c: char): string {
    s[..IndexOf(s, c)]
  }

  function After(s: string, c: char): (t: string)
    ensures s != "" ==> |t| < |s|
  {
    if IndexOf(s, c) < |s| then s[IndexOf(s, c) + 1..] else ""
  }

  lemma CutAt(a: string, c: char, rest: string)
    requires c !in a && (rest == "" || rest[0] == c)
    ensures IndexOf(a + rest, c) == |a|
    ensures Before(a + rest, c) == a && After(a + rest, c) == if rest == "" then "" else rest[1..]
  {
    if rest == "" {
      assert a + rest == a;
      IndexOfNone(a, c);
    } else {
      assert a + rest == a + [c] + rest[1..];
      IndexOfJoined(a, c, rest[1..]);
    }
  }

  // ---- percent-encoding ----

  predicate Plain(c: char) {
    '0' <= c <= '9' || 'A' <= c <= 'Z' || 'a' <= c <= 'z' || c == '_' || c == '-'
  }

  /** The digits 0 to 9 and A to F. */
  function HexDigit(d: nat): (c: char)
    requires d < 16
    ensures Plain(c)
  {
    if d < 10 then (48 + d) as char else (55 + d) as char
  }

  /** The value of a digit from that table; anything that is not in it counts as 0. */
  function HexValue(c: char): (d: nat)
    ensures d < 16
  {
    if '0' <= c <= '9' then c as int - 48 else if 'A' <= c <= 'F' then c as int - 55 else 0
  }

  function EscapeChar(c: char): string
    requires c as int < 256
  {
    if Plain(c) then [c] else ['%', HexDigit(c as int / 16), HexDigit(c as int % 16)]
  }

  function UrlEscape(s: string): string
    requires IsBytes(s)
  {
    if s == "" then "" else EscapeChar(s[0]) + UrlEscape(s[1..])
  }

  function UrlUnescape(s: string): string {
    if s == "" then ""
    else if s[0] == '%' then
      if |s| < 3 then "" else [(HexValue(s[1]) * 16 + HexValue(s[2])) as char] + UrlUnescape(s[3..])
    else
      [if s[0] == '+' then ' ' else s[0]] + UrlUnescape(s[1..])
  }

  lemma EscapeCharRoundTrip(c: char, rest: string)
    requires c as int < 256
    ensures UrlUnescape(EscapeChar(c) + rest) == [c] + UrlUnescape(rest)
  {
    var e := EscapeChar(c);
    if Plain(c) {
      assert (e + rest)[0] == c && (e + rest)[1..] == rest;
    } else {
      assert (e + rest)[0] == '%' && (e + rest)[1] == e[1] && (e + rest)[2] == e[2];
      assert (e + rest)[3..] == rest;
      assert HexValue(e[1]) == c as int / 16 && HexValue(e[2]) == c as int % 16;
    }
  }

  /** Unescaping undoes escaping, for every string of bytes. */
  lemma {:induction false} UnescapeEscape(s: string)
    requires IsBytes(s)
    ensures UrlUnescape(UrlEscape(s)) == s
  {
    if s != "" {
      UnescapeEscape(s[1..]);
      EscapeCharRoundTrip(s[0], UrlEscape(s[1..]));
    }
  }

  /** Escaped text is made of letters, digits, `_`, `-` and `%`, so that no separator occurs in it;
      and it is empty only for the empty string. */
  lemma {:induction false} EscapeIsSafe(s: string)
    requires IsBytes(s)
    ensures forall c :: c in UrlEscape(s) ==> Plain(c) || c == '%'
    ensures UrlEscape(s) == "" <==> s == ""
  {
    if s != "" {
      EscapeIsSafe(s[1..]);
    }
  }

  predicate LowerHex(c: char) {
    'a' <= c <= 'f'
  }

  /** The digits of section 2.1 of RFC 3986, where both spellings count. */
  predicate IsHex(c: char) {
    '0' <= c <= '9' || 'A' <= c <= 'F' || LowerHex(c)
  }

  function RfcHexValue(c: char): (d: nat)
    requires IsHex(c)
    ensures d < 16
  {
    if LowerHex(c) then c as int - 87 else if c <= '9' then c as int - 48 else c as int - 55
  }

  /** Every `%` begins an escape of two digits. */
  predicate WellFormed(s: string) {
    s == "" ||
    if s[0] == '%' then |s| >= 3 && IsHex(s[1]) && IsHex(s[2]) && WellFormed(s[3..])
    else WellFormed(s[1..])
  }

  /** The decoder of RFC 3986: escapes become bytes, and everything else stands for itself. */
  function RfcDecode(s: string): string
    requires WellFormed(s)
  {
    if s == "" then ""
    else if s[0] == '%' then
      [(RfcHexValue(s[1]) * 16 + RfcHexValue(s[2])) as char] + RfcDecode(s[3..])
    else
      [s[0]] + RfcDecode(s[1..])
  }

  /** No escape has a digit from a to f, and there is no `+`. */
  predicate UpperHexNoPlus(s: string)
    requires WellFormed(s)
  {
    s == "" ||
    if s[0] == '%' then !LowerHex(s[1]) && !LowerHex(s[2]) && UpperHexNoPlus(s[3..])
    else s[0] != '+' && UpperHexNoPlus(s[1..])
  }

  /** The decoder meets RFC 3986 on exactly those texts: it does not know the lower-case digits, and it
      reads `+` as a space. */
  lemma {:induction false} UnescapeMeetsRfc(s: string)
    requires WellFormed(s)
    ensures UrlUnescape(s) == RfcDecode(s) <==> UpperHexNoPlus(s)
  {
    if s != "" {
      if s[0] != '%' {
        UnescapeMeetsRfc(s[1..]);
        SameBehindFirst(if s[0] == '+' then ' ' else s[0], s[0], UrlUnescape(s[1..]), RfcDecode(s[1..]));
      } else {
        UnescapeMeetsRfc(s[3..]);
        SameBehindFirst((HexValue(s[1]) * 16 + HexValue(s[2])) as char,
                        (RfcHexValue(s[1]) * 16 + RfcHexValue(s[2])) as char,
                        UrlUnescape(s[3..]), RfcDecode(s[3..]));
      }
    }
  }

  lemma SameBehindFirst(c: char, d: char, s: string, t: string)
    ensures [c] + s == [d] + t <==> c == d && s == t
  {
    assert ([c] + s)[0] == c && ([d] + t)[0] == d;
    assert ([c] + s)[1..] == s && ([d] + t)[1..] == t;
  }

  /** The encoder needs no such condition: every decoder that follows RFC 3986 reads what it writes. */
  lemma {:induction false} EscapeMeetsRfc(s: string)
    requires IsBytes(s)
    ensures WellFormed(UrlEscape(s)) && RfcDecode(UrlEscape(s)) == s
  {
    if s != "" {
      EscapeMeetsRfc(s[1..]);
      RfcReadsEscape(s[0], UrlEscape(s[1..]));
    }
  }

  lemma RfcReadsEscape(c: char, rest: string)
    requires c as int < 256 && WellFormed(rest)
    ensures WellFormed(EscapeChar(c) + rest) && RfcDecode(EscapeChar(c) + rest) == [c] + RfcDecode(rest)
  {
    var e := EscapeChar(c);
    if Plain(c) {
      assert (e + rest)[0] == c && (e + rest)[1..] == rest;
    } else {
      assert (e + rest)[0] == '%' && (e + rest)[1] == e[1] && (e + rest)[2] == e[2];
      assert (e + rest)[3..] == rest;
      assert RfcHexValue(e[1]) == c as int / 16 && RfcHexValue(e[2]) == c as int % 16;
    }
  }

  /** So the lower-case spelling of a slash reads as a space, before any text. */
  lemma LowerCaseHexIsNotDecoded(rest: string)
    ensures UrlUnescape(['%', '2', 'f'] + rest) == [' '] + UrlUnescape(rest)
    ensures WellFormed(['%', '2', 'f'] + rest) <==> WellFormed(rest)
    ensures WellFormed(rest) ==> RfcDecode(['%', '2', 'f'] + rest) == ['/'] + RfcDecode(rest)
  {
    var s := ['%', '2', 'f'] + rest;
    assert s[0] == '%' && s[1] == '2' && s[2] == 'f' && s[3..] == rest;
    assert HexValue('2') == 2 && HexValue('f') == 0 && RfcHexValue('2') == 2 && RfcHexValue('f') == 15;
  }

  /** Text without `%` and `+` decodes to itself. */
  lemma {:induction false} UnescapePlain(s: string)
    requires '%' !in s && '+' !in s
    ensures UrlUnescape(s) == s
  {
    if s != "" {
      assert s[0] in s;
      UnescapePlain(s[1..]);
    }
  }

  lemma EscapeStep(s: string, i: nat)
    requires IsBytes(s) && i < |s|
    ensures UrlEscape(s[i..]) == EscapeChar(s[i]) + UrlEscape(s[i + 1..])
  {
    assert s[i..][1..] == s[i + 1..];
  }

  lemma EscapeEnd()
    ensures UrlEscape("") == ""
  {
  }

  method EncodeUrl(s: string) returns (buf: string)
    requires IsBytes(s)
    ensures buf == UrlEscape(s)
  {
    hide UrlEscape;
    buf := "";
    var i := 0;
    assert s[0..] == s;
    while i < |s|
      invariant 0 <= i <= |s|
      invariant buf + UrlEscape(s[i..]) == UrlEscape(s)
    {
      EscapeStep(s, i);
      var c := s[i];
      var piece;
      if Plain(c) {
        piece := [c];
      } else {
        piece := ['%', HexDigit(c as int / 16), HexDigit(c as int % 16)];
      }
      assert piece == EscapeChar(c);
      AppendAssociates(buf, piece, UrlEscape(s[i + 1..]));
      buf := buf + piece;
      i := i + 1;
    }
    assert s[i..] == "";
    EscapeEnd();
  }

  /** One pass of the decoding loop. */
  lemma UnescapeStep(s: string, i: nat)
    requires i < |s|
    ensures s[i] != '%' ==> UrlUnescape(s[i..]) == [if s[i] == '+' then ' ' else s[i]] + UrlUnescape(s[i + 1..])
    ensures s[i] == '%' && i + 3 <= |s| ==>
              UrlUnescape(s[i..]) == [(HexValue(s[i + 1]) * 16 + HexValue(s[i + 2])) as char] + UrlUnescape(s[i + 3..])
    ensures s[i] == '%' && i + 3 > |s| ==> UrlUnescape(s[i..]) == ""
  {
    assert s[i..][0] == s[i] && s[i..][1..] == s[i + 1..];
    if i + 3 <= |s| {
      assert s[i..][3..] == s[i + 3..];
    }
  }

  lemma UnescapeEnd()
    ensures UrlUnescape("") == ""
  {
  }

  method DecodeUrl(s: string) returns (buf: string)
    ensures buf == UrlUnescape(s)
  {
    hide UrlUnescape, HexValue;
    buf := "";
    var i := 0;
    assert s[0..] == s;
    while i < |s|
      invariant 0 <= i <= |s|
      invariant buf + UrlUnescape(s[i..]) == UrlUnescape(s)
    {
      UnescapeStep(s, i);
      var c := s[i];
      if c == '%' {
        if i + 3 > |s| {
          return;
        }
        var byte := (HexValue(s[i + 1]) * 16 + HexValue(s[i + 2])) as char;
        AppendAssociates(buf, [byte], UrlUnescape(s[i + 3..]));
        buf := buf + [byte];
        i := i + 3;
      } else {
        var plain := if c == '+' then ' ' else c;
        AppendAssociates(buf, [plain], UrlUnescape(s[i + 1..]));
        buf := buf + [plain];
        i := i + 1;
      }
    }
    assert s[i..] == "";
    UnescapeEnd();
  }

  // ---- splitting ----

  /** What one pass of the splitting loop yields: nothing for a leading separator, unless empty parts
      are wanted and something follows. */
  function FirstParts(s: string, sep: char, keepEmpty: bool): seq<string> {
    var pos := IndexOf(s, sep);
    if pos == |s| then [s]
    else if pos > 0 then [s[..pos]]
    else if |s| > 1 && keepEmpty then [""] else []
  }

  function Consumed(s: string, sep: char): (n: nat)
    requires s != ""
    ensures 0 < n <= |s|
  {
    if IndexOf(s, sep) == |s| then |s| else IndexOf(s, sep) + 1
  }

  /** split_string with its `empty` flag. */
  function Split(s: string, sep: char, keepEmpty: bool): seq<string>
    decreases |s|
  {
    if s == "" then []
    else FirstParts(s, sep, keepEmpty) + Split(s[Consumed(s, sep)..], sep, keepEmpty)
  }

  method SplitString(s: string, sep: char, keepEmpty: bool) returns (parts: seq<string>)
    ensures parts == Split(s, sep, keepEmpty)
  {
    parts := [];
    var data := 0;
    assert s[0..] == s;
    while data < |s|
      invariant 0 <= data <= |s|
      invariant parts + Split(s[data..], sep, keepEmpty) == Split(s, sep, keepEmpty)
      decreases |s| - data
    {
      ghost var rest := s[data..];
      ghost var before, first := parts, FirstParts(rest, sep, keepEmpty);
      ghost var next := data + Consumed(rest, sep);
      assert rest[Consumed(rest, sep)..] == s[next..];
      var pos := IndexOf(s[data..], sep);
      if pos == |s| - data {
        parts := parts + [s[data..]];
        data := |s|;
      } else if pos == 0 {
        data := data + 1;
        if data < |s| && keepEmpty {
          parts := parts + [""];
        }
      } else {
        parts := parts + [s[data..][..pos]];
        data := data + pos + 1;
      }
      assert parts == before + first && data == next;
      AppendAssociates(before, first, Split(s[next..], sep, keepEmpty));
    }
  }

  /** A part followed by a separator comes off the front. */
  lemma SplitPart(a: string, sep: char, rest: string, keepEmpty: bool)
    requires sep !in a && a != ""
    ensures Split(a + [sep] + rest, sep, keepEmpty) == [a] + Split(rest, sep, keepEmpty)
    ensures Split(a, sep, keepEmpty) == [a]
  {
    IndexOfJoined(a, sep, rest);
    IndexOfNone(a, sep);
    var s := a + [sep] + rest;
    assert s[..|a|] == a && s[|a| + 1..] == rest;
  }

  /** An empty part is kept when something follows it. */
  lemma SplitEmptyPart(sep: char, rest: string, keepEmpty: bool)
    ensures Split([sep] + rest, sep, keepEmpty) ==
            (if rest != "" && keepEmpty then [""] else []) + Split(rest, sep, keepEmpty)
  {
    assert ([sep] + rest)[1..] == rest;
    assert ([sep] + rest)[0] == sep;
  }

  // ---- decimal numbers ----

  predicate IsDigit(c: char) {
    '0' <= c <= '9'
  }

  predicate IsSpace(c: char) {
    c == ' ' || '\t' <= c <= '\r'
  }

  function DigitChar(d: nat): char
    requires d < 10
  {
    (48 + d) as char
  }

  function NatToString(n: nat): (s: string)
    ensures s != "" && forall c :: c in s ==> IsDigit(c)
  {
    if n < 10 then [DigitChar(n)] else NatToString(n / 10) + [DigitChar(n % 10)]
  }

  function IntToString(n: int): string {
    if n < 0 then "-" + NatToString(-n) else NatToString(n)
  }

  function DigitValue(c: char): nat
    requires IsDigit(c)
  {
    c as int - 48
  }

  function DigitsValue(s: string): nat
    requires forall c :: c in s ==> IsDigit(c)
  {
    if s == "" then 0
    else
      assert s[|s| - 1] in s;
      DigitsValue(s[..|s| - 1]) * 10 + DigitValue(s[|s| - 1])
  }

  function SkipSpaces(s: string): string {
    if s != "" && IsSpace(s[0]) then SkipSpaces(s[1..]) else s
  }

  /** String::toInt: what strtol reads when it reads the whole string, otherwise 0. */
  function ToInt(s: string): int {
    var t := SkipSpaces(s);
    var negative := t != "" && t[0] == '-';
    var digits := if t != "" && (t[0] == '-' || t[0] == '+') then t[1..] else t;
    if digits != "" && forall c :: c in digits ==> IsDigit(c) then
      var value: int := DigitsValue(digits);
      if negative then -value else value
    else
      0
  }

  lemma {:induction false} DigitsValueOfNat(n: nat)
    ensures DigitsValue(NatToString(n)) == n
  {
    if n >= 10 {
      DigitsValueOfNat(n / 10);
      var s := NatToString(n);
      assert s[..|s| - 1] == NatToString(n / 10);
    } else {
      assert NatToString(n)[..0] == "";
    }
  }

  /** Printing and reading an integer are inverse. */
  lemma ToIntOfString(n: int)
    ensures ToInt(IntToString(n)) == n
  {
    var s := IntToString(n);
    var m := if n < 0 then -n else n;
    DigitsValueOfNat(m);
    if n < 0 {
      assert s[1..] == NatToString(m);
    } else {
      assert s[0] in NatToString(m);
    }
  }

  /** A printed integer is made of digits and perhaps a sign. */
  lemma IntToStringIsSafe(n: int)
    ensures IntToString(n) != "" && IsBytes(IntToString(n))
    ensures forall c :: c in IntToString(n) ==> IsDigit(c) || c == '-'
  {
    forall i | 0 <= i < |IntToString(n)|
      ensures IntToString(n)[i] as int < 256
    {
      assert IntToString(n)[i] in IntToString(n);
    }
  }
}
