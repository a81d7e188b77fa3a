/** The check-in payload that starting a class shows as a QR code:
    `JSON.stringify({ sessionId, classId, timestamp })`. The encoder is the
    exact text `JSON.stringify` writes for that object (keys in insertion
    order, no white space, strings escaped as ECMAScript's QuoteJSONString
    does). The decoder reads that canonical text back; it is the inverse a
    scanner would need and is not itself part of the dashboard. */
module SessionPayload {
  import opened Lists
  import opened Text

  datatype Payload = Payload(sessionId: string, classId: string, timestamp: nat)

  // ----- JSON string escaping -----

  function HexDigit(d: nat): char
    requires d < 16
  {
    if d < 10 then (d + '0' as int) as char else (d - 10 + 'a' as int) as char
  }

  /** The JSON text of one character inside a string literal. */
  function EscapeChar(c: char): string
  {
    if c == '\"' then ['\\', '\"']
    else if c == '\\' then ['\\', '\\']
    else if c as int == 0x08 then ['\\', 'b']
    else if c == '\t' then ['\\', 't']
    else if c == '\n' then ['\\', 'n']
    else if c as int == 0x0C then ['\\', 'f']
    else if c == '\r' then ['\\', 'r']
    else if c as int < 0x20 then ['\\', 'u', '0', '0', HexDigit(c as int / 16), HexDigit(c as int % 16)]
    else [c]
  }

  /** The body of a JSON string literal (without the quotes). */
  function Escape(s: string): string
  {
    if s == [] then [] else EscapeChar(s[0]) + Escape(s[1..])
  }

  const SessionKey: string := "{\"sessionId\":\""
  const ClassKey: string := ",\"classId\":\""
  const StampKey: string := ",\"timestamp\":"

  /** `JSON.stringify({ sessionId, classId, timestamp })`, i.e.
      `{"sessionId":"<id>","classId":"<class>","timestamp":<digits>}`. */
  function Encode(p: Payload): string
  {
    SessionKey + Escape(p.sessionId) + "\"" + ClassKey + Escape(p.classId) + "\"" + StampKey
      + NatToString(p.timestamp) + "}"
  }

  // ----- reading the payload back -----

  /** The character a one-letter JSON escape stands for. */
  function SimpleEscape(e: char): Option<char>
  {
    if e == '\"' then Some('\"')
    else if e == '\\' then Some('\\')
    else if e == '/' then Some('/')
    else if e == 'b' then Some(8 as char)
    else if e == 'f' then Some(12 as char)
    else if e == 'n' then Some('\n')
    else if e == 'r' then Some('\r')
    else if e == 't' then Some('\t')
    else None
  }

  /** The value of four hexadecimal digits, or -1. */
  function Hex4(t: string): (v: int)
    requires |t| == 4
    ensures -1 <= v < 0x10000
  {
    var a, b, c, d := HexValue(t[0]), HexValue(t[1]), HexValue(t[2]), HexValue(t[3]);
    if a < 0 || b < 0 || c < 0 || d < 0 then -1 else a * 4096 + b * 256 + c * 16 + d
  }

  function Prepend(c: char, r: Option<(string, string)>): Option<(string, string)>
  {
    match r
    case None => None
    case Some((d, rest)) => Some(([c] + d, rest))
  }

  /** Reads the body of a JSON string literal up to its closing quote: the
      decoded text and what follows the quote. Raw control characters, unknown
      escapes and escaped surrogate halves are rejected. */
  function Unescape(s: string): Option<(string, string)>
    decreases |s|
  {
    if s == [] then None
    else if s[0] == '\"' then Some(([], s[1..]))
    else if s[0] as int < 0x20 then None
    else if s[0] != '\\' then Prepend(s[0], Unescape(s[1..]))
    else if |s| < 2 then None
    else if s[1] == 'u' then
      if |s| < 6 then None
      else
        var v := Hex4(s[2..6]);
        if v < 0 || 0xD800 <= v < 0xE000 then None else Prepend(v as char, Unescape(s[6..]))
    else
      match SimpleEscape(s[1])
      case None => None
      case Some(c) => Prepend(c, Unescape(s[2..]))
  }

  /** Reads `key`, then a string body up to its closing quote. */
  function ReadString(s: string, key: string): Option<(string, string)>
  {
    if StartsWith(s, key) then Unescape(s[|key|..]) else None
  }

  /** Reads `,"timestamp":`, a canonical decimal number (no leading zero) and `}`. */
  function ReadStamp(s: string): Option<nat>
  {
    if !StartsWith(s, StampKey) then None
    else
      var r := s[|StampKey|..];
      var k := DigitRun(r);
      if k == 0 || (k > 1 && r[0] == '0') || r[k..] != "}" then None
      else Some(DigitsValue(r[..k]))
  }

  /** Reads the canonical payload text back. */
  function Decode(text: string): Option<Payload>
  {
    match ReadString(text, SessionKey)
    case None => None
    case Some((sid, r1)) =>
      match ReadString(r1, ClassKey)
      case None => None
      case Some((cid, r2)) =>
        match ReadStamp(r2)
        case None => None
        case Some(t) => Some(Payload(sid, cid, t))
  }

  // ----- the round trip -----

  lemma HexValueOfHexDigit(d: nat)
    requires d < 16
    ensures HexValue(HexDigit(d)) == d
  {
  }

  /** Reading one escaped character back gives that character. */
  lemma UnescapeChar(c: char, t: string)
    ensures Unescape(EscapeChar(c) + t) == Prepend(c, Unescape(t))
  {
    var x := EscapeChar(c) + t;
    if c == '\"' || c == '\\' || c as int == 0x08 || c == '\t' || c == '\n' || c as int == 0x0C || c == '\r' {
      assert x[0] == '\\' && x[2..] == t;
    } else if c as int < 0x20 {
      var n := c as int;
      HexValueOfHexDigit(n / 16);
      HexValueOfHexDigit(n % 16);
      assert x[0] == '\\' && x[1] == 'u';
      assert x[2..6] == ['0', '0', HexDigit(n / 16), HexDigit(n % 16)];
      assert Hex4(x[2..6]) == n;
      assert x[6..] == t;
    } else {
      assert x[0] == c && x[1..] == t;
    }
  }

  /** Reading an escaped string body followed by its closing quote gives the
      string back, and leaves exactly what came after the quote. */
  lemma {:induction false} UnescapeEscape(s: string, rest: string)
    ensures Unescape(Escape(s) + "\"" + rest) == Some((s, rest))
  {
    if s == [] {
      assert Escape(s) + "\"" + rest == ['\"'] + rest;
    } else {
      UnescapeEscape(s[1..], rest);
      assert Escape(s) + "\"" + rest == EscapeChar(s[0]) + (Escape(s[1..]) + "\"" + rest);
      UnescapeChar(s[0], Escape(s[1..]) + "\"" + rest);
      assert [s[0]] + s[1..] == s;
    }
  }

  lemma ReadStringOf(key: string, s: string, rest: string)
    ensures ReadString(key + Escape(s) + "\"" + rest, key) == Some((s, rest))
  {
    var text := key + (Escape(s) + "\"" + rest);
    assert text == key + Escape(s) + "\"" + rest;
    assert text[..|key|] == key;
    assert text[|key|..] == Escape(s) + "\"" + rest;
    UnescapeEscape(s, rest);
  }

  lemma ReadStampOf(n: nat)
    ensures ReadStamp(StampKey + NatToString(n) + "}") == Some(n)
  {
    var digits := NatToString(n);
    var s := StampKey + digits + "}";
    assert s[..|StampKey|] == StampKey;
    var r := s[|StampKey|..];
    assert r == digits + "}";
    DigitRunOfDigits(digits, "}");
    assert r[..|digits|] == digits;
    assert r[|digits|..] == "}";
    DigitsValueOfNatToString(n);
    NatToStringNoLeadingZero(n);
    if |digits| > 1 {
      assert n >= 10;
    }
  }

  /** Decoding the text shown as the QR code gives back the payload exactly. */
  lemma RoundTrip(p: Payload)
    ensures Decode(Encode(p)) == Some(p)
  {
    var tail := StampKey + NatToString(p.timestamp) + "}";
    var r1 := ClassKey + Escape(p.classId) + "\"" + tail;
    var text := Encode(p);
    assert text == SessionKey + Escape(p.sessionId) + "\"" + r1;
    ReadStringOf(SessionKey, p.sessionId, r1);
    assert ReadString(text, SessionKey) == Some((p.sessionId, r1));
    ReadStringOf(ClassKey, p.classId, tail);
    ReadStampOf(p.timestamp);
  }

  /** Different payloads are never shown as the same QR text. */
  lemma EncodeInjective(p: Payload, q: Payload)
    requires Encode(p) == Encode(q)
    ensures p == q
  {
    RoundTrip(p);
    RoundTrip(q);
  }
}
