/** The JavaScript string and number built-ins that the dashboard's domain code
    calls: `toLowerCase`, `includes`, `split(',')`, `join`, `replace(' ', '')`,
    `parseInt` and the decimal rendering of a non-negative integer (as in a
    template literal or `JSON.stringify`). */
module Text {
  import opened Lists

  // ----- toLowerCase -----

  /** Lower-cases the ASCII capitals and leaves every other character alone. */
  function LowerChar(c: char): char
  {
    if 'A' <= c <= 'Z' then (c as int + 32) as char else c
  }

  /** `s.toLowerCase()`, restricted to ASCII letters. */
  function Lower(s: string): (r: string)
    ensures |r| == |s|
  {
    if s == [] then [] else [LowerChar(s[0])] + Lower(s[1..])
  }

  lemma {:induction false} LowerAt(s: string, i: nat)
    requires i < |s|
    ensures Lower(s)[i] == LowerChar(s[i])
  {
    if i > 0 {
      LowerAt(s[1..], i - 1);
    }
  }

  /** Lower-casing an already lower-cased string changes nothing. */
  lemma {:induction false} LowerIdempotent(s: string)
    ensures Lower(Lower(s)) == Lower(s)
  {
    if s != [] {
      LowerIdempotent(s[1..]);
      assert Lower(s)[1..] == Lower(s[1..]);
    }
  }

  // ----- `||` on an optional string -----

  /** `x || fallback` for a string that may be undefined: an undefined or
      empty string gives the fallback. */
  function OrElse(x: Option<string>, fallback: string): (r: string)
    ensures r == fallback || (x.Some? && r == x.value)
    ensures r == fallback <== x.None? || x.value == ""
    ensures x.Some? && x.value != "" ==> r == x.value
  {
    if x.Some? && x.value != "" then x.value else fallback
  }

  // ----- includes -----

  predicate StartsWith(s: string, prefix: string)
  {
    |prefix| <= |s| && s[..|prefix|] == prefix
  }

  /** `needle` occurs in `hay` starting at position `i`. */
  predicate OccursAt(hay: string, needle: string, i: int)
  {
    0 <= i <= |hay| - |needle| && hay[i..i + |needle|] == needle
  }

  /** `hay.includes(needle)`. */
  predicate Includes(hay: string, needle: string)
    decreases |hay|
  {
    StartsWith(hay, needle) || (hay != [] && Includes(hay[1..], needle))
  }

  /** `includes` holds exactly when the needle occurs at some position. */
  lemma {:induction false} IncludesIff(hay: string, needle: string)
    ensures Includes(hay, needle) <==> exists i :: OccursAt(hay, needle, i)
  {
    if StartsWith(hay, needle) {
      assert OccursAt(hay, needle, 0);
    } else if hay != [] {
      IncludesIff(hay[1..], needle);
      forall i | OccursAt(hay, needle, i) ensures OccursAt(hay[1..], needle, i - 1) {
        assert i != 0;
        assert hay[1..][i - 1..i - 1 + |needle|] == hay[i..i + |needle|];
      }
      if Includes(hay[1..], needle) {
        var i :| OccursAt(hay[1..], needle, i);
        assert hay[i + 1..i + 1 + |needle|] == hay[1..][i..i + |needle|];
        assert OccursAt(hay, needle, i + 1);
      }
    }
  }

  /** Every string includes the empty search term. */
  lemma IncludesEmpty(hay: string)
    ensures Includes(hay, "")
  {
  }

  // ----- split(',') and join(', ') -----

  /** `s.split(sep)` for a one-character separator: always at least one piece. */
  function Split(s: string, sep: char): (r: seq<string>)
    ensures |r| >= 1
    decreases |s|
  {
    if s == [] then [""]
    else
      var rest := Split(s[1..], sep);
      if s[0] == sep then [""] + rest else [[s[0]] + rest[0]] + rest[1..]
  }

  /** `parts.join(sep)`. */
  function Join(parts: seq<string>, sep: string): string
    decreases |parts|
  {
    if parts == [] then "" else if |parts| == 1 then parts[0] else parts[0] + sep + Join(parts[1..], sep)
  }

  /** Splitting on a character and joining with it again gives back the string. */
  lemma {:induction false} JoinSplit(s: string, sep: char)
    ensures Join(Split(s, sep), [sep]) == s
  {
    if s != [] {
      var rest := Split(s[1..], sep);
      JoinSplit(s[1..], sep);
      if s[0] == sep {
        assert ([""] + rest)[1..] == rest;
        assert s == [sep] + s[1..];
      } else {
        var r := [[s[0]] + rest[0]] + rest[1..];
        assert r[1..] == rest[1..];
        if |rest| == 1 {
          assert s == [s[0]] + s[1..];
        } else {
          assert Join(rest, [sep]) == rest[0] + [sep] + Join(rest[1..], [sep]);
          assert s == [s[0]] + s[1..];
        }
      }
    }
  }

  /** No piece of a split contains the separator. */
  lemma {:induction false} SplitPiecesLackSeparator(s: string, sep: char)
    ensures forall k :: 0 <= k < |Split(s, sep)| ==> sep !in Split(s, sep)[k]
  {
    if s != [] {
      SplitPiecesLackSeparator(s[1..], sep);
      var rest := Split(s[1..], sep);
      if s[0] == sep {
        forall k | 0 <= k < |Split(s, sep)| ensures sep !in Split(s, sep)[k] {
          if k > 0 { assert Split(s, sep)[k] == rest[k - 1]; }
        }
      } else {
        forall k | 0 <= k < |Split(s, sep)| ensures sep !in Split(s, sep)[k] {
          if k > 0 { assert Split(s, sep)[k] == rest[k]; }
          else { assert Split(s, sep)[0] == [s[0]] + rest[0]; }
        }
      }
    }
  }

  // ----- replace(' ', '') -----

  /** `s.replace(' ', '')`: a string pattern replaces only its FIRST occurrence. */
  function RemoveFirstSpace(s: string): string
  {
    if s == [] then [] else if s[0] == ' ' then s[1..] else [s[0]] + RemoveFirstSpace(s[1..])
  }

  /** With the first space at position `i`, exactly that character is removed. */
  lemma {:induction false} RemoveFirstSpaceAt(s: string, i: nat)
    requires i < |s| && s[i] == ' '
    requires forall j :: 0 <= j < i ==> s[j] != ' '
    ensures RemoveFirstSpace(s) == s[..i] + s[i + 1..]
  {
    if i > 0 {
      RemoveFirstSpaceAt(s[1..], i - 1);
      assert s[..i] == [s[0]] + s[1..][..i - 1];
      assert s[i + 1..] == s[1..][i..];
    }
  }

  /** A string without a space is unchanged. */
  lemma {:induction false} RemoveFirstSpaceNone(s: string)
    requires forall j :: 0 <= j < |s| ==> s[j] != ' '
    ensures RemoveFirstSpace(s) == s
  {
    if s != [] {
      RemoveFirstSpaceNone(s[1..]);
    }
  }

  // ----- decimal digits -----

  predicate IsDigit(c: char)
  {
    '0' <= c <= '9'
  }

  predicate AllDigits(s: string)
  {
    forall i :: 0 <= i < |s| ==> IsDigit(s[i])
  }

  function DigitChar(d: nat): (c: char)
    requires d < 10
  {
    (d + '0' as int) as char
  }

  function DigitValue(c: char): nat
    requires IsDigit(c)
  {
    c as int - '0' as int
  }

  /** The decimal rendering of a non-negative integer (`${n}`, `JSON.stringify(n)`). */
  function NatToString(n: nat): (r: string)
    ensures |r| >= 1 && AllDigits(r)
    decreases n
  {
    if n < 10 then [DigitChar(n)] else NatToString(n / 10) + [DigitChar(n % 10)]
  }

  /** The value of a string of decimal digits. */
  function DigitsValue(s: string): nat
    requires AllDigits(s)
    decreases |s|
  {
    if s == [] then 0 else DigitsValue(s[..|s| - 1]) * 10 + DigitValue(s[|s| - 1])
  }

  /** Reading back the decimal rendering of `n` gives `n`. */
  lemma {:induction false} DigitsValueOfNatToString(n: nat)
    ensures DigitsValue(NatToString(n)) == n
    decreases n
  {
    if n >= 10 {
      DigitsValueOfNatToString(n / 10);
      var s := NatToString(n);
      assert s[..|s| - 1] == NatToString(n / 10);
    }
  }

  /** Only 0 itself is rendered with a leading zero. */
  lemma {:induction false} NatToStringNoLeadingZero(n: nat)
    ensures NatToString(n)[0] == '0' ==> n == 0
    decreases n
  {
    if n >= 10 {
      NatToStringNoLeadingZero(n / 10);
      assert NatToString(n)[0] == NatToString(n / 10)[0];
    }
  }

  /** The length of the run of decimal digits at the start of `s`. */
  function DigitRun(s: string): (k: nat)
    ensures k <= |s| && AllDigits(s[..k])
    ensures k < |s| ==> !IsDigit(s[k])
  {
    if s == [] || !IsDigit(s[0]) then 0
    else
      var k := 1 + DigitRun(s[1..]);
      assert s[..k] == [s[0]] + s[1..][..k - 1];
      k
  }

  /** The digit run of digits followed by a non-digit is exactly those digits. */
  lemma {:induction false} DigitRunOfDigits(d: string, rest: string)
    requires AllDigits(d)
    requires rest == [] || !IsDigit(rest[0])
    ensures DigitRun(d + rest) == |d|
  {
    if d == [] {
      assert d + rest == rest;
    } else {
      DigitRunOfDigits(d[1..], rest);
      assert (d + rest)[1..] == d[1..] + rest;
    }
  }

  // ----- parseInt -----

  /** The characters JavaScript's `StrWhiteSpaceChar` accepts before a number. */
  predicate IsJsWhiteSpace(c: char)
  {
    c == ' ' || c == '\t' || c == '\n' || c == '\r' || c as int == 0x0B || c as int == 0x0C
    || c as int == 0xA0 || c as int == 0x1680 || 0x2000 <= c as int <= 0x200A
    || c as int == 0x2028 || c as int == 0x2029 || c as int == 0x202F || c as int == 0x205F
    || c as int == 0x3000 || c as int == 0xFEFF
  }

  function TrimStart(s: string): (r: string)
    ensures r == [] || !IsJsWhiteSpace(r[0])
  {
    if s != [] && IsJsWhiteSpace(s[0]) then TrimStart(s[1..]) else s
  }

  /** The value of a hexadecimal digit, or -1 for any other character. */
  function HexValue(c: char): (v: int)
    ensures -1 <= v < 16
  {
    if '0' <= c <= '9' then c as int - '0' as int
    else if 'a' <= c <= 'f' then c as int - 'a' as int + 10
    else if 'A' <= c <= 'F' then c as int - 'A' as int + 10
    else -1
  }

  function HexRun(s: string): (k: nat)
    ensures k <= |s|
  {
    if s == [] || HexValue(s[0]) < 0 then 0 else 1 + HexRun(s[1..])
  }

  function HexDigitsValue(s: string): nat
    decreases |s|
  {
    if s == [] then 0
    else
      var v := HexValue(s[|s| - 1]);
      DigitsOrZero(HexDigitsValue(s[..|s| - 1]) * 16 + v)
  }

  function DigitsOrZero(x: int): nat
  {
    if x < 0 then 0 else x
  }

  /** `parseInt(s)` with no radix: leading white space, an optional sign, then a
      `0x`/`0X` hexadecimal or a decimal digit run; `None` is `NaN`. */
  function ParseInt(s: string): Option<int>
  {
    var t := TrimStart(s);
    var negative := t != [] && t[0] == '-';
    var u := if t != [] && (t[0] == '-' || t[0] == '+') then t[1..] else t;
    var sign := if negative then -1 else 1;
    if |u| >= 2 && u[0] == '0' && (u[1] == 'x' || u[1] == 'X') then
      var h := HexRun(u[2..]);
      if h == 0 then None else Some(sign * HexDigitsValue(u[2..][..h]))
    else
      var k := DigitRun(u);
      if k == 0 then None else Some(sign * DigitsValue(u[..k]))
  }

  /** `parseInt` reads back what the decimal rendering of a count writes. */
  lemma ParseIntOfNatToString(n: nat)
    ensures ParseInt(NatToString(n)) == Some(n)
  {
    var s := NatToString(n);
    assert TrimStart(s) == s;
    DigitRunOfDigits(s, []);
    assert s + [] == s;
    assert s[..|s|] == s;
    DigitsValueOfNatToString(n);
    if |s| >= 2 {
      assert IsDigit(s[1]);
    }
  }

  /** A value without any digit after the optional sign parses to `NaN`. */
  lemma ParseIntOfEmpty()
    ensures ParseInt("") == None
  {
  }
}
