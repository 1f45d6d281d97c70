/**
  String helpers shared by the model: the subset of the ECMAScript string
  library the source relies on (startsWith, includes, trim, split, join,
  toLowerCase on ASCII, encodeURIComponent, number-to-string).
 */
module Strings {

  datatype Option<T> = None | Some(value: T) {
    function GetOr(default: T): T {
      if Some? then value else default
    }
  }

  /** Adjacent slices concatenate. */
  lemma SliceSplit<T>(s: seq<T>, a: nat, b: nat, c: nat)
    requires a <= b <= c <= |s|
    ensures s[a..c] == s[a..b] + s[b..c]
  {
  }

  lemma AppendAssoc<T>(a: seq<T>, b: seq<T>, c: seq<T>)
    ensures (a + b) + c == a + (b + c)
  {
  }

  /** A sequence is its prefix followed by its suffix. */
  lemma SplitAt<T>(s: seq<T>, k: nat)
    requires k <= |s|
    ensures s == s[..k] + s[k..]
  {
  }

  /** A suffix is a slice followed by the rest. */
  lemma SuffixSplit<T>(s: seq<T>, a: nat, b: nat)
    requires a <= b <= |s|
    ensures s[a..] == s[a..b] + s[b..]
  {
  }

  /** Extending a slice by one element. */
  lemma SliceSnoc<T>(s: seq<T>, a: nat, b: nat)
    requires a <= b < |s|
    ensures s[a..b + 1] == s[a..b] + [s[b]]
  {
  }

  // ---------------------------------------------------------------------------
  // Prefixes and substrings
  // ---------------------------------------------------------------------------

  /** `s.startsWith(p)` */
  predicate StartsWith(s: string, p: string) {
    |p| <= |s| && s[..|p|] == p
  }

  /** `sub` occurs in `s` starting at index `i`. */
  predicate MatchAt(s: string, sub: string, i: int) {
    0 <= i && i + |sub| <= |s| && s[i..i + |sub|] == sub
  }

  /** `s.includes(sub)` */
  predicate Contains(s: string, sub: string)
    decreases |s|
  {
    StartsWith(s, sub) || (|s| > 0 && Contains(s[1..], sub))
  }

  lemma {:induction false} ContainsAt(s: string, sub: string, i: int)
    requires MatchAt(s, sub, i)
    ensures Contains(s, sub)
    decreases i
  {
    if i > 0 {
      assert MatchAt(s[1..], sub, i - 1) by {
        assert s[1..][i - 1..i - 1 + |sub|] == s[i..i + |sub|];
      }
      ContainsAt(s[1..], sub, i - 1);
    } else {
      assert s[..|sub|] == s[0..0 + |sub|];
    }
  }

  lemma {:induction false} ContainsWitness(s: string, sub: string) returns (i: nat)
    requires Contains(s, sub)
    ensures MatchAt(s, sub, i)
    decreases |s|
  {
    if StartsWith(s, sub) {
      i := 0;
      assert s[0..0 + |sub|] == s[..|sub|];
    } else {
      var j := ContainsWitness(s[1..], sub);
      i := j + 1;
      assert s[1..][j..j + |sub|] == s[i..i + |sub|];
    }
  }

  /** Every string contains the empty string. */
  lemma ContainsEmpty(s: string)
    ensures Contains(s, "")
  {
    assert StartsWith(s, "");
  }

  /** Every string contains itself. */
  lemma ContainsSelf(s: string)
    ensures Contains(s, s)
  {
    assert StartsWith(s, s);
  }

  /** A single character occurs as a substring exactly when it is an element. */
  lemma {:induction false} ContainsChar(s: string, c: char)
    ensures Contains(s, [c]) <==> c in s
    decreases |s|
  {
    if |s| > 0 {
      ContainsChar(s[1..], c);
      assert s == [s[0]] + s[1..];
    }
  }

  // ---------------------------------------------------------------------------
  // Whitespace and trimming
  // ---------------------------------------------------------------------------

  /** ECMAScript WhiteSpace and LineTerminator code points: what `\s` and `trim` see. */
  predicate IsJsSpace(c: char) {
    c == '\t' || c == '\n' || c == '\U{B}' || c == '\U{C}' || c == '\r' || c == ' '
    || c == '\U{A0}' || c == '\U{1680}' || ('\U{2000}' <= c <= '\U{200A}')
    || c == '\U{2028}' || c == '\U{2029}' || c == '\U{202F}' || c == '\U{205F}'
    || c == '\U{3000}' || c == '\U{FEFF}'
  }

  function TrimStart(s: string): (r: string)
    ensures |r| <= |s|
    ensures |r| > 0 ==> !IsJsSpace(r[0])
    decreases |s|
  {
    if |s| > 0 && IsJsSpace(s[0]) then TrimStart(s[1..]) else s
  }

  function TrimEnd(s: string): (r: string)
    ensures |r| <= |s|
    ensures |r| > 0 ==> !IsJsSpace(r[|r| - 1])
    decreases |s|
  {
    if |s| > 0 && IsJsSpace(s[|s| - 1]) then TrimEnd(s[..|s| - 1]) else s
  }

  /** `s.trim()` */
  function Trim(s: string): (r: string)
    ensures |r| <= |s|
    ensures |r| > 0 ==> !IsJsSpace(r[|r| - 1])
  {
    TrimEnd(TrimStart(s))
  }

  /** A trimmed string has no whitespace at either end. */
  lemma TrimEnds(s: string)
    ensures var r := Trim(s); |r| > 0 ==> !IsJsSpace(r[0]) && !IsJsSpace(r[|r| - 1])
  {
    var t := TrimStart(s);
    TrimEndPrefix(t);
    if |TrimEnd(t)| > 0 {
      assert TrimEnd(t)[0] == t[0];
    }
  }

  /** TrimStart removes a prefix made of whitespace only. */
  lemma {:induction false} TrimStartSuffix(s: string)
    ensures s[|s| - |TrimStart(s)|..] == TrimStart(s)
    ensures forall i :: 0 <= i < |s| - |TrimStart(s)| ==> IsJsSpace(s[i])
    decreases |s|
  {
    if |s| > 0 && IsJsSpace(s[0]) {
      TrimStartSuffix(s[1..]);
    }
  }

  /** TrimEnd removes a suffix made of whitespace only. */
  lemma {:induction false} TrimEndPrefix(s: string)
    ensures s[..|TrimEnd(s)|] == TrimEnd(s)
    ensures forall i :: |TrimEnd(s)| <= i < |s| ==> IsJsSpace(s[i])
    decreases |s|
  {
    if |s| > 0 && IsJsSpace(s[|s| - 1]) {
      TrimEndPrefix(s[..|s| - 1]);
    }
  }

  /** Trimming a string that has no whitespace at either end changes nothing. */
  lemma TrimNoop(s: string)
    requires |s| > 0 ==> !IsJsSpace(s[0]) && !IsJsSpace(s[|s| - 1])
    ensures Trim(s) == s
  {
  }

  // ---------------------------------------------------------------------------
  // Case
  // ---------------------------------------------------------------------------

  function LowerChar(c: char): (r: char)
    ensures 'A' <= c <= 'Z' ==> 'a' <= r <= 'z'
    ensures !('A' <= c <= 'Z') ==> r == c
  {
    if 'A' <= c <= 'Z' then (c as int - 'A' as int + 'a' as int) as char else c
  }

  /** `s.toLowerCase()` restricted to ASCII letters. */
  function Lower(s: string): (r: string)
    ensures |r| == |s|
    ensures forall i :: 0 <= i < |s| ==> r[i] == LowerChar(s[i])
  {
    seq(|s|, i requires 0 <= i < |s| => LowerChar(s[i]))
  }

  lemma LowerIdempotent(s: string)
    ensures Lower(Lower(s)) == Lower(s)
  {
  }

  // ---------------------------------------------------------------------------
  // split / join
  // ---------------------------------------------------------------------------

  /** Index of the first occurrence of `sep` in `s` (`s.indexOf(sep)`, None for -1). */
  function IndexOf(s: string, sep: string): (r: Option<nat>)
    requires |sep| > 0
    ensures r.Some? ==> MatchAt(s, sep, r.value)
    ensures r.Some? ==> forall j :: 0 <= j < r.value ==> !MatchAt(s, sep, j)
    ensures r.None? ==> forall j :: 0 <= j ==> !MatchAt(s, sep, j)
    decreases |s|
  {
    if |s| < |sep| then None
    else if s[..|sep|] == sep then Some(0)
    else
      match IndexOf(s[1..], sep)
      case None =>
        assert forall j :: 1 <= j ==> MatchAt(s, sep, j) ==> MatchAt(s[1..], sep, j - 1);
        None
      case Some(i) =>
        assert forall j :: 1 <= j ==> MatchAt(s, sep, j) ==> MatchAt(s[1..], sep, j - 1);
        assert MatchAt(s, sep, i + 1) by { assert s[1..][i..i + |sep|] == s[i + 1..i + 1 + |sep|]; }
        Some(i + 1)
  }

  /** `s.split(sep)` for a non-empty separator string. */
  function Split(s: string, sep: string): (parts: seq<string>)
    requires |sep| > 0
    ensures |parts| >= 1
    decreases |s|
  {
    match IndexOf(s, sep)
    case None => [s]
    case Some(i) => [s[..i]] + Split(s[i + |sep|..], sep)
  }

  /** `parts.join(sep)` */
  function Join(parts: seq<string>, sep: string): string
    decreases |parts|
  {
    if |parts| == 0 then ""
    else if |parts| == 1 then parts[0]
    else parts[0] + sep + Join(parts[1..], sep)
  }

  /** Splitting and joining with the same separator gives the input back. */
  lemma {:induction false} JoinSplit(s: string, sep: string)
    requires |sep| > 0
    ensures Join(Split(s, sep), sep) == s
    decreases |s|
  {
    match IndexOf(s, sep)
    case None =>
    case Some(i) =>
      var rest := s[i + |sep|..];
      var tail := Split(rest, sep);
      JoinSplit(rest, sep);
      var parts := [s[..i]] + tail;
      assert Split(s, sep) == parts;
      assert parts[0] == s[..i] && parts[1..] == tail;
      assert Join(parts, sep) == s[..i] + sep + rest;
      SplitAt(s, i);
      SuffixSplit(s, i, i + |sep|);
      assert s[i..i + |sep|] == sep;
      AppendAssoc(s[..i], sep, rest);
  }

  /** With a one-character separator, no piece of the split contains that character. */
  lemma {:induction false} SplitCharFree(s: string, c: char, k: int)
    requires 0 <= k < |Split(s, [c])|
    ensures c !in Split(s, [c])[k]
    decreases |s|
  {
    match IndexOf(s, [c])
    case None =>
      forall j | 0 <= j < |s| ensures s[j] != c {
        assert !MatchAt(s, [c], j);
      }
    case Some(i) =>
      if k == 0 {
        forall j | 0 <= j < i ensures s[j] != c {
          assert !MatchAt(s, [c], j);
        }
      } else {
        SplitCharFree(s[i + 1..], c, k - 1);
      }
  }

  /** `.filter(Boolean)` on strings: drop the empty ones. */
  function NonEmpty(parts: seq<string>): (r: seq<string>)
    ensures forall k :: 0 <= k < |r| ==> r[k] != ""
    ensures forall x :: x in r <==> x in parts && x != ""
    ensures |r| <= |parts|
  {
    if |parts| == 0 then []
    else if parts[0] == "" then NonEmpty(parts[1..])
    else [parts[0]] + NonEmpty(parts[1..])
  }

  // ---------------------------------------------------------------------------
  // Numbers
  // ---------------------------------------------------------------------------

  function DigitChar(d: nat): (c: char)
    requires d < 10
    ensures '0' <= c <= '9'
  {
    ('0' as int + d) as char
  }

  /** `String(n)` for a non-negative integer. */
  function NatToString(n: nat): (s: string)
    ensures |s| > 0
    ensures forall i :: 0 <= i < |s| ==> '0' <= s[i] <= '9'
    decreases n
  {
    if n < 10 then [DigitChar(n)] else NatToString(n / 10) + [DigitChar(n % 10)]
  }

  /** `String(n)` for any integer. */
  function IntToString(n: int): (s: string)
    ensures |s| > 0
  {
    if n < 0 then "-" + NatToString(-n) else NatToString(n)
  }

  // ---------------------------------------------------------------------------
  // encodeURIComponent
  // ---------------------------------------------------------------------------

  /** The characters encodeURIComponent leaves as they are. */
  predicate IsUnreserved(c: char) {
    ('A' <= c <= 'Z') || ('a' <= c <= 'z') || ('0' <= c <= '9')
    || c == '-' || c == '_' || c == '.' || c == '!' || c == '~' || c == '*'
    || c == '\'' || c == '(' || c == ')'
  }

  function HexDigit(d: nat): (c: char)
    requires d < 16
    ensures ('0' <= c <= '9') || ('A' <= c <= 'F')
  {
    if d < 10 then ('0' as int + d) as char else ('A' as int + d - 10) as char
  }

  /** `%XY` for one byte. */
  function PercentByte(b: nat): (r: string)
    requires b < 256
    ensures |r| == 3 && r[0] == '%'
    ensures forall i :: 0 <= i < |r| ==> r[i] == '%' || IsUnreserved(r[i])
  {
    ['%', HexDigit(b / 16), HexDigit(b % 16)]
  }

  /** The UTF-8 bytes of a Unicode scalar value. */
  function Utf8(cp: nat): (bytes: seq<nat>)
    requires cp < 0x11_0000
    ensures 1 <= |bytes| <= 4
    ensures forall i :: 0 <= i < |bytes| ==> bytes[i] < 256
  {
    if cp < 0x80 then [cp]
    else if cp < 0x800 then [0xC0 + cp / 0x40, 0x80 + cp % 0x40]
    else if cp < 0x1_0000 then [0xE0 + cp / 0x1000, 0x80 + (cp / 0x40) % 0x40, 0x80 + cp % 0x40]
    else [0xF0 + cp / 0x4_0000, 0x80 + (cp / 0x1000) % 0x40, 0x80 + (cp / 0x40) % 0x40, 0x80 + cp % 0x40]
  }

  function PercentBytes(bytes: seq<nat>): (r: string)
    requires forall i :: 0 <= i < |bytes| ==> bytes[i] < 256
    ensures |r| == 3 * |bytes|
    ensures forall i :: 0 <= i < |r| ==> r[i] == '%' || IsUnreserved(r[i])
  {
    if |bytes| == 0 then "" else PercentByte(bytes[0]) + PercentBytes(bytes[1..])
  }

  function EncodeChar(c: char): (r: string)
    ensures |r| > 0
    ensures forall i :: 0 <= i < |r| ==> r[i] == '%' || IsUnreserved(r[i])
  {
    if IsUnreserved(c) then [c] else PercentBytes(Utf8(c as int))
  }

  /** `encodeURIComponent(s)` (Dafny strings hold no lone surrogates, so it never throws). */
  function EncodeUriComponent(s: string): (r: string)
    ensures |r| >= |s|
    ensures forall i :: 0 <= i < |r| ==> r[i] == '%' || IsUnreserved(r[i])
  {
    if |s| == 0 then "" else EncodeChar(s[0]) + EncodeUriComponent(s[1..])
  }

  /** A string made only of unreserved characters is encoded as itself. */
  lemma {:induction false} EncodeUnreservedIdentity(s: string)
    requires forall i :: 0 <= i < |s| ==> IsUnreserved(s[i])
    ensures EncodeUriComponent(s) == s
    decreases |s|
  {
    if |s| > 0 {
      EncodeUnreservedIdentity(s[1..]);
    }
  }

  // ---------------------------------------------------------------------------
  // decodeURIComponent, the inverse that gives encodeURIComponent its meaning
  // ---------------------------------------------------------------------------

  /** A hex digit in either case. */
  function HexValue(c: char): (v: Option<nat>)
    ensures v.Some? ==> v.value < 16
  {
    if '0' <= c <= '9' then Some(c as int - '0' as int)
    else if 'A' <= c <= 'F' then Some(c as int - 'A' as int + 10)
    else if 'a' <= c <= 'f' then Some(c as int - 'a' as int + 10)
    else None
  }

  /** The first `n` `%XY` escapes of `s`, as bytes. */
  function Escapes(s: string, n: nat): (bytes: Option<seq<nat>>)
    ensures bytes.Some? ==> |bytes.value| == n && 3 * n <= |s|
    ensures bytes.Some? ==> forall i :: 0 <= i < n ==> bytes.value[i] < 256
    decreases n
  {
    if n == 0 then Some([])
    else if |s| < 3 || s[0] != '%' || HexValue(s[1]).None? || HexValue(s[2]).None? then None
    else
      match Escapes(s[3..], n - 1)
      case None => None
      case Some(rest) => Some([HexValue(s[1]).value * 16 + HexValue(s[2]).value] + rest)
  }

  /** The length of a UTF-8 sequence from its lead byte (section 3 of RFC 3629), 0 for a byte that cannot lead. */
  function Utf8Length(lead: nat): (n: nat)
    ensures n <= 4
  {
    if lead < 0x80 then 1
    else if 0xC0 <= lead < 0xE0 then 2
    else if 0xE0 <= lead < 0xF0 then 3
    else if 0xF0 <= lead < 0xF8 then 4
    else 0
  }

  predicate IsContinuation(b: nat) {
    0x80 <= b < 0xC0
  }

  /**
    The scalar value a complete UTF-8 sequence stands for; none for a bad
    continuation byte, an overlong form, a surrogate or a value past U+10FFFF.
   */
  function Utf8Decode(bytes: seq<nat>): (c: Option<char>)
    requires 1 <= |bytes| <= 4 && |bytes| == Utf8Length(bytes[0])
  {
    var cp: int :=
      if |bytes| == 1 then bytes[0]
      else if |bytes| == 2 then (bytes[0] as int - 0xC0) * 0x40 + (bytes[1] as int - 0x80)
      else if |bytes| == 3 then (bytes[0] as int - 0xE0) * 0x1000 + (bytes[1] as int - 0x80) * 0x40 + (bytes[2] as int - 0x80)
      else (bytes[0] as int - 0xF0) * 0x4_0000 + (bytes[1] as int - 0x80) * 0x1000 + (bytes[2] as int - 0x80) * 0x40 + (bytes[3] as int - 0x80);
    var minimal := if |bytes| == 1 then 0 else if |bytes| == 2 then 0x80 else if |bytes| == 3 then 0x800 else 0x1_0000;
    if exists i :: 1 <= i < |bytes| && !IsContinuation(bytes[i]) then None
    else if cp < minimal || 0x11_0000 <= cp || (0xD800 <= cp < 0xE000) then None
    else Some(cp as char)
  }

  /**
    `decodeURIComponent(s)`: every `%XY` run that forms a UTF-8 sequence
    becomes its character, and every other character stays; malformed input
    (the URIError) is none.
   */
  function DecodeUriComponent(s: string): (r: Option<string>)
    decreases |s|
  {
    if |s| == 0 then Some("")
    else if s[0] != '%' then
      match DecodeUriComponent(s[1..])
      case None => None
      case Some(t) => Some([s[0]] + t)
    else
      match Escapes(s, 1)
      case None => None
      case Some(lead) =>
        var n := Utf8Length(lead[0]);
        if n == 0 then None
        else
          match Escapes(s, n)
          case None => None
          case Some(bytes) =>
            if bytes[0] != lead[0] then None
            else
              match Utf8Decode(bytes)
              case None => None
              case Some(c) =>
                match DecodeUriComponent(s[3 * n..])
                case None => None
                case Some(t) => Some([c] + t)
  }

  lemma HexDigitValue(d: nat)
    requires d < 16
    ensures HexValue(HexDigit(d)) == Some(d)
  {
  }

  /** The first k escapes written for `bytes` read back as its first k bytes, whatever follows. */
  lemma {:induction false} EscapesOfPercentBytes(bytes: seq<nat>, rest: string, k: nat)
    requires forall i :: 0 <= i < |bytes| ==> bytes[i] < 256
    requires k <= |bytes|
    ensures Escapes(PercentBytes(bytes) + rest, k) == Some(bytes[..k])
    decreases k
  {
    if k > 0 {
      var b := bytes[0];
      var s := PercentBytes(bytes) + rest;
      assert PercentBytes(bytes) == PercentByte(b) + PercentBytes(bytes[1..]);
      HexDigitValue(b / 16);
      HexDigitValue(b % 16);
      assert s[0] == '%' && s[1] == HexDigit(b / 16) && s[2] == HexDigit(b % 16);
      assert s[3..] == PercentBytes(bytes[1..]) + rest;
      EscapesOfPercentBytes(bytes[1..], rest, k - 1);
      assert bytes[1..][..k - 1] == bytes[1..k];
      assert [b] + bytes[1..k] == bytes[..k];
    }
  }

  /** The lead byte of `Utf8(cp)` announces its length, and the sequence decodes back to `cp`. */
  lemma Utf8RoundTrip(c: char)
    ensures Utf8Length(Utf8(c as int)[0]) == |Utf8(c as int)|
    ensures Utf8Decode(Utf8(c as int)) == Some(c)
  {
    var cp := c as int;
    var bytes := Utf8(cp);
    if cp < 0x80 {
    } else if cp < 0x800 {
      assert (cp / 0x40) * 0x40 + cp % 0x40 == cp;
    } else if cp < 0x1_0000 {
      var q := cp / 0x40;
      assert q * 0x40 + cp % 0x40 == cp;
      assert (q / 0x40) * 0x40 + q % 0x40 == q;
      assert cp / 0x1000 == q / 0x40;
      assert (cp / 0x1000) * 0x1000 + ((cp / 0x40) % 0x40) * 0x40 + cp % 0x40 == cp;
    } else {
      var q := cp / 0x40;
      var q2 := q / 0x40;
      assert q * 0x40 + cp % 0x40 == cp;
      assert q2 * 0x40 + q % 0x40 == q;
      assert (q2 / 0x40) * 0x40 + q2 % 0x40 == q2;
      assert cp / 0x1000 == q2;
      assert cp / 0x4_0000 == q2 / 0x40;
      assert (cp / 0x4_0000) * 0x4_0000 + ((cp / 0x1000) % 0x40) * 0x1000 + ((cp / 0x40) % 0x40) * 0x40 + cp % 0x40 == cp;
    }
  }

  /** Decoding one encoded character in front of anything reads that character and leaves the rest. */
  lemma DecodeEncodedChar(c: char, rest: string)
    ensures EncodeChar(c) != "" && EncodeChar(c)[0] == '%' <==> !IsUnreserved(c)
    ensures DecodeUriComponent(EncodeChar(c) + rest) ==
              match DecodeUriComponent(rest) case None => None case Some(t) => Some([c] + t)
  {
    var s := EncodeChar(c) + rest;
    if IsUnreserved(c) {
      assert s[1..] == rest;
    } else {
      var bytes := Utf8(c as int);
      Utf8RoundTrip(c);
      EscapesOfPercentBytes(bytes, rest, 1);
      EscapesOfPercentBytes(bytes, rest, |bytes|);
      assert bytes[..|bytes|] == bytes;
      assert s[3 * |bytes|..] == rest;
    }
  }

  /** decodeURIComponent undoes encodeURIComponent on every string. */
  lemma {:induction false} EncodeRoundTrip(s: string)
    ensures DecodeUriComponent(EncodeUriComponent(s)) == Some(s)
    decreases |s|
  {
    if |s| > 0 {
      EncodeRoundTrip(s[1..]);
      DecodeEncodedChar(s[0], EncodeUriComponent(s[1..]));
      assert [s[0]] + s[1..] == s;
    }
  }

  /** encodeURIComponent works character by character. */
  lemma {:induction false} EncodeConcat(a: string, b: string)
    ensures EncodeUriComponent(a + b) == EncodeUriComponent(a) + EncodeUriComponent(b)
    decreases |a|
  {
    if |a| > 0 {
      assert (a + b)[1..] == a[1..] + b;
      EncodeConcat(a[1..], b);
    } else {
      assert a + b == b;
    }
  }
}
