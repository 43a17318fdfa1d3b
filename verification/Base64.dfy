/**
 The unpadded URL-safe Base64 of sections 3.2 and 5 of RFC 4648, as the home tokens use it: the encoder
 strips the padding, the decoder puts it back and reads the text with a decoder that skips every
 character outside the alphabet.
 */
module Base64 {
  import opened Wrappers

  type Byte = x: int | 0 <= x < 256

  function Char(sextet: int): char
    requires 0 <= sextet < 64
  {
    if sextet < 26 then ('A' as int + sextet) as char
    else if sextet < 52 then ('a' as int + sextet - 26) as char
    else if sextet < 62 then ('0' as int + sextet - 52) as char
    else if sextet == 62 then '-'
    else '_'
  }

  /** The sextet of a character; `None` outside the alphabet. `+` and `/` read as `-` and `_`. */
  function Sextet(c: char): (r: Option<int>)
    ensures r.Some? ==> 0 <= r.value < 64
  {
    if 'A' <= c <= 'Z' then Some(c as int - 'A' as int)
    else if 'a' <= c <= 'z' then Some(c as int - 'a' as int + 26)
    else if '0' <= c <= '9' then Some(c as int - '0' as int + 52)
    else if c == '-' || c == '+' then Some(62)
    else if c == '_' || c == '/' then Some(63)
    else None
  }

  /** The padded encoding, three bytes to four characters. */
  function Padded(bytes: seq<Byte>): string {
    if |bytes| == 0 then ""
    else if |bytes| == 1 then
      [Char(bytes[0] / 4), Char(bytes[0] % 4 * 16), '=', '=']
    else if |bytes| == 2 then
      [Char(bytes[0] / 4), Char(bytes[0] % 4 * 16 + bytes[1] / 16), Char(bytes[1] % 16 * 4), '=']
    else
      Group(bytes[0], bytes[1], bytes[2]) + Padded(bytes[3..])
  }

  function Group(a: Byte, b: Byte, c: Byte): string {
    [Char(a / 4), Char(a % 4 * 16 + b / 16), Char(b % 16 * 4 + c / 64), Char(c % 64)]
  }

  /** `rstrip("=")`. */
  function Stripped(s: string): string {
    if s != "" && s[|s| - 1] == '=' then Stripped(s[..|s| - 1]) else s
  }

  function Repeat(c: char, n: nat): (s: string)
    ensures |s| == n && forall i | 0 <= i < n :: s[i] == c
  {
    if n == 0 then "" else [c] + Repeat(c, n - 1)
  }

  function Encode(bytes: seq<Byte>): string { Stripped(Padded(bytes)) }

  datatype DecodeError = NotAscii | BadPadding

  predicate Ascii(s: string) { forall c | c in s :: c < 128 as char }

  /** The bits left over after `pos` characters of a quad. */
  predicate Carry(pos: nat, left: nat) {
    (pos == 0 && left == 0) || (pos == 1 && left < 64) || (pos == 2 && left < 16) || (pos == 3 && left < 4)
  }

  /** The lenient decoder, character by character, with its quad position, carried bits and pads seen. */
  function Scan(text: string, pos: nat, left: nat, pads: nat, read: seq<Byte>): Result<seq<Byte>, DecodeError>
    requires Carry(pos, left)
    decreases text
  {
    if text == "" then
      if pos == 0 then Ok(read) else Err(BadPadding)
    else if text[0] == '=' then
      if pos >= 2 && pos + pads + 1 >= 4 then Ok(read)
      else Scan(text[1..], pos, left, if pos >= 2 then pads + 1 else pads, read)
    else
      match Sextet(text[0])
      case None => Scan(text[1..], pos, left, pads, read)
      case Some(v) =>
        if pos == 0 then Scan(text[1..], 1, v, 0, read)
        else if pos == 1 then Scan(text[1..], 2, v % 16, 0, read + [left * 4 + v / 16])
        else if pos == 2 then Scan(text[1..], 3, v % 4, 0, read + [left * 16 + v / 4])
        else Scan(text[1..], 0, 0, 0, read + [left * 64 + v])
  }

  function Decode(text: string): Result<seq<Byte>, DecodeError> {
    var padded := text + Repeat('=', (-|text|) % 4);
    if Ascii(padded) then Scan(padded, 0, 0, 0, []) else Err(NotAscii)
  }

  // ---------------------------------------------------------------- the alphabet

  lemma SextetOfChar(v: int)
    requires 0 <= v < 64
    ensures Sextet(Char(v)) == Some(v)
    ensures Char(v) != '=' && Char(v) != '.' && Char(v) < 128 as char
  {
  }

  /** The URL-safe alphabet (section 5 of RFC 4648). */
  predicate UrlSafe(c: char) { 'A' <= c <= 'Z' || 'a' <= c <= 'z' || '0' <= c <= '9' || c == '-' || c == '_' }

  // ---------------------------------------------------------------- padding comes back

  function PadCount(bytes: seq<Byte>): nat { (3 - |bytes| % 3) % 3 }

  ghost predicate Plain(c: char) { c != '=' && c != '.' && c < 128 as char }

  /** The padded text: plain characters, then `PadCount` pads, four characters to the quad. */
  lemma {:induction false} PaddedShape(bytes: seq<Byte>)
    ensures var s, p := Padded(bytes), PadCount(bytes);
            && |s| % 4 == 0 && p <= |s|
            && (forall i | 0 <= i < |s| - p :: Plain(s[i]))
            && (forall i | |s| - p <= i < |s| :: s[i] == '=')
    decreases |bytes|
  {
    hide Char, Plain;
    if |bytes| >= 3 {
      PaddedShape(bytes[3..]);
      PlainGroup(bytes[0], bytes[1], bytes[2]);
    } else if |bytes| == 2 {
      PlainGroup(bytes[0], bytes[1], 0);
      assert Padded(bytes)[..3] == Group(bytes[0], bytes[1], 0)[..3];
    } else if |bytes| == 1 {
      PlainGroup(bytes[0], 0, 0);
      assert Padded(bytes)[..2] == Group(bytes[0], 0, 0)[..2];
    }
  }

  lemma PlainGroup(a: Byte, b: Byte, c: Byte)
    ensures forall i | 0 <= i < 4 :: Plain(Group(a, b, c)[i])
  {
    SextetOfChar(a / 4);
    SextetOfChar(a % 4 * 16 + b / 16);
    SextetOfChar(b % 16 * 4 + c / 64);
    SextetOfChar(c % 64);
  }

  lemma {:induction false} StrippedIs(s: string, p: nat)
    requires p <= |s| && (forall i | |s| - p <= i < |s| :: s[i] == '=') && (p < |s| ==> s[|s| - p - 1] != '=')
    ensures Stripped(s) == s[..|s| - p]
    decreases p
  {
    if p == 0 {
      assert s[..|s|] == s;
    } else {
      StrippedIs(s[..|s| - 1], p - 1);
      assert s[..|s| - 1][..|s| - p] == s[..|s| - p];
    }
  }

  lemma PadBack(length: int, pads: int)
    requires 0 <= pads && (length + pads) % 4 == 0 && pads < 4
    ensures (-length) % 4 == pads
  {
  }

  /** The encoding is the padded text without its pads, and re-padding gives the padded text back. */
  lemma Repadded(bytes: seq<Byte>)
    ensures Encode(bytes) + Repeat('=', (-|Encode(bytes)|) % 4) == Padded(bytes)
    ensures forall c | c in Encode(bytes) :: Plain(c)
  {
    hide Padded, Stripped;
    var s, p := Padded(bytes), PadCount(bytes);
    PaddedShape(bytes);
    StrippedIs(s, p);
    PadBack(|Encode(bytes)|, p);
  }

  // ---------------------------------------------------------------- the decoder reads it back

  lemma ScanChar(v: int, rest: string, pos: nat, left: nat, pads: nat, read: seq<Byte>)
    requires Carry(pos, left) && 0 <= v < 64
    ensures Scan([Char(v)] + rest, pos, left, pads, read)
         == if pos == 0 then Scan(rest, 1, v, 0, read)
            else if pos == 1 then Scan(rest, 2, v % 16, 0, read + [left * 4 + v / 16])
            else if pos == 2 then Scan(rest, 3, v % 4, 0, read + [left * 16 + v / 4])
            else Scan(rest, 0, 0, 0, read + [left * 64 + v])
  {
    SextetOfChar(v);
    assert ([Char(v)] + rest)[1..] == rest;
  }

  /** Four sextets hold three bytes. */
  lemma Bits(a: Byte, b: Byte, c: Byte)
    ensures var w, x, y, z := a / 4, a % 4 * 16 + b / 16, b % 16 * 4 + c / 64, c % 64;
            && 0 <= w < 64 && 0 <= x < 64 && 0 <= y < 64
            && w * 4 + x / 16 == a && x % 16 * 16 + y / 4 == b && y % 4 * 64 + z == c
  {
  }

  lemma ScanGroup(a: Byte, b: Byte, c: Byte, rest: string, pads: nat, read: seq<Byte>)
    ensures Scan(Group(a, b, c) + rest, 0, 0, pads, read) == Scan(rest, 0, 0, 0, read + [a, b, c])
  {
    hide Scan, Char;
    Bits(a, b, c);
    var w, x, y, z := a / 4, a % 4 * 16 + b / 16, b % 16 * 4 + c / 64, c % 64;
    var xs, ys, zs := [Char(x), Char(y), Char(z)] + rest, [Char(y), Char(z)] + rest, [Char(z)] + rest;
    assert Group(a, b, c) + rest == [Char(w)] + xs && xs == [Char(x)] + ys && ys == [Char(y)] + zs;
    ScanChar(w, xs, 0, 0, pads, read);
    ScanChar(x, ys, 1, w, 0, read);
    ScanChar(y, zs, 2, x % 16, 0, read + [a]);
    ScanChar(z, rest, 3, y % 4, 0, read + [a] + [b]);
    assert read + [a] + [b] + [c] == read + [a, b, c];
  }

  /** The last, incomplete group: its pads end the input. */
  lemma ScanTail(bytes: seq<Byte>, pads: nat, read: seq<Byte>)
    requires |bytes| < 3
    ensures Scan(Padded(bytes), 0, 0, pads, read) == Ok(read + bytes)
  {
    hide Scan, Char;
    if |bytes| == 0 {
      ScanEnd(pads, read);
      assert read + bytes == read;
    } else if |bytes| == 1 {
      var a := bytes[0];
      Bits(a, 0, 0);
      var w, x := a / 4, a % 4 * 16;
      assert Padded(bytes) == [Char(w)] + ([Char(x)] + "==");
      ScanChar(w, [Char(x)] + "==", 0, 0, pads, read);
      ScanChar(x, "==", 1, w, 0, read);
      ScanPads(2, x % 16, read + [a]);
      assert read + bytes == read + [a];
    } else {
      var a, b := bytes[0], bytes[1];
      Bits(a, b, 0);
      var w, x, y := a / 4, a % 4 * 16 + b / 16, b % 16 * 4;
      assert Padded(bytes) == [Char(w)] + ([Char(x)] + ([Char(y)] + "="));
      ScanChar(w, [Char(x)] + ([Char(y)] + "="), 0, 0, pads, read);
      ScanChar(x, [Char(y)] + "=", 1, w, 0, read);
      ScanChar(y, "=", 2, x % 16, 0, read + [a]);
      ScanPads(3, y % 4, read + [a] + [b]);
      assert read + bytes == read + [a] + [b];
    }
  }

  lemma ScanEnd(pads: nat, read: seq<Byte>)
    ensures Scan("", 0, 0, pads, read) == Ok(read)
  {
  }

  lemma ScanPads(pos: nat, left: nat, read: seq<Byte>)
    requires 2 <= pos <= 3 && Carry(pos, left)
    ensures Scan(if pos == 2 then "==" else "=", pos, left, 0, read) == Ok(read)
  {
    assert "=="[1..] == "=";
  }

  lemma {:induction false} ScanPadded(bytes: seq<Byte>, pads: nat, read: seq<Byte>)
    ensures Scan(Padded(bytes), 0, 0, pads, read) == Ok(read + bytes)
    decreases |bytes|
  {
    hide Scan;
    if |bytes| < 3 {
      ScanTail(bytes, pads, read);
    } else {
      ScanGroup(bytes[0], bytes[1], bytes[2], Padded(bytes[3..]), pads, read);
      ScanPadded(bytes[3..], 0, read + [bytes[0], bytes[1], bytes[2]]);
      assert read + [bytes[0], bytes[1], bytes[2]] + bytes[3..] == read + bytes;
    }
  }

  /** Every byte string survives encoding and decoding. */
  lemma RoundTrip(bytes: seq<Byte>)
    ensures Decode(Encode(bytes)) == Ok(bytes)
  {
    hide Scan, Padded, Encode;
    Repadded(bytes);
    ScanPadded(bytes, 0, []);
    assert [] + bytes == bytes;
  }

  lemma EncodeInjective(a: seq<Byte>, b: seq<Byte>)
    requires Encode(a) == Encode(b)
    ensures a == b
  {
    hide Encode, Decode;
    RoundTrip(a);
    RoundTrip(b);
  }

  /** The characters the decoder reads: those of either alphabet. */
  lemma AlphabetOfDecoder(c: char)
    ensures Sextet(c) == None <==> !UrlSafe(c) && c != '+' && c != '/'
  {
  }

  /** Any other character is passed over, wherever it stands; only how much padding is added depends on it. */
  lemma {:induction false} NoiseIsSkipped(before: string, c: char, after: string, pos: nat, left: nat, pads: nat, read: seq<Byte>)
    requires Carry(pos, left) && !UrlSafe(c) && c != '+' && c != '/' && c != '='
    ensures Scan(before + ([c] + after), pos, left, pads, read) == Scan(before + after, pos, left, pads, read)
    decreases |before|
  {
    AlphabetOfDecoder(c);
    if before == "" {
      assert before + ([c] + after) == [c] + after && before + after == after && ([c] + after)[1..] == after;
    } else {
      var rest := before[1..];
      assert before + ([c] + after) == [before[0]] + (rest + ([c] + after)) && before + after == [before[0]] + (rest + after);
      ScanFirst(before[0], rest + ([c] + after), pos, left, pads, read);
      ScanFirst(before[0], rest + after, pos, left, pads, read);
      hide Scan;
      if before[0] == '=' {
        if !(pos >= 2 && pos + pads + 1 >= 4) { NoiseIsSkipped(rest, c, after, pos, left, if pos >= 2 then pads + 1 else pads, read); }
      } else if Sextet(before[0]) == None {
        NoiseIsSkipped(rest, c, after, pos, left, pads, read);
      } else {
        var v := Sextet(before[0]).value;
        if pos == 0 {
          NoiseIsSkipped(rest, c, after, 1, v, 0, read);
        } else if pos == 1 {
          NoiseIsSkipped(rest, c, after, 2, v % 16, 0, read + [left * 4 + v / 16]);
        } else if pos == 2 {
          NoiseIsSkipped(rest, c, after, 3, v % 4, 0, read + [left * 16 + v / 4]);
        } else {
          NoiseIsSkipped(rest, c, after, 0, 0, 0, read + [left * 64 + v]);
        }
      }
    }
  }

  lemma ScanFirst(c: char, rest: string, pos: nat, left: nat, pads: nat, read: seq<Byte>)
    requires Carry(pos, left)
    ensures Scan([c] + rest, pos, left, pads, read) ==
            if c == '=' then
              if pos >= 2 && pos + pads + 1 >= 4 then Ok(read) else Scan(rest, pos, left, if pos >= 2 then pads + 1 else pads, read)
            else
              match Sextet(c)
              case None => Scan(rest, pos, left, pads, read)
              case Some(v) =>
                if pos == 0 then Scan(rest, 1, v, 0, read)
                else if pos == 1 then Scan(rest, 2, v % 16, 0, read + [left * 4 + v / 16])
                else if pos == 2 then Scan(rest, 3, v % 4, 0, read + [left * 16 + v / 4])
                else Scan(rest, 0, 0, 0, read + [left * 64 + v])
  {
    assert ([c] + rest)[1..] == rest;
  }

  /** Text outside ASCII is refused as such. */
  lemma RefusesNonAscii(text: string)
    ensures Decode(text) == Err(NotAscii) <==> exists c :: c in text && c as int >= 128
  {
    hide Scan;
    var pads := Repeat('=', (-|text|) % 4);
    forall c | c in text + pads ensures c in text || c == '=' {}
    if c :| c in text && c as int >= 128 { assert c in text + pads; }
    if forall c | c in text :: (c as int) < 128 {
      assert Ascii(text + pads);
      NeverNotAscii(text + pads, 0, 0, 0, []);
    }
  }

  lemma {:induction false} NeverNotAscii(text: string, pos: nat, left: nat, pads: nat, read: seq<Byte>)
    requires Carry(pos, left)
    ensures Scan(text, pos, left, pads, read) != Err(NotAscii)
    decreases |text|
  {
    if text != "" {
      assert text == [text[0]] + text[1..];
      ScanFirst(text[0], text[1..], pos, left, pads, read);
      hide Scan;
      if text[0] == '=' {
        NeverNotAscii(text[1..], pos, left, if pos >= 2 then pads + 1 else pads, read);
      } else if Sextet(text[0]) == None {
        NeverNotAscii(text[1..], pos, left, pads, read);
      } else {
        var v := Sextet(text[0]).value;
        if pos == 0 {
          NeverNotAscii(text[1..], 1, v, 0, read);
        } else if pos == 1 {
          NeverNotAscii(text[1..], 2, v % 16, 0, read + [left * 4 + v / 16]);
        } else if pos == 2 {
          NeverNotAscii(text[1..], 3, v % 4, 0, read + [left * 16 + v / 4]);
        } else {
          NeverNotAscii(text[1..], 0, 0, 0, read + [left * 64 + v]);
        }
      }
    }
  }

  /** Each sextet but the first of a quad completes a byte. */
  lemma ScanSextet(c: char, rest: string, pos: nat, left: nat, read: seq<Byte>) returns (after: nat, more: seq<Byte>)
    requires Carry(pos, left) && UrlSafe(c)
    ensures var next := if pos == 3 then 0 else pos + 1;
            Carry(next, after) && |more| == |read| + (if pos == 0 then 0 else 1)
            && Scan([c] + rest, pos, left, 0, read) == Scan(rest, next, after, 0, more)
  {
    AlphabetOfDecoder(c);
    ScanFirst(c, rest, pos, left, 0, read);
    hide Scan;
    var v := Sextet(c).value;
    if pos == 0 {
      after, more := v, read;
    } else if pos == 1 {
      after, more := v % 16, read + [left * 4 + v / 16];
    } else if pos == 2 {
      after, more := v % 4, read + [left * 16 + v / 4];
    } else {
      after, more := 0, read + [left * 64 + v];
    }
  }

  lemma {:induction false} ScanSextets(text: string, pads: string, pos: nat, left: nat, read: seq<Byte>)
    returns (after: nat, more: seq<Byte>)
    requires Carry(pos, left) && forall c | c in text :: UrlSafe(c)
    ensures Carry((pos + |text|) % 4, after) && |more| == |read| + 3 * (pos + |text|) / 4 - 3 * pos / 4
    ensures Scan(text + pads, pos, left, 0, read) == Scan(pads, (pos + |text|) % 4, after, 0, more)
    decreases |text|
  {
    hide Scan, UrlSafe;
    if text == "" {
      assert text + pads == pads;
      after, more := left, read;
    } else {
      var rest := text[1..];
      assert text + pads == [text[0]] + (rest + pads);
      after, more := ScanSextet(text[0], rest + pads, pos, left, read);
      Quads(pos, |text|);
      after, more := ScanSextets(rest, pads, if pos == 3 then 0 else pos + 1, after, more);
    }
  }

  lemma Quads(pos: nat, n: nat)
    requires pos < 4 && n > 0
    ensures var next := if pos == 3 then 0 else pos + 1;
            && (next + (n - 1)) % 4 == (pos + n) % 4
            && 3 * (next + (n - 1)) / 4 - 3 * next / 4 + (if pos == 0 then 0 else 1) == 3 * (pos + n) / 4 - 3 * pos / 4
  {
  }

  /** A text in the alphabet decodes unless one character is left over, and to three bytes for four characters. */
  lemma DecodesIff(text: string)
    requires forall c | c in text :: UrlSafe(c)
    ensures Decode(text) == Err(BadPadding) <==> |text| % 4 == 1
    ensures |text| % 4 != 1 ==> Decode(text).Ok? && |Decode(text).value| == 3 * |text| / 4
  {
    hide Scan, UrlSafe;
    var pads := Repeat('=', (-|text|) % 4);
    assert Ascii(text + pads) by {
      forall c | c in text + pads ensures c < 128 as char { if c in text { UrlSafeIsAscii(c); } }
    }
    var after, more := ScanSextets(text, pads, 0, 0, []);
    var pos := |text| % 4;
    if pos == 0 {
      ScanEnd(0, more);
      assert pads == "";
    } else if pos == 1 {
      assert pads == "===";
      ScanLeftOver(after, more);
    } else {
      assert pads == if pos == 2 then "==" else "=";
      ScanPads(pos, after, more);
    }
  }

  lemma UrlSafeIsAscii(c: char)
    requires UrlSafe(c)
    ensures c < 128 as char
  {
  }

  lemma ScanLeftOver(left: nat, read: seq<Byte>)
    requires Carry(1, left)
    ensures Scan("===", 1, left, 0, read) == Err(BadPadding)
  {
    assert "==="[1..] == "==" && "=="[1..] == "=" && "="[1..] == "";
  }

  /** Decoding is not injective: the bits a short group leaves over are dropped, so texts are signed, not bytes. */
  lemma DecodeForgets(v: int, tail: int)
    requires 0 <= v < 64 && 0 <= tail < 16
    ensures Decode([Char(v), Char(v % 4 * 16 + tail)]) == Ok([v * 4 + v % 4])
  {
    hide Scan, Char;
    var w := v % 4 * 16 + tail;
    var text := [Char(v), Char(w)];
    SextetOfChar(v);
    SextetOfChar(w);
    var pads := Repeat('=', 2);
    assert (-|text|) % 4 == 2 && pads == "==";
    assert text + pads == [Char(v)] + ([Char(w)] + "==");
    ScanChar(v, [Char(w)] + "==", 0, 0, 0, []);
    ScanChar(w, "==", 1, v, 0, []);
    ScanPads(2, w % 16, [] + [v * 4 + w / 16]);
    assert w / 16 == v % 4;
    assert text + pads == [Char(v), Char(w), '=', '='];
    assert Ascii(text + pads);
    assert Decode(text) == Scan(text + pads, 0, 0, 0, []);
    assert [] + [v * 4 + w / 16] == [v * 4 + w / 16];
  }

  /** An encoding is written in the URL-safe alphabet alone: it needs no escaping in a link or a header. */
  lemma OnlyUrlSafe(bytes: seq<Byte>)
    ensures forall c | c in Encode(bytes) :: UrlSafe(c)
  {
    hide Padded, Stripped, UrlSafe;
    PaddedUrlSafe(bytes);
    PaddedShape(bytes);
    StrippedIs(Padded(bytes), PadCount(bytes));
    forall c | c in Encode(bytes) ensures UrlSafe(c) {
      var i :| 0 <= i < |Encode(bytes)| && Encode(bytes)[i] == c;
      assert Padded(bytes)[i] == c && Plain(c);
    }
  }

  lemma {:induction false} PaddedUrlSafe(bytes: seq<Byte>)
    ensures forall c | c in Padded(bytes) :: UrlSafe(c) || c == '='
  {
    hide Char, UrlSafe;
    forall v | 0 <= v < 64 ensures UrlSafe(Char(v)) { CharUrlSafe(v); }
    if |bytes| >= 3 { PaddedUrlSafe(bytes[3..]); }
  }

  lemma CharUrlSafe(v: int)
    requires 0 <= v < 64
    ensures UrlSafe(Char(v))
  {
  }

  lemma EncodedAs(bytes: seq<Byte>, text: string, pads: nat)
    requires pads <= |text| && Padded(bytes) == text && (forall i | |text| - pads <= i < |text| :: text[i] == '=')
    requires pads < |text| ==> text[|text| - pads - 1] != '='
    ensures Encode(bytes) == text[..|text| - pads]
  {
    StrippedIs(text, pads);
  }

  /** The examples of section 10 of RFC 4648, without their pads. */
  lemma Rfc4648Vectors()
    ensures Encode([]) == "" && Encode([0x66]) == "Zg" && Encode([0x66, 0x6f]) == "Zm8" && Encode([0x66, 0x6f, 0x6f]) == "Zm9v"
    ensures Encode([0x66, 0x6f, 0x6f, 0x62, 0x61, 0x72]) == "Zm9vYmFy"
  {
    hide Stripped, Encode, Padded;
    NoByte();
    EncodedAs([], "", 0);
    OneByte();
    EncodedAs([0x66], "Zg==", 2);
    TwoBytes();
    EncodedAs([0x66, 0x6f], "Zm8=", 1);
    MoreGroups(0x66, 0x6f, 0x6f, []);
    assert [0x66, 0x6f, 0x6f] + [] == [0x66, 0x6f, 0x6f] && "Zm9v" + "" == "Zm9v";
    EncodedAs([0x66, 0x6f, 0x6f], "Zm9v", 0);
    MoreGroups(0x62, 0x61, 0x72, []);
    assert [0x62, 0x61, 0x72] + [] == [0x62, 0x61, 0x72] && "YmFy" + "" == "YmFy";
    MoreGroups(0x66, 0x6f, 0x6f, [0x62, 0x61, 0x72]);
    assert [0x66, 0x6f, 0x6f] + [0x62, 0x61, 0x72] == [0x66, 0x6f, 0x6f, 0x62, 0x61, 0x72] && "Zm9v" + "YmFy" == "Zm9vYmFy";
    EncodedAs([0x66, 0x6f, 0x6f, 0x62, 0x61, 0x72], "Zm9vYmFy", 0);
  }

  lemma NoByte()
    ensures Padded([]) == ""
  {
  }

  lemma OneByte()
    ensures Padded([0x66]) == "Zg=="
  {
  }

  lemma TwoBytes()
    ensures Padded([0x66, 0x6f]) == "Zm8="
  {
  }

  lemma MoreGroups(a: Byte, b: Byte, c: Byte, rest: seq<Byte>)
    ensures Padded([a, b, c] + rest) == Group(a, b, c) + Padded(rest)
    ensures Group(0x66, 0x6f, 0x6f) == "Zm9v" && Group(0x62, 0x61, 0x72) == "YmFy"
  {
    var all := [a, b, c] + rest;
    assert all[0] == a && all[1] == b && all[2] == c && all[3..] == rest;
  }

  /** The two characters in which the URL-safe alphabet differs. */
  lemma UrlSafeVector()
    ensures Encode([0xfb, 0xff]) == "-_8"
  {
    hide Stripped, Encode;
    EncodedAs([0xfb, 0xff], "-_8=", 1);
  }
}
