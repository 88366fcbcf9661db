/** `preprocess_string`, which undoes form encoding in place, and `html_escape`. */
module TextTransforms {
  import opened Bytes

  // ---------- Form decoding ----------

  const PERCENT: byte := 37
  const PLUS: byte := 43
  const SPACE: byte := 32

  function ToUpper(c: byte): byte {
    if 97 <= c <= 122 then c - 32 else c
  }

  /** The 8-bit value the source gives one hexadecimal digit, and to any other byte. */
  function HexValue(c: byte): byte {
    if c <= 57 then (c - 48) % 256 else (ToUpper(c) as int - 65 + 10) % 256
  }

  function Decode(s: bytes): (r: bytes)
    ensures |r| <= |s|
    decreases |s|
  {
    if s == [] then []
    else if s[0] == PERCENT && |s| >= 3 then
      [(HexValue(s[1]) as int * 16 % 256 + HexValue(s[2]) as int) % 256] + Decode(s[3..])
    else if s[0] == PLUS then [SPACE] + Decode(s[1..])
    else [s[0]] + Decode(s[1..])
  }

  /** The string `a[..n]` ends at its first NUL. */
  ghost predicate Terminated(a: seq<byte>, n: nat) {
    n < |a| && a[n] == 0 && forall i :: 0 <= i < n ==> a[i] != 0
  }

  lemma DecodeAt(src: bytes, p: nat)
    requires p < |src|
    ensures src[p] == PERCENT && p + 2 < |src| ==>
              Decode(src[p..]) == [(HexValue(src[p + 1]) as int * 16 % 256 + HexValue(src[p + 2]) as int) % 256]
                                  + Decode(src[p + 3..])
    ensures src[p] == PLUS ==> Decode(src[p..]) == [SPACE] + Decode(src[p + 1..])
    ensures !(src[p] == PERCENT && p + 2 < |src|) && src[p] != PLUS ==>
              Decode(src[p..]) == [src[p]] + Decode(src[p + 1..])
  {
    var rest := src[p..];
    assert rest[1..] == src[p + 1..];
    if |rest| >= 3 {
      assert rest[3..] == src[p + 3..];
    }
  }

  /** The body of the loop up to the store: the byte decoded at `p`, and the last position read for it. */
  method ReadEncoded(str: array<byte>, p: nat, ghost src: bytes) returns (a: byte, last: nat)
    requires p < |src| < str.Length && str[|src|] == 0
    requires forall i :: p <= i < |src| ==> str[i] == src[i]
    requires forall i :: 0 <= i < |src| ==> src[i] != 0
    ensures p <= last < |src| && Decode(src[p..]) == [a] + Decode(src[last + 1..])
  {
    DecodeAt(src, p);
    last := p;
    if str[last] == PERCENT && str[last + 1] != 0 && str[last + 2] != 0 {
      assert p + 2 < |src|;
      last := last + 1;
      a := HexValue(str[last]);
      a := a as int * 16 % 256;
      last := last + 1;
      a := (a as int + HexValue(str[last]) as int) % 256;
    } else if str[last] == PLUS {
      a := SPACE;
    } else {
      a := str[last];
    }
  }

  lemma MoveOn(done: bytes, a: byte, rest: bytes, next: bytes)
    requires rest == [a] + next
    ensures done + rest == (done + [a]) + next
  {
  }

  /** The loop. The reader `p` never falls behind the writer `q`, so what is still to be read is unchanged. */
  method DecodeInPlace(str: array<byte>, ghost src: bytes) returns (q: nat, ghost written: bytes)
    requires |src| < str.Length && str[|src|] == 0 && forall i :: 0 <= i < |src| ==> str[i] == src[i] != 0
    modifies str
    ensures written == Decode(src) && q == |written| <= |src|
    ensures forall i :: 0 <= i < q ==> str[i] == written[i]
    ensures forall i :: q <= i < str.Length ==> str[i] == old(str[i])
  {
    var p: nat := 0;
    q, written := 0, [];
    assert src[0..] == src;
    while str[p] != 0
      invariant q == |written| <= p <= |src|
      invariant forall i :: q <= i < str.Length ==> str[i] == old(str[i])
      invariant forall i :: 0 <= i < q ==> str[i] == written[i]
      invariant written + Decode(src[p..]) == Decode(src)
      decreases |src| - p
    {
      var a, last := ReadEncoded(str, p, src);
      MoveOn(written, a, Decode(src[p..]), Decode(src[last + 1..]));
      str[q] := a;
      written := written + [a];
      q := q + 1;
      p := last + 1;
    }
    assert src[p..] == [];
  }

  /** The string becomes its decoding, with a NUL after it; every byte after that NUL is as it was. */
  method PreprocessString(str: array<byte>, ghost n: nat)
    requires Terminated(str[..], n)
    modifies str
    ensures var d := Decode(old(str[..n]));
            && str[..|d|] == d && str[|d|] == 0
            && forall i :: |d| < i < str.Length ==> str[i] == old(str[i])
  {
    var q, written := DecodeInPlace(str, str[..n]);
    str[q] := 0;
  }

  /** How one byte may be sent. RFC 3986 section 2.1 gives the escape, in either case of hexadecimal digit;
      HTML 4.01 section 17.13.4 the plus sign for a space. Only bytes other than `%` and `+` may stand for
      themselves. */
  predicate Encodes(e: bytes, c: byte) {
    || (e == [c] && c != PERCENT && c != PLUS)
    || (c == SPACE && e == [PLUS])
    || (|e| == 3 && e[0] == PERCENT && IsHexDigit(e[1], c / 16) && IsHexDigit(e[2], c % 16))
  }

  predicate IsHexDigit(d: byte, v: byte) {
    v < 16 && if v < 10 then d == 48 + v else d == 55 + v || d == 87 + v
  }

  /** `parts` encodes `s` byte by byte, each byte in any permitted way. */
  predicate EncodesAll(parts: seq<bytes>, s: bytes) {
    |parts| == |s| && forall i :: 0 <= i < |s| ==> Encodes(parts[i], s[i])
  }

  lemma HexDigitValue(d: byte, v: byte)
    requires IsHexDigit(d, v)
    ensures HexValue(d) == v
  {
  }

  lemma HexPairValue(e: bytes, c: byte)
    requires |e| == 3 && IsHexDigit(e[1], c / 16) && IsHexDigit(e[2], c % 16)
    ensures (HexValue(e[1]) as int * 16 % 256 + HexValue(e[2]) as int) % 256 == c
  {
    HexDigitValue(e[1], c / 16);
    HexDigitValue(e[2], c % 16);
  }

  lemma DecodeOne(e: bytes, c: byte, rest: bytes)
    requires Encodes(e, c)
    ensures Decode(e + rest) == [c] + Decode(rest)
  {
    var all := e + rest;
    if |e| == 3 {
      HexPairValue(e, c);
      assert all[3..] == rest;
    } else {
      assert all[1..] == rest;
    }
  }

  /** Decoding inverts every permitted encoding of every byte string. */
  lemma {:induction false} DecodeInverts(parts: seq<bytes>, s: bytes)
    requires EncodesAll(parts, s)
    ensures Decode(Flatten(parts)) == s
    decreases |s|
  {
    if s != [] {
      DecodeInverts(parts[1..], s[1..]);
      DecodeOne(parts[0], s[0], Flatten(parts[1..]));
    }
  }

  // ---------- HTML escaping ----------

  /** The six bytes replaced: backslash, the two quotes, ampersand, number sign and semicolon. */
  predicate Special(c: byte) {
    c == 92 || c == 39 || c == 34 || c == 38 || c == 35 || c == 59
  }

  function EscapeByte(c: byte): bytes {
    if Special(c) then [38, 35, 48 + c / 10, 48 + c % 10, 59] else [c]
  }

  function Escape(s: bytes): bytes {
    if s == [] then [] else EscapeByte(s[0]) + Escape(s[1..])
  }

  lemma {:induction false} EscapeSnoc(s: bytes, i: nat)
    requires i < |s|
    ensures Escape(s[..i + 1]) == Escape(s[..i]) + EscapeByte(s[i])
    decreases i
  {
    if i == 0 {
      assert s[..1][1..] == [];
    } else {
      EscapeSnoc(s[1..], i - 1);
      assert s[..i + 1][1..] == s[1..][..i] && s[..i][1..] == s[1..][..i - 1];
    }
  }

  lemma {:induction false} EscapeGrows(s: bytes, i: nat)
    requires i <= |s|
    ensures |Escape(s[..i])| <= |Escape(s)|
    decreases |s| - i
  {
    if i < |s| {
      EscapeSnoc(s, i);
      EscapeGrows(s, i + 1);
    } else {
      assert s[..i] == s;
    }
  }

  /** The first pass: the size to allocate. */
  method EscapedSize(src: array<byte>, n: nat) returns (escLen: nat)
    requires n < src.Length
    ensures escLen == |Escape(src[..n])| + 1
  {
    ghost var s := src[..n];
    escLen := n + 1;
    var i: nat := 0;
    while i < n
      invariant i <= n
      invariant escLen == |Escape(s[..i])| + (n - i) + 1
    {
      EscapeSnoc(s, i);
      if Special(src[i]) {
        escLen := escLen + 4;
      }
      i := i + 1;
    }
    assert s[..n] == s;
  }

  method PutEscaped(res: array<byte>, j: nat, c: byte) returns (next: nat)
    requires j + |EscapeByte(c)| <= res.Length
    modifies res
    ensures next == j + |EscapeByte(c)| && res[..next] == old(res[..j]) + EscapeByte(c)
  {
    if Special(c) {
      res[j] := 38;
      res[j + 1] := 35;
      res[j + 2] := 48 + c / 10;
      res[j + 3] := 48 + c % 10;
      res[j + 4] := 59;
      next := j + 5;
    } else {
      res[j] := c;
      next := j + 1;
    }
  }

  /** The second pass writes exactly what the first one counted, and the terminator. `n` is `strlen(src)`. */
  method HtmlEscape(src: array<byte>, n: nat) returns (res: array<byte>)
    requires Terminated(src[..], n)
    ensures fresh(res) && res[..] == Escape(src[..n]) + [0]
  {
    ghost var s := src[..n];
    var escLen := EscapedSize(src, n);
    res := new byte[escLen];
    var j: nat := 0;
    var i: nat := 0;
    while i < n
      invariant i <= n && src[..n] == s
      invariant j == |Escape(s[..i])| < res.Length
      invariant res[..j] == Escape(s[..i])
    {
      EscapeSnoc(s, i);
      EscapeGrows(s, i + 1);
      j := PutEscaped(res, j, src[i]);
      i := i + 1;
    }
    assert s[..n] == s;
    res[j] := 0;
  }

  // ---------- What the escaped text means ----------

  predicate Digit(c: byte) {
    48 <= c <= 57
  }

  /** A two-digit numeric character reference, HTML 4.01 section 5.3.1, at the front of `s`. */
  predicate Reference(s: bytes) {
    |s| >= 5 && s[0] == 38 && s[1] == 35 && Digit(s[2]) && Digit(s[3]) && s[4] == 59
  }

  /** What a reader of such references sees. */
  function Unescape(s: bytes): bytes
    decreases |s|
  {
    if s == [] then []
    else if Reference(s) then [(s[2] - 48) * 10 + (s[3] - 48)] + Unescape(s[5..])
    else [s[0]] + Unescape(s[1..])
  }

  /** Reading the escaped text gives back the original. */
  lemma {:induction false} UnescapeInverts(s: bytes)
    ensures Unescape(Escape(s)) == s
  {
    if s != [] {
      var c, rest := s[0], Escape(s[1..]);
      UnescapeInverts(s[1..]);
      var all := EscapeByte(c) + rest;
      if Special(c) {
        assert all[5..] == rest;
        assert all[2] == 48 + c / 10 && all[3] == 48 + c % 10;
        assert Reference(all);
      } else {
        assert all[0] == c && all[1..] == rest;
      }
      assert s == [c] + s[1..];
    }
  }

  /** No quote and no backslash is left, and every ampersand begins a reference. */
  lemma {:induction false} EscapedIsSafe(s: bytes, k: nat)
    requires k < |Escape(s)|
    ensures Escape(s)[k] != 34 && Escape(s)[k] != 39 && Escape(s)[k] != 92
    ensures Escape(s)[k] == 38 ==> Reference(Escape(s)[k..])
  {
    var e, rest := EscapeByte(s[0]), Escape(s[1..]);
    assert Escape(s) == e + rest;
    if k >= |e| {
      EscapedIsSafe(s[1..], k - |e|);
      assert Escape(s)[k..] == rest[k - |e|..];
    } else {
      assert Escape(s)[k] == e[k];
      if k == 0 && Special(s[0]) {
        assert Escape(s)[0..] == e + rest;
        assert s[0] / 10 <= 9;
      }
    }
  }

  // ---------- Byte by byte ----------

  /** Exactly these six bytes become references to themselves: the quotes, number sign, ampersand, semicolon,
      backslash. */
  lemma EscapeOne(c: byte)
    ensures Escape([c]) ==
            if c in {34, 35, 38, 39, 59, 92} then [38, 35, 48 + c as int / 10, 48 + c as int % 10, 59] else [c]
  {
    assert [c][1..] == [];
    assert Escape([]) == [];
  }

  /** The text is escaped byte by byte, so the two together fix the result for every string. */
  lemma {:induction false} EscapeAppend(a: bytes, b: bytes)
    ensures Escape(a + b) == Escape(a) + Escape(b)
  {
    if a == [] {
      assert a + b == b && Escape(a) + Escape(b) == Escape(b);
    } else {
      EscapeAppend(a[1..], b);
      assert (a + b)[1..] == a[1..] + b && (a + b)[0] == a[0];
      Regroup(EscapeByte(a[0]), Escape(a[1..]), Escape(b));
    }
  }

  lemma Regroup(x: bytes, y: bytes, z: bytes)
    ensures x + (y + z) == x + y + z
  {
  }

  /** "a#b" becomes "a&#35;b". */
  lemma NumberSignEscaped()
    ensures Escape([97, 35, 98]) == [97, 38, 35, 51, 53, 59, 98]
  {
    EscapeAppend([97], [35, 98]);
    EscapeAppend([35], [98]);
    EscapeOne(97);
    EscapeOne(35);
    EscapeOne(98);
    assert [97] + [35, 98] == [97, 35, 98] && [35] + [98] == [35, 98];
  }

  /** The number the source makes of a byte after `%`: the digit's value, and for anything else what the same arithmetic
      gives. */
  lemma DigitValues()
    ensures forall c: byte :: 48 <= c <= 57 ==> HexValue(c) == c - 48
    ensures forall c: byte :: 65 <= c <= 90 ==> HexValue(c) == c - 55
    ensures forall c: byte :: 97 <= c <= 122 ==> HexValue(c) == c - 87
    ensures forall c: byte :: c < 48 ==> HexValue(c) == 208 + c
    ensures forall c: byte :: 58 <= c <= 64 || 91 <= c <= 96 || 123 <= c ==> HexValue(c) == (c as int + 201) % 256
  {
  }

  /** Two bytes after `%` are one byte. */
  lemma DecodePair(a: byte, b: byte, rest: bytes)
    ensures Decode([37, a, b] + rest) == [(16 * HexValue(a) as int + HexValue(b) as int) % 256] + Decode(rest)
  {
    var all := [37, a, b] + rest;
    assert all[3..] == rest && all[1] == a && all[2] == b;
    Sixteenfold(HexValue(a), HexValue(b));
  }

  lemma Sixteenfold(a: byte, b: byte)
    ensures (a as int * 16 % 256 + b as int) % 256 == (16 * a as int + b as int) % 256
  {
  }

  /** `+` is a space; a `%` too near the end and every other byte stand for themselves. */
  lemma DecodeSingle(c: byte, rest: bytes)
    requires c == 37 ==> |rest| < 2
    ensures Decode([c] + rest) == [if c == 43 then 32 else c] + Decode(rest)
  {
    assert ([c] + rest)[1..] == rest;
  }
}
