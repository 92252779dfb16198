/**
 * The base64url codec of RFC 4648 section 5 as the sign-in code uses it.
 * A challenge or credential id is written with `base64.urlsafe_b64encode(..).rstrip("=")`
 * (AuthManager.py lines 120, 162, 163, 208) and read back with the WebAuthn library's
 * `base64url_to_bytes`. That library is not part of this model: its decoder is taken to restore
 * the padding to a multiple of four and decode strictly, which on every unpadded encoding gives
 * the same bytes as any decoder that accepts the missing padding.
 */
module Base64Url {
  import opened Wrappers

  /** A byte, and a six-bit value carried by one symbol. */
  type byte = x: int | 0 <= x < 256
  type sextet = x: int | 0 <= x < 64

  /** The characters of the URL- and filename-safe alphabet. */
  predicate IsSymbol(c: char) {
    ('A' <= c <= 'Z') || ('a' <= c <= 'z') || ('0' <= c <= '9') || c == '-' || c == '_'
  }

  /** The symbol for a six-bit value. */
  function Symbol(v: sextet): (c: char)
    ensures IsSymbol(c)
  {
    if v < 26 then ('A' as int + v) as char
    else if v < 52 then ('a' as int + (v - 26)) as char
    else if v < 62 then ('0' as int + (v - 52)) as char
    else if v == 62 then '-'
    else '_'
  }

  /** The six-bit value of a symbol. */
  function Value(c: char): sextet
    requires IsSymbol(c)
  {
    if 'A' <= c <= 'Z' then c as int - 'A' as int
    else if 'a' <= c <= 'z' then c as int - 'a' as int + 26
    else if '0' <= c <= '9' then c as int - '0' as int + 52
    else if c == '-' then 62
    else 63
  }

  lemma ValueOfSymbol(v: sextet)
    ensures Value(Symbol(v)) == v
  {
  }

  // ---------------------------------------------------------------- encoding

  /** Splitting three bytes b0 b1 b2 into four six-bit values: the top six bits of b0, the low two
      bits of b0 before the top four of b1, the low four of b1 before the top two of b2, the low
      six of b2. */
  function Split0(b0: byte): sextet { b0 / 4 }
  function Split1(b0: byte, b1: byte): sextet { b0 % 4 * 16 + b1 / 16 }
  function Split2(b1: byte, b2: byte): sextet { b1 % 16 * 4 + b2 / 64 }
  function Split3(b2: byte): sextet { b2 % 64 }

  /** Joining six-bit values back into bytes. */
  function Join0(v0: sextet, v1: sextet): byte { v0 as int * 4 + v1 as int / 16 }
  function Join1(v1: sextet, v2: sextet): byte { v1 as int % 16 * 16 + v2 as int / 4 }
  function Join2(v2: sextet, v3: sextet): byte { v2 as int % 4 * 64 + v3 as int }

  lemma JoinSplit0(b0: byte, b1: byte)
    ensures Join0(Split0(b0), Split1(b0, b1)) == b0
  {
    var q := b0 % 4;
    var r := b1 / 16;
    assert 0 <= r < 16;
    assert (q * 16 + r) / 16 == q;
  }

  lemma JoinSplit1(b0: byte, b1: byte, b2: byte)
    ensures Join1(Split1(b0, b1), Split2(b1, b2)) == b1
  {
    var q := b0 % 4;
    var r := b1 / 16;
    assert (q * 16 + r) % 16 == r;
    var s := b1 % 16;
    var t := b2 / 64;
    assert 0 <= t < 4;
    assert (s * 4 + t) / 4 == s;
  }

  lemma JoinSplit2(b1: byte, b2: byte)
    ensures Join2(Split2(b1, b2), Split3(b2)) == b2
  {
    var s := b1 % 16;
    var t := b2 / 64;
    assert (s * 4 + t) % 4 == t;
  }

  /** Three bytes as four symbols. */
  function Quad(b0: byte, b1: byte, b2: byte): string {
    [Symbol(Split0(b0)), Symbol(Split1(b0, b1)), Symbol(Split2(b1, b2)), Symbol(Split3(b2))]
  }

  /** Two trailing bytes as three symbols (the missing third byte counts as zero). */
  function Triple(b0: byte, b1: byte): string {
    [Symbol(Split0(b0)), Symbol(Split1(b0, b1)), Symbol(Split2(b1, 0))]
  }

  /** One trailing byte as two symbols. */
  function Pair(b0: byte): string {
    [Symbol(Split0(b0)), Symbol(Split1(b0, 0))]
  }

  /** `base64.urlsafe_b64encode`: the last group is padded with `=` to four characters. */
  function Encode(b: seq<byte>): string
    decreases |b|
  {
    if |b| >= 3 then Quad(b[0], b[1], b[2]) + Encode(b[3..])
    else if |b| == 2 then Triple(b[0], b[1]) + "="
    else if |b| == 1 then Pair(b[0]) + "=="
    else ""
  }

  /** `str.rstrip("=")`. */
  function StripPadding(s: string): (r: string)
    decreases |s|
  {
    if |s| > 0 && s[|s| - 1] == '=' then StripPadding(s[..|s| - 1]) else s
  }

  /** The unpadded base64url text that the code stores and hands out. */
  function ToBase64Url(b: seq<byte>): string {
    StripPadding(Encode(b))
  }

  // ---------------------------------------------------------------- decoding

  /** Four symbols as three bytes. */
  function DecodeQuad(c0: char, c1: char, c2: char, c3: char): Option<seq<byte>> {
    if IsSymbol(c0) && IsSymbol(c1) && IsSymbol(c2) && IsSymbol(c3) then
      Some([Join0(Value(c0), Value(c1)), Join1(Value(c1), Value(c2)), Join2(Value(c2), Value(c3))])
    else None
  }

  /** The last group of four characters, which may end in one or two `=`. Bits below the last
      whole byte are ignored, as Python's non-strict decoder does. */
  function DecodeLast(c0: char, c1: char, c2: char, c3: char): Option<seq<byte>> {
    if c2 == '=' && c3 == '=' then
      if IsSymbol(c0) && IsSymbol(c1) then Some([Join0(Value(c0), Value(c1))]) else None
    else if c3 == '=' then
      if IsSymbol(c0) && IsSymbol(c1) && IsSymbol(c2) then
        Some([Join0(Value(c0), Value(c1)), Join1(Value(c1), Value(c2))])
      else None
    else DecodeQuad(c0, c1, c2, c3)
  }

  /** `base64.urlsafe_b64decode` of padded text; `None` stands for the `binascii.Error` it raises. */
  function Decode(s: string): Option<seq<byte>>
    decreases |s|
  {
    if |s| == 0 then Some([])
    else if |s| < 4 then None
    else if |s| == 4 then DecodeLast(s[0], s[1], s[2], s[3])
    else
      match DecodeQuad(s[0], s[1], s[2], s[3])
      case None => None
      case Some(g) =>
        match Decode(s[4..])
        case None => None
        case Some(rest) => Some(g + rest)
  }

  /** `n` padding characters. */
  function Equals(n: nat): (r: string)
    ensures |r| == n && forall i :: 0 <= i < n ==> r[i] == '='
  {
    if n == 0 then "" else "=" + Equals(n - 1)
  }

  /** The model's `base64url_to_bytes`: append `-len(s) % 4` padding characters and decode. */
  function ToBytes(s: string): Option<seq<byte>> {
    Decode(s + Equals((-|s|) % 4))
  }

  // ---------------------------------------------------------------- the round trip

  /** The encoding without its padding. */
  function Unpadded(b: seq<byte>): (s: string)
    ensures forall i :: 0 <= i < |s| ==> IsSymbol(s[i])
    decreases |b|
  {
    if |b| >= 3 then
      var q, rest := Quad(b[0], b[1], b[2]), Unpadded(b[3..]);
      assert forall i :: 0 <= i < 4 ==> IsSymbol(q[i]);
      q + rest
    else if |b| == 2 then Triple(b[0], b[1])
    else if |b| == 1 then Pair(b[0])
    else ""
  }

  lemma ShiftMod(n: int, m: int)
    ensures (4 + m) % 4 == m % 4 && (n - 3) % 3 == n % 3
  {
  }

  lemma {:induction false} UnpaddedLength(b: seq<byte>)
    ensures |Unpadded(b)| % 4 == (if |b| % 3 == 0 then 0 else if |b| % 3 == 1 then 2 else 3)
    decreases |b|
  {
    if |b| >= 3 {
      UnpaddedLength(b[3..]);
      assert |Unpadded(b)| == 4 + |Unpadded(b[3..])|;
      ShiftMod(|b|, |Unpadded(b[3..])|);
    } else if |b| == 2 {
      assert |Unpadded(b)| == 3;
    } else if |b| == 1 {
      assert |Unpadded(b)| == 2;
    }
  }

  /** The padding `urlsafe_b64encode` appends after `n` bytes. */
  function PaddingFor(n: nat): string {
    if n % 3 == 1 then "==" else if n % 3 == 2 then "=" else ""
  }

  lemma {:induction false} EncodeSplits(b: seq<byte>)
    ensures Encode(b) == Unpadded(b) + PaddingFor(|b|)
    decreases |b|
  {
    if |b| >= 3 {
      EncodeSplits(b[3..]);
      assert (|b| - 3) % 3 == |b| % 3;
    }
  }

  lemma {:induction false} StripPaddingOf(u: string, p: string)
    requires forall i :: 0 <= i < |u| ==> IsSymbol(u[i])
    requires forall i :: 0 <= i < |p| ==> p[i] == '='
    ensures StripPadding(u + p) == u
    decreases |p|
  {
    if |p| > 0 {
      assert (u + p)[..|u + p| - 1] == u + p[..|p| - 1];
      StripPaddingOf(u, p[..|p| - 1]);
    } else {
      assert u + p == u;
      if |u| > 0 {
        assert IsSymbol(u[|u| - 1]);
      }
    }
  }

  /** The unpadded text is `Unpadded(b)`: exactly the symbols, none of the `=`. */
  lemma ToBase64UrlIsUnpadded(b: seq<byte>)
    ensures ToBase64Url(b) == Unpadded(b)
  {
    EncodeSplits(b);
    StripPaddingOf(Unpadded(b), PaddingFor(|b|));
  }

  /** Every character of the text handed out is in the URL-safe alphabet; in particular none is `=`. */
  lemma ToBase64UrlHasNoPadding(b: seq<byte>)
    ensures forall i :: 0 <= i < |ToBase64Url(b)| ==> IsSymbol(ToBase64Url(b)[i]) && ToBase64Url(b)[i] != '='
  {
    ToBase64UrlIsUnpadded(b);
  }

  lemma QuadRoundTrip(b0: byte, b1: byte, b2: byte)
    ensures var q := Quad(b0, b1, b2); DecodeQuad(q[0], q[1], q[2], q[3]) == Some([b0, b1, b2])
  {
    ValueOfSymbol(Split0(b0));
    ValueOfSymbol(Split1(b0, b1));
    ValueOfSymbol(Split2(b1, b2));
    ValueOfSymbol(Split3(b2));
    JoinSplit0(b0, b1);
    JoinSplit1(b0, b1, b2);
    JoinSplit2(b1, b2);
  }

  /** A full group followed by more text decodes to its three bytes followed by the rest. */
  lemma DecodeQuadThen(b0: byte, b1: byte, b2: byte, e: string, rest: seq<byte>)
    requires e != [] && Decode(e) == Some(rest)
    ensures Decode(Quad(b0, b1, b2) + e) == Some([b0, b1, b2] + rest)
  {
    QuadRoundTrip(b0, b1, b2);
    var q := Quad(b0, b1, b2);
    var s := q + e;
    assert s[0] == q[0] && s[1] == q[1] && s[2] == q[2] && s[3] == q[3];
    assert s[4..] == e;
  }

  /** A full group on its own is the last group and decodes to its three bytes. */
  lemma DecodeQuadAlone(b0: byte, b1: byte, b2: byte)
    ensures Decode(Quad(b0, b1, b2)) == Some([b0, b1, b2])
  {
    QuadRoundTrip(b0, b1, b2);
    var q := Quad(b0, b1, b2);
    assert q[2] != '=' && q[3] != '=' by {
      assert IsSymbol(q[2]) && IsSymbol(q[3]);
    }
  }

  lemma TripleRoundTrip(b0: byte, b1: byte)
    ensures Decode(Triple(b0, b1) + "=") == Some([b0, b1])
  {
    ValueOfSymbol(Split0(b0));
    ValueOfSymbol(Split1(b0, b1));
    ValueOfSymbol(Split2(b1, 0));
    JoinSplit0(b0, b1);
    JoinSplit1(b0, b1, 0);
    var s := Triple(b0, b1) + "=";
    assert s[2] != '=' by { assert IsSymbol(s[2]); }
  }

  lemma PairRoundTrip(b0: byte)
    ensures Decode(Pair(b0) + "==") == Some([b0])
  {
    ValueOfSymbol(Split0(b0));
    ValueOfSymbol(Split1(b0, 0));
    JoinSplit0(b0, 0);
  }

  lemma EncodeEmpty(b: seq<byte>)
    ensures Encode(b) == [] <==> b == []
  {
  }

  lemma SplitAt3(b: seq<byte>)
    requires |b| >= 3
    ensures b == [b[0], b[1], b[2]] + b[3..]
  {
    assert b == b[..3] + b[3..];
  }

  lemma {:induction false} DecodeEncodeStep(b: seq<byte>)
    requires |b| >= 3 && Decode(Encode(b[3..])) == Some(b[3..])
    ensures Decode(Encode(b)) == Some(b)
  {
    SplitAt3(b);
    var e := Encode(b[3..]);
    assert Encode(b) == Quad(b[0], b[1], b[2]) + e;
    EncodeEmpty(b[3..]);
    if |b| == 3 {
      assert b[3..] == [];
      assert e == [];
      assert Encode(b) == Quad(b[0], b[1], b[2]);
      assert b == [b[0], b[1], b[2]];
      DecodeQuadAlone(b[0], b[1], b[2]);
    } else {
      DecodeQuadThen(b[0], b[1], b[2], e, b[3..]);
    }
  }

  lemma {:induction false} DecodeEncodeTwo(b0: byte, b1: byte)
    ensures Decode(Encode([b0, b1])) == Some([b0, b1])
  {
    assert Encode([b0, b1]) == Triple(b0, b1) + "=";
    TripleRoundTrip(b0, b1);
  }

  lemma {:induction false} DecodeEncodeOne(b0: byte)
    ensures Decode(Encode([b0])) == Some([b0])
  {
    assert Encode([b0]) == Pair(b0) + "==";
    PairRoundTrip(b0);
  }

  lemma {:induction false} DecodeEncodeShort(b: seq<byte>)
    requires |b| < 3
    ensures Decode(Encode(b)) == Some(b)
  {
    if |b| == 2 {
      assert b == [b[0], b[1]];
      DecodeEncodeTwo(b[0], b[1]);
    } else if |b| == 1 {
      assert b == [b[0]];
      DecodeEncodeOne(b[0]);
    }
  }

  lemma {:induction false} DecodeEncode(b: seq<byte>)
    ensures Decode(Encode(b)) == Some(b)
    decreases |b|
  {
    if |b| >= 3 {
      DecodeEncode(b[3..]);
      DecodeEncodeStep(b);
    } else {
      DecodeEncodeShort(b);
    }
  }

  /** The padding the model's decoder restores is the padding the encoder stripped. */
  lemma PaddingRestored(n: nat, m: int)
    requires 0 <= m && m % 4 == (if n % 3 == 0 then 0 else if n % 3 == 1 then 2 else 3)
    ensures Equals((-m) % 4) == PaddingFor(n)
  {
    var q := m / 4;
    if n % 3 == 0 {
      assert -m == 4 * (-q);
    } else if n % 3 == 1 {
      assert -m == 4 * (-q - 1) + 2;
      assert Equals(2) == "==";
    } else {
      assert -m == 4 * (-q - 1) + 1;
      assert Equals(1) == "=";
    }
  }

  /** `base64url_to_bytes` undoes the challenge encoding of AuthManager.py lines 120 and 208. */
  lemma RoundTrip(b: seq<byte>)
    ensures ToBytes(ToBase64Url(b)) == Some(b)
  {
    ToBase64UrlIsUnpadded(b);
    EncodeSplits(b);
    UnpaddedLength(b);
    PaddingRestored(|b|, |Unpadded(b)|);
    DecodeEncode(b);
  }
}
