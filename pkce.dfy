/**
 * The URL- and filename-safe base64 alphabet of section 5 of RFC 4648, as
 * Python's `base64.urlsafe_b64encode` applies it (padded with `=`), the
 * `bytes.rstrip(b"=")` that the code applies afterwards, and a decoder of
 * the unpadded form that serves as the encoder's inverse.
 */
module Base64Url {
  import opened Common

  const Pad: byte := 61  // '='

  /** The alphabet symbol of a 6-bit value: A-Z, a-z, 0-9, '-', '_'. */
  function Symbol(v: int): (c: byte)
    requires 0 <= v < 64
    ensures IsSymbol(c) && c != Pad
  {
    if v < 26 then 65 + v
    else if v < 52 then 97 + (v - 26)
    else if v < 62 then 48 + (v - 52)
    else if v == 62 then 45
    else 95
  }

  /** The bytes that may appear in unpadded base64url text: [A-Za-z0-9_-]. */
  predicate IsSymbol(c: byte)
  {
    (65 <= c <= 90) || (97 <= c <= 122) || (48 <= c <= 57) || c == 45 || c == 95
  }

  /** The 6-bit value of an alphabet symbol. */
  function SymbolValue(c: byte): (v: int)
    requires IsSymbol(c)
    ensures 0 <= v < 64 && Symbol(v) == c
  {
    if 65 <= c <= 90 then c - 65
    else if 97 <= c <= 122 then c - 97 + 26
    else if 48 <= c <= 57 then c - 48 + 52
    else if c == 45 then 62
    else 63
  }

  /** The four symbols of one complete 3-byte group. */
  function Group(a: byte, b: byte, c: byte): seq<byte>
  {
    [Symbol(a / 4), Symbol((a % 4) * 16 + b / 16), Symbol((b % 16) * 4 + c / 64), Symbol(c % 64)]
  }

  /** `base64.urlsafe_b64encode(b)`: padded to a multiple of four bytes. */
  function Encode(b: seq<byte>): (s: seq<byte>)
    ensures |s| == 4 * ((|b| + 2) / 3)
    decreases |b|
  {
    if |b| == 0 then []
    else if |b| == 1 then [Symbol(b[0] / 4), Symbol((b[0] % 4) * 16), Pad, Pad]
    else if |b| == 2 then [Symbol(b[0] / 4), Symbol((b[0] % 4) * 16 + b[1] / 16), Symbol((b[1] % 16) * 4), Pad]
    else Group(b[0], b[1], b[2]) + Encode(b[3..])
  }

  /** `s.rstrip(bytes([c]))`: drops every trailing occurrence of `c`. */
  function RStrip(s: seq<byte>, c: byte): (r: seq<byte>)
    ensures |r| <= |s| && r == s[..|r|]
    ensures r == [] || r[|r| - 1] != c
    ensures forall i :: |r| <= i < |s| ==> s[i] == c
  {
    if s != [] && s[|s| - 1] == c then RStrip(s[..|s| - 1], c) else s
  }

  /** Unpadded base64url text, as `urlsafe_b64encode(b).rstrip(b"=")` yields it. */
  function EncodeUnpadded(b: seq<byte>): (s: seq<byte>)
    ensures |s| <= |Encode(b)| && s == Encode(b)[..|s|] && (s == [] || s[|s| - 1] != Pad)
    ensures forall i :: |s| <= i < |Encode(b)| ==> Encode(b)[i] == Pad
  {
    RStrip(Encode(b), Pad)
  }

  /** The length of unpadded base64url text for `n` input bytes. */
  function UnpaddedLength(n: nat): nat
  {
    4 * (n / 3) + (if n % 3 == 0 then 0 else n % 3 + 1)
  }

  /**
   * The inverse of `EncodeUnpadded`: decodes unpadded base64url text, or
   * fails on a byte outside the alphabet or a length of the form 4k+1.
   */
  function Decode(s: seq<byte>): (r: Option<seq<byte>>)
    ensures r.Some? ==> |s| % 4 != 1 && |r.value| == (3 * |s|) / 4
    decreases |s|
  {
    if |s| == 0 then Some([])
    else if |s| == 1 || !IsSymbol(s[0]) || !IsSymbol(s[1]) then None
    else
      var v0, v1 := SymbolValue(s[0]), SymbolValue(s[1]);
      var a := v0 * 4 + v1 / 16;
      if |s| == 2 then Some([a])
      else if !IsSymbol(s[2]) then None
      else
        var v2 := SymbolValue(s[2]);
        var b := (v1 % 16) * 16 + v2 / 4;
        if |s| == 3 then Some([a, b])
        else if !IsSymbol(s[3]) then None
        else
          var v3 := SymbolValue(s[3]);
          var c := (v2 % 4) * 64 + v3;
          match Decode(s[4..])
          case None => None
          case Some(rest) => Some([a, b, c] + rest)
  }

  /** Stripping pads from `x + y` leaves `x` alone when `y` starts with a symbol. */
  lemma {:induction false} RStripAppend(x: seq<byte>, y: seq<byte>)
    requires y != [] && y[0] != Pad
    ensures RStrip(x + y, Pad) == x + RStrip(y, Pad)
    decreases |y|
  {
    if y[|y| - 1] == Pad {
      assert |y| > 1;
      assert (x + y)[..|x + y| - 1] == x + y[..|y| - 1];
      RStripAppend(x, y[..|y| - 1]);
    }
  }

  /**
   * Stripping the pad of a padded encoding yields exactly the unpadded
   * groups: each complete group, then 2 or 3 symbols for a 1- or 2-byte tail.
   */
  lemma {:induction false} EncodeUnpaddedStep(b: seq<byte>)
    ensures |b| == 0 ==> EncodeUnpadded(b) == []
    ensures |b| == 1 ==> EncodeUnpadded(b) == [Symbol(b[0] / 4), Symbol((b[0] % 4) * 16)]
    ensures |b| == 2 ==> EncodeUnpadded(b) == [Symbol(b[0] / 4), Symbol((b[0] % 4) * 16 + b[1] / 16), Symbol((b[1] % 16) * 4)]
    ensures |b| >= 3 ==> EncodeUnpadded(b) == Group(b[0], b[1], b[2]) + EncodeUnpadded(b[3..])
  {
    if |b| == 1 {
      var e := Encode(b);
      assert e[..3] == e[..2] + [Pad];
      assert RStrip(e[..3], Pad) == RStrip(e[..2], Pad);
    } else if |b| == 2 {
      var e := Encode(b);
      assert RStrip(e, Pad) == RStrip(e[..3], Pad);
    } else if |b| >= 3 {
      var g := Group(b[0], b[1], b[2]);
      if |b| == 3 {
        assert Encode(b) == g + [];
        assert g == g[..3] + [g[3]];
      } else {
        var e := Encode(b[3..]);
        assert e[0] != Pad;
        RStripAppend(g, e);
      }
    }
  }

  /** Unpadded text has the length RFC 4648 gives and only alphabet symbols. */
  lemma {:induction false} EncodeUnpaddedShape(b: seq<byte>)
    ensures |EncodeUnpadded(b)| == UnpaddedLength(|b|)
    ensures forall i :: 0 <= i < |EncodeUnpadded(b)| ==> IsSymbol(EncodeUnpadded(b)[i])
    decreases |b|
  {
    EncodeUnpaddedStep(b);
    if |b| >= 3 {
      EncodeUnpaddedShape(b[3..]);
      var g, rest := Group(b[0], b[1], b[2]), EncodeUnpadded(b[3..]);
      forall i | 0 <= i < |g + rest| ensures IsSymbol((g + rest)[i]) {
        if i >= 4 { assert (g + rest)[i] == rest[i - 4]; }
      }
    }
  }

  /** Decoding a symbol gives back its 6-bit value. */
  lemma SymbolInverse(v: int)
    requires 0 <= v < 64
    ensures SymbolValue(Symbol(v)) == v
  {
  }

  lemma DivMod16(x: int, y: int)
    requires 0 <= y < 16
    ensures (x * 16 + y) / 16 == x && (x * 16 + y) % 16 == y
  {
  }

  lemma DivMod4(x: int, y: int)
    requires 0 <= y < 4
    ensures (x * 4 + y) / 4 == x && (x * 4 + y) % 4 == y
  {
  }

  /** The 6-bit values of a group recombine into the three bytes they came from. */
  lemma GroupArithmetic(a: byte, b: byte, c: byte)
    ensures var v0, v1, v2, v3 := a / 4, (a % 4) * 16 + b / 16, (b % 16) * 4 + c / 64, c % 64;
      v0 * 4 + v1 / 16 == a && (v1 % 16) * 16 + v2 / 4 == b && (v2 % 4) * 64 + v3 == c
  {
    DivMod16(a % 4, b / 16);
    DivMod4(b % 16, c / 64);
  }

  /** Decoding a complete group followed by more text yields its three bytes first. */
  lemma DecodeGroup(a: byte, b: byte, c: byte, t: seq<byte>)
    ensures Decode(Group(a, b, c) + t) == match Decode(t) case None => None case Some(r) => Some([a, b, c] + r)
  {
    var s := Group(a, b, c) + t;
    var v0, v1, v2, v3 := a / 4, (a % 4) * 16 + b / 16, (b % 16) * 4 + c / 64, c % 64;
    assert s[4..] == t;
    SymbolInverse(v0);
    SymbolInverse(v1);
    SymbolInverse(v2);
    SymbolInverse(v3);
    assert SymbolValue(s[0]) == v0 && SymbolValue(s[1]) == v1;
    assert SymbolValue(s[2]) == v2 && SymbolValue(s[3]) == v3;
    GroupArithmetic(a, b, c);
  }

  /** A 1-byte input survives encoding and decoding. */
  lemma RoundTripOne(b: seq<byte>)
    requires |b| == 1
    ensures Decode(EncodeUnpadded(b)) == Some(b)
  {
    EncodeUnpaddedStep(b);
    SymbolInverse(b[0] / 4);
    SymbolInverse((b[0] % 4) * 16);
    GroupArithmetic(b[0], 0, 0);
    assert b == [b[0]];
  }

  /** A 2-byte input survives encoding and decoding. */
  lemma RoundTripTwo(b: seq<byte>)
    requires |b| == 2
    ensures Decode(EncodeUnpadded(b)) == Some(b)
  {
    EncodeUnpaddedStep(b);
    SymbolInverse(b[0] / 4);
    SymbolInverse((b[0] % 4) * 16 + b[1] / 16);
    SymbolInverse((b[1] % 16) * 4);
    GroupArithmetic(b[0], b[1], 0);
    assert b == [b[0], b[1]];
  }

  /** A complete first group decodes to its three bytes ahead of whatever the rest decodes to. */
  lemma RoundTripGroup(b: seq<byte>)
    requires |b| >= 3 && Decode(EncodeUnpadded(b[3..])) == Some(b[3..])
    ensures Decode(EncodeUnpadded(b)) == Some(b)
  {
    EncodeUnpaddedStep(b);
    DecodeGroup(b[0], b[1], b[2], EncodeUnpadded(b[3..]));
    assert b == [b[0], b[1], b[2]] + b[3..];
  }

  /** Decoding undoes unpadded encoding: `Decode(EncodeUnpadded(b)) == Some(b)`. */
  lemma {:induction false} RoundTrip(b: seq<byte>)
    ensures Decode(EncodeUnpadded(b)) == Some(b)
    decreases |b|
  {
    if |b| == 0 {
      EncodeUnpaddedStep(b);
    } else if |b| == 1 {
      RoundTripOne(b);
    } else if |b| == 2 {
      RoundTripTwo(b);
    } else {
      RoundTrip(b[3..]);
      RoundTripGroup(b);
    }
  }

  /** Unpadded encoding is injective: different inputs give different text. */
  lemma Injective(b1: seq<byte>, b2: seq<byte>)
    requires EncodeUnpadded(b1) == EncodeUnpadded(b2)
    ensures b1 == b2
  {
    RoundTrip(b1);
    RoundTrip(b2);
  }
}

/**
 * PKCE with method S256 (sections 4.1 and 4.2 of RFC 7636), as the PKCE
 * sample and the auth service compute the verifier and the challenge.
 */
module Pkce {
  import opened Common
  import Base64Url

  /** A SHA-256 digest: always 32 bytes. */
  type Digest = d: seq<byte> | |d| == 32 witness seq(32, _ => 0)

  /** SHA-256 is supplied by the caller; the model only uses its output size. */
  type Hash = seq<byte> -> Digest

  /** `code_verifier()`: unpadded base64url of the random bytes. */
  function CodeVerifier(random: seq<byte>): (v: seq<byte>)
  {
    Base64Url.EncodeUnpadded(random)
  }

  /**
   * A verifier from 64 random bytes has 86 characters, inside the 43 to 128
   * that section 4.1 of RFC 7636 allows, all from the base64url alphabet and
   * none of them padding, and decodes back to those bytes.
   */
  lemma VerifierShape(random: seq<byte>)
    requires |random| == 64
    ensures |CodeVerifier(random)| == 86
    ensures 43 <= |CodeVerifier(random)| <= 128
    ensures forall i :: 0 <= i < |CodeVerifier(random)| ==> Base64Url.IsSymbol(CodeVerifier(random)[i]) && CodeVerifier(random)[i] != Base64Url.Pad
    ensures Base64Url.Decode(CodeVerifier(random)) == Some(random)
  {
    Base64Url.EncodeUnpaddedShape(random);
    Base64Url.RoundTrip(random);
  }

  /** `code_challenge(verifier)`: unpadded base64url of SHA-256(verifier). */
  function CodeChallenge(sha256: Hash, verifier: seq<byte>): (c: seq<byte>)
  {
    Base64Url.EncodeUnpadded(sha256(verifier))
  }

  /**
   * A challenge has 43 base64url characters and decodes to the 32-byte
   * digest of the verifier.
   */
  lemma ChallengeShape(sha256: Hash, verifier: seq<byte>)
    ensures |CodeChallenge(sha256, verifier)| == 43
    ensures forall i :: 0 <= i < |CodeChallenge(sha256, verifier)| ==> Base64Url.IsSymbol(CodeChallenge(sha256, verifier)[i])
    ensures Base64Url.Decode(CodeChallenge(sha256, verifier)) == Some(sha256(verifier))
  {
    Base64Url.EncodeUnpaddedShape(sha256(verifier));
    Base64Url.RoundTrip(sha256(verifier));
  }

  /** Two verifiers from different random bytes differ. */
  lemma VerifierInjective(r1: seq<byte>, r2: seq<byte>)
    requires |r1| == 64 && |r2| == 64 && r1 != r2
    ensures CodeVerifier(r1) != CodeVerifier(r2)
  {
    if CodeVerifier(r1) == CodeVerifier(r2) {
      Base64Url.Injective(r1, r2);
    }
  }

  /** Challenges differ exactly when the digests of the verifiers differ. */
  lemma ChallengeDeterminedByDigest(sha256: Hash, v1: seq<byte>, v2: seq<byte>)
    ensures CodeChallenge(sha256, v1) == CodeChallenge(sha256, v2) <==> sha256(v1) == sha256(v2)
  {
    if CodeChallenge(sha256, v1) == CodeChallenge(sha256, v2) {
      Base64Url.Injective(sha256(v1), sha256(v2));
    }
  }
}
