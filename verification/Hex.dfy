/** Hex strings as the server sends them. */
module Hex {
  import opened Options

  type Byte = n: nat | n < 256

  function Nibble(c: char): Option<nat> {
    if '0' <= c <= '9' then Some(c as nat - '0' as nat)
    else if 'a' <= c <= 'f' then Some(c as nat - 'a' as nat + 10)
    else if 'A' <= c <= 'F' then Some(c as nat - 'A' as nat + 10)
    else None
  }

  /** Fails on an odd length and on any character that is no hex digit. */
  function Decode(s: string): (b: Option<seq<Byte>>)
    ensures b.Some? ==> |s| == 2 * |b.value|
  {
    if s == [] then Some([])
    else if |s| == 1 then None
    else
      var hi, lo, rest := Nibble(s[0]), Nibble(s[1]), Decode(s[2..]);
      if hi.Some? && lo.Some? && hi.value < 16 && lo.value < 16 && rest.Some?
      then Some([(16 * hi.value + lo.value) as Byte] + rest.value)
      else None
  }

  const DIGITS: string := "0123456789abcdef"

  function Encode(b: seq<Byte>): string {
    if b == [] then [] else [DIGITS[b[0] / 16], DIGITS[b[0] % 16]] + Encode(b[1..])
  }

  lemma NibbleOfDigit(n: nat)
    requires n < 16
    ensures Nibble(DIGITS[n]) == Some(n)
  {
    assert n == 0 || n == 1 || n == 2 || n == 3 || n == 4 || n == 5 || n == 6 || n == 7 || n == 8 || n == 9
        || n == 10 || n == 11 || n == 12 || n == 13 || n == 14 || n == 15;
  }

  /** The first two digits give the first byte. */
  lemma DecodeByte(s: string, byte: Byte, rest: seq<Byte>)
    requires |s| >= 2 && Nibble(s[0]) == Some(byte / 16) && Nibble(s[1]) == Some(byte % 16)
             && Decode(s[2..]) == Some(rest)
    ensures Decode(s) == Some([byte] + rest)
  {
    hide Nibble;
    var value: Byte := 16 * (byte / 16) + byte % 16;
    assert value == byte;
    assert Decode(s) == Some([value] + rest);
  }

  /** What the server encodes is what we decode. */
  lemma {:induction false} DecodeEncode(b: seq<Byte>)
    ensures Decode(Encode(b)) == Some(b)
  {
    if b != [] {
      hide Nibble, Decode;
      DecodeEncode(b[1..]);
      NibbleOfDigit(b[0] / 16);
      NibbleOfDigit(b[0] % 16);
      var s := Encode(b);
      assert s[0] == DIGITS[b[0] / 16] && s[1] == DIGITS[b[0] % 16] && s[2..] == Encode(b[1..]);
      hide Encode;
      DecodeByte(s, b[0], b[1..]);
      assert [b[0]] + b[1..] == b;
    }
  }

  const UPPER_DIGITS: string := "0123456789ABCDEF"

  /** The character stands for n, in lower or upper case. */
  predicate Names(c: char, n: nat) {
    n < 16 && (c == DIGITS[n] || c == UPPER_DIGITS[n])
  }

  lemma NibbleIff(c: char, n: nat)
    ensures Nibble(c) == Some(n) <==> Names(c, n)
  {
    if Names(c, n) {
      assert n == 0 || n == 1 || n == 2 || n == 3 || n == 4 || n == 5 || n == 6 || n == 7 || n == 8 || n == 9
          || n == 10 || n == 11 || n == 12 || n == 13 || n == 14 || n == 15;
    }
  }

  /** The pair of characters at i names byte i. */
  predicate PairAt(s: string, b: seq<Byte>, i: nat)
    requires |s| == 2 * |b| && i < |b|
  {
    Names(s[2 * i], b[i] / 16) && Names(s[2 * i + 1], b[i] % 16)
  }

  /** A string decodes to the bytes that its pairs of characters name, and to nothing else. */
  lemma {:induction false} DecodesIff(s: string, b: seq<Byte>)
    ensures Decode(s) == Some(b) <==> |s| == 2 * |b| && forall i :: 0 <= i < |b| ==> PairAt(s, b, i)
    decreases |s|
  {
    if |s| >= 2 && b != [] {
      DecodesIff(s[2..], b[1..]);
      FirstPair(s, b);
      hide Decode, Nibble, Names;
      if |s| == 2 * |b| {
        PairsShift(s, b);
      }
    }
  }

  lemma PairsShift(s: string, b: seq<Byte>)
    requires |s| == 2 * |b| && b != []
    ensures (forall i :: 0 <= i < |b| ==> PairAt(s, b, i))
            <==> PairAt(s, b, 0) && forall i :: 0 <= i < |b| - 1 ==> PairAt(s[2..], b[1..], i)
  {
    hide Names;
    if PairAt(s, b, 0) && forall i :: 0 <= i < |b| - 1 ==> PairAt(s[2..], b[1..], i) {
      forall i | 0 <= i < |b| ensures PairAt(s, b, i) {
        if i > 0 {
          assert PairAt(s[2..], b[1..], i - 1);
        }
      }
    }
    if forall i :: 0 <= i < |b| ==> PairAt(s, b, i) {
      forall i | 0 <= i < |b| - 1 ensures PairAt(s[2..], b[1..], i) {
        assert PairAt(s, b, i + 1);
      }
    }
  }

  lemma DecodeParts(s: string)
    requires |s| >= 2 && Decode(s).Some?
    ensures Nibble(s[0]).Some? && Nibble(s[0]).value < 16 && Nibble(s[1]).Some? && Nibble(s[1]).value < 16
    ensures Decode(s[2..]).Some? && Decode(s).value != []
    ensures Decode(s).value[0] == 16 * Nibble(s[0]).value + Nibble(s[1]).value
    ensures Decode(s).value[1..] == Decode(s[2..]).value
  {
    hide Nibble;
  }

  lemma Digits(hi: nat, lo: nat, n: nat)
    requires hi < 16 && lo < 16 && n == 16 * hi + lo
    ensures hi == n / 16 && lo == n % 16
  {
  }

  lemma FirstPair(s: string, b: seq<Byte>)
    requires |s| >= 2 && b != []
    ensures Decode(s) == Some(b)
            <==> Names(s[0], b[0] / 16) && Names(s[1], b[0] % 16) && Decode(s[2..]) == Some(b[1..])
  {
    var hi, lo := b[0] / 16, b[0] % 16;
    NibbleIff(s[0], hi);
    NibbleIff(s[1], lo);
    hide Nibble, Names, Decode;
    if Decode(s) == Some(b) {
      DecodeParts(s);
      Digits(Nibble(s[0]).value, Nibble(s[1]).value, b[0]);
    } else if Nibble(s[0]) == Some(hi) && Nibble(s[1]) == Some(lo) && Decode(s[2..]) == Some(b[1..]) {
      DecodeByte(s, b[0], b[1..]);
      FirstAndRest(b);
      assert false;
    }
  }

  lemma FirstAndRest(b: seq<Byte>)
    requires b != []
    ensures [b[0]] + b[1..] == b
  {
  }
}
