/** Byte layout of headers, nonces and associated data, and the sealing of headers and bodies. */
module Framing {
  import opened Wrappers
  import opened Bytes
  import opened Keys

  datatype RatchetError =
    | InvalidKey
    | DecryptionFailed
    | OldMessageKeysLimitReached
    | DuplicateMessage
    | InvalidHeader
    | HeaderDecryptionFailed
    | CounterOverflow
    | ADTooLarge
    | InvalidState
    | TooManyMessages

  datatype RatchetHeader = RatchetHeader(dhPub: Bytes32, pn: u32, n: u32)

  function ToBytes(h: RatchetHeader): (s: seq<byte>)
    ensures |s| == 40
  {
    h.dhPub + U32ToBe(h.pn) + U32ToBe(h.n)
  }

  function FromBytes(s: seq<byte>): Result<RatchetHeader, RatchetError> {
    if |s| != 40 then Err(InvalidHeader)
    else Ok(RatchetHeader(s[0..32], U32FromBe(s[32..36]), U32FromBe(s[36..40])))
  }

  lemma HeaderRoundTrip(h: RatchetHeader)
    ensures FromBytes(ToBytes(h)) == Ok(h)
  {
    var s := ToBytes(h);
    assert s[0..32] == h.dhPub && s[32..36] == U32ToBe(h.pn) && s[36..40] == U32ToBe(h.n);
    U32DecodesEncoding(h.pn);
    U32DecodesEncoding(h.n);
  }

  /** The decoder accepts exactly the 40-byte strings, and re-encoding gives them back. */
  lemma BytesRoundTrip(s: seq<byte>)
    ensures FromBytes(s).Ok? <==> |s| == 40
    ensures |s| == 40 ==> ToBytes(FromBytes(s).value) == s
  {
    if |s| == 40 {
      U32EncodesDecoding(s[32..36]);
      U32EncodesDecoding(s[36..40]);
      assert s == s[0..32] + s[32..36] + s[36..40];
    }
  }

  /** Where each field of a header lies, and how it is written. */
  lemma HeaderLayout(h: RatchetHeader)
    ensures var s := ToBytes(h);
            s[..32] == h.dhPub && FromBe(s[32..36]) == h.pn && FromBe(s[36..]) == h.n
  {
    var s := ToBytes(h);
    assert s[..32] == h.dhPub && s[32..36] == U32ToBe(h.pn) && s[36..] == U32ToBe(h.n);
    U32IsBigEndian(h.pn);
    U32IsBigEndian(h.n);
  }

  /** concat_ad: length prefix, associated data, encrypted header. */
  function ConcatAd(ad: seq<byte>, enc: Wire): Wire
    requires |ad| <= U64_MAX
  {
    Octets(U64ToBe(|ad|)) + Octets(ad) + enc
  }

  lemma ConcatAdInjective(ad: seq<byte>, enc: Wire, ad': seq<byte>, enc': Wire)
    requires |ad| <= U64_MAX && |ad'| <= U64_MAX
    requires ConcatAd(ad, enc) == ConcatAd(ad', enc')
    ensures ad == ad' && enc == enc'
  {
    var w, w' := ConcatAd(ad, enc), ConcatAd(ad', enc');
    assert w[..8] == Octets(U64ToBe(|ad|)) && w'[..8] == Octets(U64ToBe(|ad'|));
    OctetsInjective(U64ToBe(|ad|), U64ToBe(|ad'|));
    U64EncodingInjective(|ad|, |ad'|);
    assert w[8..8 + |ad|] == Octets(ad) && w'[8..8 + |ad|] == Octets(ad');
    OctetsInjective(ad, ad');
    assert w[8 + |ad|..] == enc && w'[8 + |ad|..] == enc';
  }

  /** The associated data follow their own length, written in 8 bytes big-endian, and the encrypted header follows
      them. */
  lemma AdLayout(ad: seq<byte>, enc: Wire) returns (len: seq<byte>)
    requires |ad| <= U64_MAX
    ensures |len| == 8 && FromBe(len) == |ad|
    ensures var w := ConcatAd(ad, enc);
            && |w| == 8 + |ad| + |enc|
            && (forall k | 0 <= k < 8 :: w[k] == Octet(len[k]))
            && (forall k | 0 <= k < |ad| :: w[8 + k] == Octet(ad[k]))
            && w[8 + |ad|..] == enc
  {
    len := U64ToBe(|ad|);
    U64IsBigEndian(|ad|);
  }

  /** The 12 nonce bytes of a header: party byte, three zero bytes, counter. */
  function NonceBytes(isSender: bool, counter: u64): (s: seq<byte>)
    ensures |s| == 12
  {
    [if isSender then 0x00 else 0xFF, 0, 0, 0] + U64ToBe(counter)
  }

  lemma NonceBytesInjective(p: bool, x: u64, q: bool, y: u64)
    requires NonceBytes(p, x) == NonceBytes(q, y)
    ensures p == q && x == y
  {
    var s, t := NonceBytes(p, x), NonceBytes(q, y);
    assert s[0] == t[0];
    assert s[4..] == U64ToBe(x) && t[4..] == U64ToBe(y);
    U64EncodingInjective(x, y);
  }

  /** The first nonce byte tells the initiator from the responder, three are zero, and the last eight are the
      counter. */
  lemma NonceLayout(isSender: bool, counter: u64)
    ensures var s := NonceBytes(isSender, counter);
            && s[0] == (if isSender then 0x00 else 0xFF)
            && s[1] == s[2] == s[3] == 0
            && FromBe(s[4..]) == counter
  {
    U64IsBigEndian(counter);
    assert NonceBytes(isSender, counter)[4..] == U64ToBe(counter);
  }

  /** Output of encrypt_header: the nonce in clear, then the sealed header. */
  function SealHeader(hk: Key, nonce: seq<byte>, h: RatchetHeader): (w: Wire)
    requires |nonce| == 12
    ensures |w| == 13
  {
    Octets(nonce) + [HeaderBox(hk, nonce, ToBytes(h))]
  }

  /** The nonce goes out in clear, then the box. */
  lemma SealedLayout(hk: Key, nonce: seq<byte>, h: RatchetHeader)
    requires |nonce| == 12
    ensures var w := SealHeader(hk, nonce, h);
            (forall k | 0 <= k < 12 :: w[k] == Octet(nonce[k])) && w[12] == HeaderBox(hk, nonce, ToBytes(h))
  {
  }

  /** decrypt_header_with_key */
  function OpenHeader(hk: Key, enc: Wire): Result<RatchetHeader, RatchetError> {
    if |enc| < 12 then Err(HeaderDecryptionFailed)
    else if |enc| == 13 && enc[12].HeaderBox? && enc[12].key == hk && enc[..12] == Octets(enc[12].nonce)
    then FromBytes(enc[12].header)
    else Err(HeaderDecryptionFailed)
  }

  lemma OpenSealedHeader(hk: Key, hk': Key, nonce: seq<byte>, h: RatchetHeader)
    requires |nonce| == 12
    ensures OpenHeader(hk', SealHeader(hk, nonce, h)) == if hk' == hk then Ok(h) else Err(HeaderDecryptionFailed)
  {
    HeaderRoundTrip(h);
    assert SealHeader(hk, nonce, h)[..12] == Octets(nonce);
  }

  /** Nothing opens under a header key but what was sealed with it, nonce in clear included; what is too short, or does
      not open, is HeaderDecryptionFailed, and what opens but is no header is InvalidHeader. */
  lemma OpenHeaderExactly(hk: Key, enc: Wire, h: RatchetHeader)
    ensures OpenHeader(hk, enc) == Ok(h) <==>
            exists nonce: seq<byte> :: |nonce| == 12 && enc == SealHeader(hk, nonce, h)
    ensures OpenHeader(hk, enc) == Err(InvalidHeader) <==>
            exists nonce: seq<byte>, s: seq<byte> ::
              |nonce| == 12 && |s| != 40 && enc == Octets(nonce) + [HeaderBox(hk, nonce, s)]
    ensures OpenHeader(hk, enc).Err? ==> OpenHeader(hk, enc).error in {HeaderDecryptionFailed, InvalidHeader}
  {
    if |enc| == 13 && enc[12].HeaderBox? && enc[12].key == hk && enc[..12] == Octets(enc[12].nonce) {
      var nonce, s := enc[12].nonce, enc[12].header;
      assert |nonce| == |Octets(nonce)| == 12;
      assert enc == Octets(nonce) + [HeaderBox(hk, nonce, s)];
      BytesRoundTrip(s);
    }
    forall nonce: seq<byte>, s: seq<byte> | |nonce| == 12 && enc == Octets(nonce) + [HeaderBox(hk, nonce, s)]
      ensures OpenHeader(hk, enc) == FromBytes(s)
    {
      assert enc[..12] == Octets(nonce) && enc[12] == HeaderBox(hk, nonce, s);
    }
    HeaderRoundTrip(h);
  }

  /** encrypt_aead */
  function SealBody(mk: Key, ad: Wire, body: seq<byte>): Wire {
    [BodyBox(mk, ad, body)]
  }

  /** decrypt_aead */
  function OpenBody(mk: Key, ct: Wire, ad: Wire): Result<seq<byte>, RatchetError> {
    if |ct| == 1 && ct[0].BodyBox? && ct[0].key == mk && ct[0].ad == ad then Ok(ct[0].body)
    else Err(DecryptionFailed)
  }

  /** Nothing opens under a message key and associated data but what was sealed with them. */
  lemma OpenBodyExactly(mk: Key, ct: Wire, ad: Wire, body: seq<byte>)
    ensures OpenBody(mk, ct, ad) == Ok(body) <==> ct == SealBody(mk, ad, body)
    ensures OpenBody(mk, ct, ad).Err? ==> OpenBody(mk, ct, ad).error == DecryptionFailed
  {
  }
}
