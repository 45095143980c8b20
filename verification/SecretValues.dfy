/**
  How variable values are kept secret (cmd/api-server/variables/crypto.go:19-67): the hexadecimal text of a nonce
  followed by an AES-GCM ciphertext. The cipher is a parameter whose only law is that opening undoes sealing.
 */
module SecretValues {
  import opened Wrappers

  type byte = x: int | 0 <= x < 256
  /** Go strings and byte slices alike. */
  type Bytes = seq<byte>

  // --- Hexadecimal (section 8 of RFC 4648), as text in bytes ---

  function HexDigit(n: int): byte
    requires 0 <= n < 16
  {
    if n < 10 then 48 + n else 87 + n
  }

  function HexValue(c: byte): (v: Option<int>)
    ensures v.Some? ==> 0 <= v.value < 16
  {
    if 48 <= c <= 57 then Some(c - 48)
    else if 97 <= c <= 102 then Some(c - 87)
    else if 65 <= c <= 70 then Some(c - 55)
    else None
  }

  function HexEncode(b: Bytes): Bytes {
    if b == [] then [] else [HexDigit(b[0] / 16), HexDigit(b[0] % 16)] + HexEncode(b[1..])
  }

  /** hex.DecodeString with its error ignored: the bytes decoded before the first fault. */
  function HexDecode(s: Bytes): Bytes {
    if |s| < 2 || HexValue(s[0]).None? || HexValue(s[1]).None? then []
    else [HexValue(s[0]).value * 16 + HexValue(s[1]).value] + HexDecode(s[2..])
  }

  lemma {:induction false} HexRoundTrip(b: Bytes)
    ensures HexDecode(HexEncode(b)) == b
  {
    if b == [] {
    } else {
      HexRoundTrip(b[1..]);
      var s := HexEncode(b);
      assert s[2..] == HexEncode(b[1..]);
      assert HexValue(s[0]) == Some(b[0] / 16) && HexValue(s[1]) == Some(b[0] % 16);
      assert b == [b[0]] + b[1..];
    }
  }

  const HEX := "0123456789abcdef"

  /** The text of some bytes: two lower-case digits for each. */
  predicate IsHexOf(text: Bytes, b: Bytes) {
    && |text| == 2 * |b|
    && forall i :: 0 <= i < |b| ==>
         text[2 * i] == HEX[b[i] / 16] as int && text[2 * i + 1] == HEX[b[i] % 16] as int
  }

  lemma {:induction false} HexEncodeIs(b: Bytes)
    ensures IsHexOf(HexEncode(b), b)
  {
    if b != [] {
      HexEncodeIs(b[1..]);
      var text, rest := HexEncode(b), HexEncode(b[1..]);
      forall i | 0 <= i < |b|
        ensures text[2 * i] == HEX[b[i] / 16] as int && text[2 * i + 1] == HEX[b[i] % 16] as int
      {
        if i > 0 {
          assert text[2 * i] == rest[2 * (i - 1)] && text[2 * i + 1] == rest[2 * (i - 1) + 1];
        }
      }
    }
  }

  // --- Encryption ---

  /** Key, nonce, text; opening fails on a text that was not sealed with that key and nonce. */
  datatype Cipher = Cipher(seal: (Bytes, Bytes, Bytes) -> Bytes, unseal: (Bytes, Bytes, Bytes) -> Option<Bytes>)

  ghost predicate Lawful(c: Cipher) {
    forall key, nonce, text :: c.unseal(key, nonce, c.seal(key, nonce, text)) == Some(text)
  }

  const NONCE_SIZE: nat := 12

  /** The key lengths aes.NewCipher accepts; with another one the code panics. */
  predicate GoodKey(key: Bytes) { |key| == 16 || |key| == 24 || |key| == 32 }

  /** encrypt, for the random nonce drawn; None where the code panics. */
  function Encrypt(c: Cipher, keyText: Bytes, nonce: Bytes, value: Bytes): Option<Bytes> {
    var key := HexDecode(keyText);
    if !GoodKey(key) then None else Some(HexEncode(nonce + c.seal(key, nonce, value)))
  }

  /** decrypt; None where the code panics: bad key, text shorter than a nonce, or a text that does not open. */
  function Decrypt(c: Cipher, keyText: Bytes, text: Bytes): Option<Bytes> {
    var key := HexDecode(keyText);
    var enc := HexDecode(text);
    if !GoodKey(key) || |enc| < NONCE_SIZE then None
    else c.unseal(key, enc[..NONCE_SIZE], enc[NONCE_SIZE..])
  }

  /** EncryptValue and DecryptValue pass the stored key through hexadecimal (variables/handler.go:270-289). */
  function EncryptValue(c: Cipher, key: Bytes, nonce: Bytes, value: Bytes): Option<Bytes> {
    Encrypt(c, HexEncode(key), nonce, value)
  }

  function DecryptValue(c: Cipher, key: Bytes, text: Bytes): Option<Bytes> {
    Decrypt(c, HexEncode(key), text)
  }

  /**
    What is stored for a secret: the hexadecimal text of the nonce followed by the value sealed with key and nonce. The
    code panics exactly for a key of another length than 16, 24 or 32 bytes.
   */
  lemma SecretIsSealed(c: Cipher, key: Bytes, nonce: Bytes, value: Bytes)
    ensures EncryptValue(c, key, nonce, value).Some? <==> |key| in {16, 24, 32}
    ensures |key| in {16, 24, 32} ==>
              IsHexOf(EncryptValue(c, key, nonce, value).value, nonce + c.seal(key, nonce, value))
  {
    HexRoundTrip(key);
    HexEncodeIs(nonce + c.seal(key, nonce, value));
  }

  /** What is shown for a stored text: what its bytes after the first 12 open to; anything else panics. */
  lemma SecretIsOpened(c: Cipher, key: Bytes, text: Bytes)
    ensures var enc := HexDecode(text);
            DecryptValue(c, key, text)
            == if |key| in {16, 24, 32} && |enc| >= 12 then c.unseal(key, enc[..12], enc[12..]) else None
  {
    HexRoundTrip(key);
  }

  /** With a usable key every value is encrypted without panic, and decrypting gives it back. */
  lemma SecretRoundTrip(c: Cipher, key: Bytes, nonce: Bytes, value: Bytes)
    requires Lawful(c) && GoodKey(key) && |nonce| == NONCE_SIZE
    ensures EncryptValue(c, key, nonce, value).Some?
    ensures DecryptValue(c, key, EncryptValue(c, key, nonce, value).value) == Some(value)
  {
    HexRoundTrip(key);
    var sealed := c.seal(key, nonce, value);
    HexRoundTrip(nonce + sealed);
    assert (nonce + sealed)[..NONCE_SIZE] == nonce && (nonce + sealed)[NONCE_SIZE..] == sealed;
  }
}
