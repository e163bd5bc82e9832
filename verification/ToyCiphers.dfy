/** Ciphers that obey the laws `Crypto` assumes, so that what is proved from the laws is not empty. They hide
    nothing. */
module ToyCiphers {
  import opened Types
  import opened Crypto

  function Zeros(n: nat): (r: Bytes)
    ensures |r| == n
  {
    seq(n, _ => 0)
  }

  /** Three bytes for each character. */
  function TextBytes(text: string): (r: Bytes)
    ensures |r| == 3 * |text|
  {
    seq(3 * |text|, i requires 0 <= i < 3 * |text| =>
      var n := text[i / 3] as int;
      (if i % 3 == 0 then n / 65536 % 256 else if i % 3 == 1 then n / 256 % 256 else n % 256) as byte)
  }

  function CharOf(n: int): char {
    if 0 <= n < 0xD800 || 0xE000 <= n < 0x11_0000 then n as char else '?'
  }

  function BytesText(bytes: Bytes): string {
    seq(|bytes| / 3, k requires 0 <= k < |bytes| / 3 =>
      CharOf(bytes[3 * k] as int * 65536 + bytes[3 * k + 1] as int * 256 + bytes[3 * k + 2] as int))
  }

  lemma {:induction false} ThreeBytes(c: char)
    ensures var n := c as int;
      CharOf(n / 65536 % 256 * 65536 + n / 256 % 256 * 256 + n % 256) == c
  {
    var n := c as int;
    assert n / 65536 < 256;
    assert n / 65536 * 65536 + n / 256 % 256 * 256 + n % 256 == n by {
      assert n / 256 == n / 65536 * 256 + n / 256 % 256;
    }
  }

  lemma {:induction false} TextBytesAt(text: string, k: nat)
    requires k < |text|
    ensures var n, b := text[k] as int, TextBytes(text);
      && b[3 * k] as int == n / 65536 % 256 && b[3 * k + 1] as int == n / 256 % 256 && b[3 * k + 2] as int == n % 256
  {
    assert (3 * k) / 3 == k && (3 * k + 1) / 3 == k && (3 * k + 2) / 3 == k;
    assert (3 * k) % 3 == 0 && (3 * k + 1) % 3 == 1 && (3 * k + 2) % 3 == 2;
  }

  lemma {:induction false} TextRoundTrip(text: string)
    ensures BytesText(TextBytes(text)) == text
  {
    var b := TextBytes(text);
    forall k | 0 <= k < |text| ensures BytesText(b)[k] == text[k] {
      TextBytesAt(text, k);
      ThreeBytes(text[k]);
    }
  }

  /** One character for each byte. */
  function Chars(bytes: Bytes): string {
    seq(|bytes|, i requires 0 <= i < |bytes| => bytes[i] as int as char)
  }

  function Unchars(text: string): Bytes {
    seq(|text|, i requires 0 <= i < |text| => (text[i] as int % 256) as byte)
  }

  lemma {:induction false} CharsRoundTrip(bytes: Bytes)
    ensures Unchars(Chars(bytes)) == bytes
  {
  }

  function Toy(document: Object): Ciphers {
    Ciphers(
      (key: Bytes, seed: Bytes) => if |key| == AES_KEY_BYTES then key + Zeros(224) else Zeros(RSA_ENCRYPTED_KEY_BYTES),
      (block: Bytes) => if |block| < AES_KEY_BYTES then None else Some(block[..AES_KEY_BYTES]),
      (key: Bytes, iv: Bytes, text: string) => (TextBytes(text), Zeros(GCM_TAG_BYTES)),
      (key: Bytes, iv: Bytes, aes: Bytes, tag: Bytes) => Some(BytesText(aes)),
      (bytes: Bytes) => Chars(bytes),
      (text: string) => Some(Unchars(text)),
      (j: Object) => "",
      (text: string) => Some(document))
  }

  /** Lawful ciphers exist, and with them a text form that any given document survives. */
  lemma {:induction false} LawfulCiphersExist(document: Object)
    ensures Lawful(Toy(document)) && Survives(Toy(document), document)
  {
    var c := Toy(document);
    forall key: Bytes, seed: Bytes | |key| == AES_KEY_BYTES
      ensures c.rsaDecrypt(c.rsaEncrypt(key, seed)) == Some(key)
    {
      assert (key + Zeros(224))[..AES_KEY_BYTES] == key;
    }
    forall text: string ensures BytesText(TextBytes(text)) == text {
      TextRoundTrip(text);
    }
    forall bytes: Bytes ensures Unchars(Chars(bytes)) == bytes {
      CharsRoundTrip(bytes);
    }
  }
}
