/** Payload framing around abstract ciphers, and the instruction's way into JSON and out again. */
module Crypto {
  import opened Types
  import opened Codec

  newtype byte = x: int | 0 <= x < 256
  type Bytes = seq<byte>

  const AES_KEY_BYTES := 32
  const GCM_IV_BYTES := 12
  const GCM_TAG_BYTES := 16
  const RSA_ENCRYPTED_KEY_BYTES := 256

  // ---- JSON ----

  datatype Json = Str(s: string) | Float(x: real) | Integer(n: int) | Other

  type Object = map<string, Json>

  datatype JsonError = MissingKey(key: string) | WrongType(key: string)

  function ToJson(fl: real -> real, p: PaymentInstruction): Object {
    map["senderVpa" := Str(p.senderVpa), "receiverVpa" := Str(p.receiverVpa),
        "amount" := Float(ToRupees(fl, p.amount)), "pinHash" := Str(p.pinHash),
        "nonce" := Str(p.nonce), "signedAt" := Integer(p.signedAt)]
  }

  function GetString(j: Object, key: string): Result<string, JsonError> {
    if key !in j then Err(MissingKey(key))
    else if j[key].Str? then Ok(j[key].s)
    else Err(WrongType(key))
  }

  function GetDouble(fl: real -> real, j: Object, key: string): Result<real, JsonError> {
    if key !in j then Err(MissingKey(key))
    else
      match j[key]
      case Float(x) => Ok(x)
      case Integer(n) => Ok(fl(n as real))
      case _ => Err(WrongType(key))
  }

  /** A fractional number read as an integer loses its fraction. */
  function GetInt(j: Object, key: string): Result<int, JsonError> {
    if key !in j then Err(MissingKey(key))
    else
      match j[key]
      case Integer(n) => Ok(n)
      case Float(x) => Ok(if x >= 0.0 then x.Floor else -((-x).Floor))
      case _ => Err(WrongType(key))
  }

  /** Field by field, in the source's order; the first failure is thrown. */
  function FromJson(fl: real -> real, j: Object): Result<PaymentInstruction, JsonError> {
    match GetString(j, "senderVpa")
    case Err(e) => Err(e)
    case Ok(sender) =>
    match GetString(j, "receiverVpa")
    case Err(e) => Err(e)
    case Ok(receiver) =>
    match GetDouble(fl, j, "amount")
    case Err(e) => Err(e)
    case Ok(rupees) =>
    match GetString(j, "pinHash")
    case Err(e) => Err(e)
    case Ok(pinHash) =>
    match GetString(j, "nonce")
    case Err(e) => Err(e)
    case Ok(nonce) =>
    match GetInt(j, "signedAt")
    case Err(e) => Err(e)
    case Ok(signedAt) =>
      Ok(PaymentInstruction(sender, receiver, ToPaise(fl, rupees), pinHash, nonce, signedAt))
  }

  // ---- what a document says ----

  datatype Kind = Text | Number

  /** The fields an instruction is read from, in the order they are read. */
  function Fields(): seq<(string, Kind)> {
    [("senderVpa", Text), ("receiverVpa", Text), ("amount", Number), ("pinHash", Text), ("nonce", Text),
     ("signedAt", Number)]
  }

  predicate Readable(j: Object, field: (string, Kind)) {
    field.0 in j &&
    match field.1
    case Text => j[field.0].Str?
    case Number => j[field.0].Float? || j[field.0].Integer?
  }

  predicate AllReadable(j: Object) {
    forall i :: 0 <= i < 6 ==> Readable(j, Fields()[i])
  }

  /** Field number i is the first that cannot be read. */
  predicate FirstUnreadable(j: Object, i: int) {
    0 <= i < 6 && !Readable(j, Fields()[i]) && forall k :: 0 <= k < i ==> Readable(j, Fields()[k])
  }

  /** The integer a number loses its fraction to. */
  predicate Truncated(v: Json, n: int) {
    match v
    case Integer(m) => n == m
    case Float(x) => if x >= 0.0 then n as real <= x < n as real + 1.0 else n as real - 1.0 < x <= n as real
    case _ => false
  }

  /** The number of rupees an amount stands for: a whole number as well as a fractional one. */
  predicate StandsFor(fl: real -> real, v: Json, rupees: real) {
    match v
    case Integer(n) => rupees == fl(n as real)
    case Float(x) => rupees == x
    case _ => false
  }

  /** The document says p: its texts are p's, its amount is rounded to paise, its time is cut to milliseconds. */
  ghost predicate Says(fl: real -> real, j: Object, p: PaymentInstruction) {
    && {"senderVpa", "receiverVpa", "amount", "pinHash", "nonce", "signedAt"} <= j.Keys
    && j["senderVpa"] == Str(p.senderVpa) && j["receiverVpa"] == Str(p.receiverVpa)
    && j["pinHash"] == Str(p.pinHash) && j["nonce"] == Str(p.nonce)
    && (exists rupees :: StandsFor(fl, j["amount"], rupees) && p.amount == ToPaise(fl, rupees))
    && Truncated(j["signedAt"], p.signedAt)
  }

  lemma {:induction false} KeysDiffer()
    ensures "amount" != "nonce" && "pinHash" != "nonce" && "pinHash" != "amount"
    ensures |"senderVpa"| == 9 && |"receiverVpa"| == 11 && |"amount"| == 6
    ensures |"pinHash"| == 7 && |"nonce"| == 5 && |"signedAt"| == 8
  {
  }

  lemma {:induction false} TruncatedOnce(v: Json, m: int, n: int)
    requires Truncated(v, m) && Truncated(v, n)
    ensures m == n
  {
  }

  lemma {:induction false} AllReadableMeans(j: Object)
    ensures AllReadable(j) <==>
      && Readable(j, ("senderVpa", Text)) && Readable(j, ("receiverVpa", Text)) && Readable(j, ("amount", Number))
      && Readable(j, ("pinHash", Text)) && Readable(j, ("nonce", Text)) && Readable(j, ("signedAt", Number))
  {
    var fields := Fields();
    assert fields[0] == ("senderVpa", Text) && fields[1] == ("receiverVpa", Text) && fields[2] == ("amount", Number);
    assert fields[3] == ("pinHash", Text) && fields[4] == ("nonce", Text) && fields[5] == ("signedAt", Number);
  }

  lemma {:induction false} LeastUnreadable(j: Object, i: int)
    requires 0 <= i < 6 && !Readable(j, Fields()[i])
    ensures exists k :: FirstUnreadable(j, k)
    decreases i
  {
    if !FirstUnreadable(j, i) {
      var k :| 0 <= k < i && !Readable(j, Fields()[k]);
      LeastUnreadable(j, k);
    }
  }

  /** The error names the first field that cannot be read, and there is just one such field. */
  lemma {:induction false} FirstUnreadableErrs(fl: real -> real, j: Object)
    requires !AllReadable(j)
    ensures FromJson(fl, j).Err?
    ensures exists i :: FirstUnreadable(j, i)
    ensures forall i :: FirstUnreadable(j, i) ==>
      FromJson(fl, j) == Err(if Fields()[i].0 in j then WrongType(Fields()[i].0) else MissingKey(Fields()[i].0))
  {
    var i :| 0 <= i < 6 && !Readable(j, Fields()[i]);
    LeastUnreadable(j, i);
    forall i | FirstUnreadable(j, i)
      ensures FromJson(fl, j) == Err(if Fields()[i].0 in j then WrongType(Fields()[i].0) else MissingKey(Fields()[i].0))
    {
      var fields := Fields();
      assert i > 0 ==> Readable(j, fields[0]);
      assert i > 1 ==> Readable(j, fields[1]);
      assert i > 2 ==> Readable(j, fields[2]);
      assert i > 3 ==> Readable(j, fields[3]);
      assert i > 4 ==> Readable(j, fields[4]);
    }
  }

  /** Any document gives the instruction it says, if all six fields can be read, and otherwise the error of the first
      one that cannot: it is missing or of the wrong type. */
  lemma {:induction false} ReadingIsExact(fl: real -> real, j: Object)
    ensures forall p :: FromJson(fl, j) == Ok(p) <==> Says(fl, j, p)
    ensures FromJson(fl, j).Ok? <==> AllReadable(j)
    ensures forall e :: FromJson(fl, j) == Err(e) <==>
      exists i :: FirstUnreadable(j, i) &&
        e == if Fields()[i].0 in j then WrongType(Fields()[i].0) else MissingKey(Fields()[i].0)
  {
    AllReadableMeans(j);
    if AllReadable(j) {
      var q := FromJson(fl, j).value;
      assert StandsFor(fl, j["amount"], GetDouble(fl, j, "amount").value);
      forall p ensures Says(fl, j, p) <==> p == q {
        if Says(fl, j, p) {
          TruncatedOnce(j["signedAt"], p.signedAt, q.signedAt);
        }
      }
    } else {
      FirstUnreadableErrs(fl, j);
    }
  }

  /** A whole number of rupees up to 2^53 paise is worth exactly 100 paise each. */
  lemma {:induction false} WholeAmount(fl: real -> real, j: Object, p: PaymentInstruction, n: int)
    requires DoubleRounding(fl) && -90071992547409 <= n <= 90071992547409
    requires Says(fl, j, p) && j["amount"] == Integer(n)
    ensures p.amount == 100 * n
  {
    WholeRupees(fl, n);
  }

  /** A fractional number of rupees is worth the nearest number of paise, but for the error of one multiplication. */
  lemma {:induction false} FractionalAmount(fl: real -> real, j: Object, p: PaymentInstruction, x: real)
    requires DoubleRounding(fl) && Abs(x * 100.0) <= TWO_53
    requires Says(fl, j, p) && j["amount"] == Float(x)
    ensures Abs(p.amount as real - x * 100.0) <= 0.5 + Abs(x * 100.0) / TWO_53
  {
    NearestPaisa(fl, x);
  }

  /** Every field but the amount comes back as it was, and the amount as the two conversions leave it. */
  lemma {:induction false} JsonRoundTrip(fl: real -> real, p: PaymentInstruction)
    ensures ToJson(fl, p).Keys == {"senderVpa", "receiverVpa", "amount", "pinHash", "nonce", "signedAt"}
    ensures ToJson(fl, p)["amount"].Float?
    ensures FromJson(fl, ToJson(fl, p)) == Ok(p.(amount := ToPaise(fl, ToRupees(fl, p.amount))))
    ensures FromJson(fl, ToJson(fl, p)) == Ok(p) <==> AmountSurvives(fl, p.amount)
  {
    KeysDiffer();
    var j := ToJson(fl, p);
    assert GetString(j, "senderVpa") == Ok(p.senderVpa);
    assert GetString(j, "receiverVpa") == Ok(p.receiverVpa);
    assert GetDouble(fl, j, "amount") == Ok(ToRupees(fl, p.amount));
    assert GetString(j, "pinHash") == Ok(p.pinHash);
    assert GetString(j, "nonce") == Ok(p.nonce);
    assert GetInt(j, "signedAt") == Ok(p.signedAt);
  }

  // ---- framing ----

  /** RSA-encrypted AES key, GCM IV, AES ciphertext, GCM tag. */
  datatype Frame = Frame(rsa: Bytes, iv: Bytes, aes: Bytes, tag: Bytes)

  function Joined(f: Frame): Bytes {
    f.rsa + f.iv + f.aes + f.tag
  }

  ghost predicate Sized(f: Frame) {
    |f.rsa| == RSA_ENCRYPTED_KEY_BYTES && |f.iv| == GCM_IV_BYTES && |f.tag| == GCM_TAG_BYTES
  }

  /** The packed buffer, grown by four inserts. */
  method Pack(f: Frame) returns (packed: Bytes)
    ensures packed == Joined(f)
  {
    packed := [];
    packed := packed + f.rsa;
    packed := packed + f.iv;
    packed := packed + f.aes;
    packed := packed + f.tag;
  }

  /** The only frame a buffer can come from. */
  function Unpacked(all: Bytes): Option<Frame> {
    if |all| < RSA_ENCRYPTED_KEY_BYTES + GCM_IV_BYTES + GCM_TAG_BYTES then None
    else
      var body := RSA_ENCRYPTED_KEY_BYTES + GCM_IV_BYTES;
      Some(Frame(all[..RSA_ENCRYPTED_KEY_BYTES], all[RSA_ENCRYPTED_KEY_BYTES..body],
                 all[body..|all| - GCM_TAG_BYTES], all[|all| - GCM_TAG_BYTES..]))
  }

  /** The iterator walks over the four parts; a buffer below 284 bytes is too short. */
  method Unpack(all: Bytes) returns (f: Option<Frame>)
    ensures f == Unpacked(all)
    ensures f.None? <==> |all| < 284
    ensures f.Some? ==> Sized(f.value) && Joined(f.value) == all
    ensures f.Some? ==> |f.value.rsa| == 256 && |f.value.iv| == 12 && |f.value.tag| == 16
  {
    if |all| < RSA_ENCRYPTED_KEY_BYTES + GCM_IV_BYTES + GCM_TAG_BYTES {
      return None;
    }
    var it := 0;
    var rsa := all[it..it + RSA_ENCRYPTED_KEY_BYTES];
    it := it + RSA_ENCRYPTED_KEY_BYTES;
    var iv := all[it..it + GCM_IV_BYTES];
    it := it + GCM_IV_BYTES;
    var aesCipherLen := |all| - it - GCM_TAG_BYTES;
    var aes := all[it..it + aesCipherLen];
    it := it + aesCipherLen;
    var tag := all[it..];
    f := Some(Frame(rsa, iv, aes, tag));
  }

  /** Packing and unpacking undo each other on sized frames and on buffers long enough. */
  lemma {:induction false} FrameRoundTrip(f: Frame, all: Bytes)
    ensures Sized(f) ==> Unpacked(Joined(f)) == Some(f)
    ensures |all| >= 284 ==> Unpacked(all).Some? && Sized(Unpacked(all).value) && Joined(Unpacked(all).value) == all
  {
    if Sized(f) {
      var packed := Joined(f);
      assert packed[..256] == f.rsa;
      assert packed[256..268] == f.iv;
      assert packed[268..|packed| - 16] == f.aes;
      assert packed[|packed| - 16..] == f.tag;
    }
  }

  // ---- ciphers ----

  /** OpenSSL and the JSON library; encryption takes its randomness as an argument, and None is a thrown error. */
  datatype Ciphers = Ciphers(
    rsaEncrypt: (Bytes, Bytes) -> Bytes,
    rsaDecrypt: Bytes -> Option<Bytes>,
    gcmEncrypt: (Bytes, Bytes, string) -> (Bytes, Bytes),
    gcmDecrypt: (Bytes, Bytes, Bytes, Bytes) -> Option<string>,
    encode: Bytes -> string,
    decode: string -> Option<Bytes>,
    dump: Object -> string,
    parse: string -> Option<Object>)

  /** Each decoder undoes its encoder on keys and IVs of the right size; the RSA key is 2048 bits, the tag 128. */
  ghost predicate Lawful(c: Ciphers) {
    && (forall key, seed :: |key| == AES_KEY_BYTES ==>
          && c.rsaDecrypt(c.rsaEncrypt(key, seed)) == Some(key)
          && |c.rsaEncrypt(key, seed)| == RSA_ENCRYPTED_KEY_BYTES)
    && (forall key, iv, text :: |key| == AES_KEY_BYTES && |iv| == GCM_IV_BYTES ==>
          var sealed := c.gcmEncrypt(key, iv, text);
          |sealed.1| == GCM_TAG_BYTES && c.gcmDecrypt(key, iv, sealed.0, sealed.1) == Some(text))
    && (forall bytes :: c.decode(c.encode(bytes)) == Some(bytes))
  }

  /** Printing and parsing give the document back. */
  predicate Survives(c: Ciphers, document: Object) {
    c.parse(c.dump(document)) == Some(document)
  }

  /** What RAND_bytes and the OAEP padding contribute to one packet. */
  datatype Randomness = Randomness(aesKey: Bytes, iv: Bytes, seed: Bytes) {
    predicate Sized() {
      |aesKey| == AES_KEY_BYTES && |iv| == GCM_IV_BYTES
    }
  }

  datatype CryptoError = BadBase64 | TooShort | BadKey | BadTag | BadJson

  function Sealed(c: Ciphers, plaintext: string, r: Randomness): Frame {
    var (aes, tag) := c.gcmEncrypt(r.aesKey, r.iv, plaintext);
    Frame(c.rsaEncrypt(r.aesKey, r.seed), r.iv, aes, tag)
  }

  function Encrypted(c: Ciphers, instruction: Object, r: Randomness): string {
    c.encode(Joined(Sealed(c, c.dump(instruction), r)))
  }

  function Decrypted(c: Ciphers, ciphertext: string): Result<Object, CryptoError> {
    match c.decode(ciphertext)
    case None => Err(BadBase64)
    case Some(all) =>
    match Unpacked(all)
    case None => Err(TooShort)
    case Some(f) =>
    match c.rsaDecrypt(f.rsa)
    case None => Err(BadKey)
    case Some(key) =>
    match c.gcmDecrypt(key, f.iv, f.aes, f.tag)
    case None => Err(BadTag)
    case Some(text) =>
    match c.parse(text)
    case None => Err(BadJson)
    case Some(j) => Ok(j)
  }

  /** The ciphertext decodes to this frame, whose parts have the sizes `Pack` gave them. */
  ghost predicate Carried(c: Ciphers, ciphertext: string, f: Frame) {
    Sized(f) && c.decode(ciphertext) == Some(Joined(f))
  }

  ghost predicate CarriesKey(c: Ciphers, ciphertext: string, f: Frame, key: Bytes) {
    Carried(c, ciphertext, f) && c.rsaDecrypt(f.rsa) == Some(key)
  }

  ghost predicate CarriesText(c: Ciphers, ciphertext: string, f: Frame, key: Bytes, text: string) {
    CarriesKey(c, ciphertext, f, key) && c.gcmDecrypt(key, f.iv, f.aes, f.tag) == Some(text)
  }

  /** The stage that stopped a decryption, or the document that came out of all of them. */
  ghost predicate DecryptsTo(c: Ciphers, ciphertext: string, r: Result<Object, CryptoError>) {
    && (r == Err(BadBase64) <==> c.decode(ciphertext).None?)
    && (r == Err(TooShort) <==> c.decode(ciphertext).Some? && |c.decode(ciphertext).value| < 284)
    && (r == Err(BadKey) <==> exists f :: Carried(c, ciphertext, f) && c.rsaDecrypt(f.rsa).None?)
    && (r == Err(BadTag) <==>
         exists f, key :: CarriesKey(c, ciphertext, f, key) && c.gcmDecrypt(key, f.iv, f.aes, f.tag).None?)
    && (r == Err(BadJson) <==> exists f, key, text :: CarriesText(c, ciphertext, f, key, text) && c.parse(text).None?)
    && forall j :: r == Ok(j) <==>
         exists f, key, text :: CarriesText(c, ciphertext, f, key, text) && c.parse(text) == Some(j)
  }

  /** A ciphertext is carried by the frame its bytes unpack to and by no other. */
  lemma {:induction false} CarriedByOneFrame(c: Ciphers, ciphertext: string, f: Frame)
    ensures Carried(c, ciphertext, f) <==>
      c.decode(ciphertext).Some? && Unpacked(c.decode(ciphertext).value) == Some(f)
  {
    FrameRoundTrip(f, if c.decode(ciphertext).Some? then c.decode(ciphertext).value else []);
  }

  /** Which stage stops a decryption, and that a document comes out exactly when none does. */
  lemma {:induction false} DecryptionOutcomes(c: Ciphers, ciphertext: string)
    ensures DecryptsTo(c, ciphertext, Decrypted(c, ciphertext))
  {
    forall f ensures Carried(c, ciphertext, f) <==>
      c.decode(ciphertext).Some? && Unpacked(c.decode(ciphertext).value) == Some(f)
    {
      CarriedByOneFrame(c, ciphertext, f);
    }
    var all := c.decode(ciphertext);
    if all.Some? && Unpacked(all.value).Some? {
      var f := Unpacked(all.value).value;
      var key := c.rsaDecrypt(f.rsa);
      if key.Some? && c.gcmDecrypt(key.value, f.iv, f.aes, f.tag).Some? {
        assert CarriesText(c, ciphertext, f, key.value, c.gcmDecrypt(key.value, f.iv, f.aes, f.tag).value);
      }
    }
  }

  class HybridCryptoService {
    const ciphers: Ciphers

    constructor (ciphers: Ciphers)
      ensures this.ciphers == ciphers
    {
      this.ciphers := ciphers;
    }

    method Encrypt(instruction: Object, r: Randomness) returns (ciphertext: string)
      ensures ciphertext == Encrypted(ciphers, instruction, r)
    {
      var plaintext := ciphers.dump(instruction);
      var sealed := ciphers.gcmEncrypt(r.aesKey, r.iv, plaintext);
      var rsaCiphertext := ciphers.rsaEncrypt(r.aesKey, r.seed);
      var packed := Pack(Frame(rsaCiphertext, r.iv, sealed.0, sealed.1));
      ciphertext := ciphers.encode(packed);
    }

    method Decrypt(ciphertext: string) returns (r: Result<Object, CryptoError>)
      ensures r == Decrypted(ciphers, ciphertext)
      ensures DecryptsTo(ciphers, ciphertext, r)
    {
      DecryptionOutcomes(ciphers, ciphertext);
      var all := ciphers.decode(ciphertext);
      if all.None? {
        return Err(BadBase64);
      }
      var f := Unpack(all.value);
      if f.None? {
        return Err(TooShort);
      }
      var aesKey := ciphers.rsaDecrypt(f.value.rsa);
      if aesKey.None? {
        return Err(BadKey);
      }
      var plaintext := ciphers.gcmDecrypt(aesKey.value, f.value.iv, f.value.aes, f.value.tag);
      if plaintext.None? {
        return Err(BadTag);
      }
      var j := ciphers.parse(plaintext.value);
      r := if j.Some? then Ok(j.value) else Err(BadJson);
    }
  }

  /** Decryption recovers the JSON document. */
  lemma {:induction false} CipherRoundTrip(c: Ciphers, instruction: Object, r: Randomness)
    requires Lawful(c) && Survives(c, instruction) && r.Sized()
    ensures Decrypted(c, Encrypted(c, instruction, r)) == Ok(instruction)
  {
    var f := Sealed(c, c.dump(instruction), r);
    FrameRoundTrip(f, []);
  }

  /** The one frame an encrypted document carries holds the key and the IV drawn for it, and the document under them. */
  lemma {:induction false} SealedWithDrawnKey(c: Ciphers, instruction: Object, r: Randomness, f: Frame)
    requires Lawful(c) && |r.aesKey| == 32 && |r.iv| == 12 && Carried(c, Encrypted(c, instruction, r), f)
    ensures f.rsa == c.rsaEncrypt(r.aesKey, r.seed) && c.rsaDecrypt(f.rsa) == Some(r.aesKey)
    ensures f.iv == r.iv && (f.aes, f.tag) == c.gcmEncrypt(r.aesKey, r.iv, c.dump(instruction))
  {
    var g := Sealed(c, c.dump(instruction), r);
    FrameRoundTrip(g, []);
    CarriedByOneFrame(c, Encrypted(c, instruction, r), f);
  }

  /** What the ingest gate makes of a ciphertext: decrypt, then read the instruction; None when either throws. */
  function Open(c: Ciphers, fl: real -> real, ciphertext: string): Option<PaymentInstruction> {
    match Decrypted(c, ciphertext)
    case Err(_) => None
    case Ok(j) =>
      match FromJson(fl, j)
      case Err(_) => None
      case Ok(p) => Some(p)
  }

  /** A ciphertext opens as p exactly when it carries a text that parses to a document saying p. */
  lemma {:induction false} OpeningIsExact(c: Ciphers, fl: real -> real, ciphertext: string, p: PaymentInstruction)
    ensures Open(c, fl, ciphertext) == Some(p) <==>
      exists f, key, text, j :: CarriesText(c, ciphertext, f, key, text) && c.parse(text) == Some(j) && Says(fl, j, p)
  {
    DecryptionOutcomes(c, ciphertext);
    forall j ensures FromJson(fl, j) == Ok(p) <==> Says(fl, j, p) {
      ReadingIsExact(fl, j);
    }
  }

  /** The server opens the very instruction a phone sealed exactly when its amount survives the doubles. */
  lemma {:induction false} PayloadExactly(c: Ciphers, fl: real -> real, p: PaymentInstruction, r: Randomness)
    requires Lawful(c) && Survives(c, ToJson(fl, p)) && r.Sized()
    ensures Open(c, fl, Encrypted(c, ToJson(fl, p), r)) == Some(p) <==> AmountSurvives(fl, p.amount)
  {
    CipherRoundTrip(c, ToJson(fl, p), r);
    JsonRoundTrip(fl, p);
  }

  /** And so below 2^51 paise, whatever the rounding. */
  lemma {:induction false} PayloadRoundTrip(c: Ciphers, fl: real -> real, p: PaymentInstruction, r: Randomness)
    requires Lawful(c) && Survives(c, ToJson(fl, p)) && r.Sized()
    requires DoubleRounding(fl) && -TWO_51 < p.amount < TWO_51
    ensures Open(c, fl, Encrypted(c, ToJson(fl, p), r)) == Some(p)
  {
    PayloadExactly(c, fl, p, r);
    AmountRoundTrip(fl, p.amount);
  }
}
