/**
 * The Express backend's `AESDecryptor` (backend-node/utils/aesDecryptor.js):
 * turning the IV and key arguments into 16-byte buffers, PKCS#7 padding
 * removal with its keep-as-is fallback (section 6.3 of RFC 5652), the two
 * validators and the method detection.  The AES-128-CBC block cipher itself
 * is a parameter.
 */
module AesDecryptor {
  import opened Wrappers
  import opened Text
  import opened Bytes

  /**
   * `createDecipheriv(algorithm, key, iv)` with automatic padding off,
   * `update` then `final`: the plaintext, or None when it throws.
   */
  type Cipher = (bytes, bytes, bytes) -> Option<bytes>

  const BlockSize := 16

  /** The JavaScript types the `iv` argument is told apart by. */
  datatype IvInput = IvHex(text: string) | IvNumber(n: int) | IvBuffer(buf: bytes) | IvOther

  datatype KeyInput = KeyHex(text: string) | KeyBuffer(buf: bytes)

  datatype DecryptError = IvOutOfRange(n: int) | KeyLength(len: nat) | CipherFailed

  /** Every failure inside `decrypt` is rethrown as one `AES解密失败` error. */
  datatype DecryptFailure = AesDecryptFailed(cause: DecryptError)

  // ---------------------------------------------------------------------
  // IV and key buffers

  /**
   * The IV buffer before normalisation: a string is hex-decoded, a number
   * is written with `writeUInt32BE` at offset 12 of 16 zero bytes (which
   * throws outside 0..2^32-1), a Buffer is used as it is, anything else
   * is 16 zero bytes.
   */
  function RawIv(iv: IvInput): Result<bytes, DecryptError> {
    match iv
    case IvHex(s) => Ok(NodeFromHex(s))
    case IvNumber(n) => if 0 <= n < 0x1_0000_0000 then Ok(Zeros(12) + BigEndian(n, 4)) else Err(IvOutOfRange(n))
    case IvBuffer(b) => Ok(b)
    case IvOther => Ok(Zeros(16))
  }

  /** Right-pad a short IV with zeros, truncate a long one. */
  function FitIv(b: bytes): (r: bytes)
    ensures |r| == 16
    ensures forall k :: 0 <= k < |b| && k < 16 ==> r[k] == b[k]
    ensures forall k :: |b| <= k < 16 ==> r[k] == 0
  {
    if |b| < 16 then b + Zeros(16 - |b|)
    else if |b| > 16 then b[..16]
    else b
  }

  /** The key buffer: a string is hex-decoded, a Buffer is used as it is. */
  function KeyBytes(key: KeyInput): bytes {
    match key
    case KeyHex(s) => NodeFromHex(s)
    case KeyBuffer(b) => b
  }

  /** In range, the numeric IV is the index as an unsigned 32-bit big-endian value in bytes 12..15. */
  lemma NumericIv(n: nat)
    requires n < 0x1_0000_0000
    ensures RawIv(IvNumber(n)).Ok? && |RawIv(IvNumber(n)).value| == 16
    ensures RawIv(IvNumber(n)).value[..12] == Zeros(12)
    ensures BigEndianValue(RawIv(IvNumber(n)).value[12..]) == n
  {
    var r := Zeros(12) + BigEndian(n, 4);
    assert r[..12] == Zeros(12);
    assert r[12..] == BigEndian(n, 4);
    assert Pow256(4) == 0x1_0000_0000;
    BigEndianRoundTrip(n, 4);
  }

  // ---------------------------------------------------------------------
  // removePKCS7Padding

  /**
   * The input ends in `p` copies of the byte `p`, for `p` in 1..16 (the
   * padding the code accepts).
   */
  predicate HasPadding(data: bytes) {
    && |data| > 0
    && 1 <= data[|data| - 1] <= BlockSize
    && data[|data| - 1] <= |data|
    && forall j :: |data| - data[|data| - 1] <= j < |data| ==> data[j] == data[|data| - 1]
  }

  /** The reference result: the padding removed when there is one, else the input. */
  function Unpadded(data: bytes): bytes {
    if HasPadding(data) then data[..|data| - data[|data| - 1]] else data
  }

  /**
   * The result is a prefix at most 16 bytes shorter, and it is the input
   * itself exactly when the padding check fails: empty input, last byte 0
   * or above 16, or a padding byte that differs.
   */
  lemma UnpaddedIsPrefix(data: bytes)
    ensures |data| - 16 <= |Unpadded(data)| <= |data|
    ensures Unpadded(data) == data[..|Unpadded(data)|]
    ensures Unpadded(data) == data <==> !HasPadding(data)
  {
  }

  /** PKCS#7 padding of a message to a whole number of 16-byte blocks. */
  function Pad(m: bytes): (r: bytes)
    ensures |r| % BlockSize == 0 && |m| < |r| <= |m| + BlockSize
  {
    var p := BlockSize - |m| % BlockSize;
    m + seq(p, _ => p as byte)
  }

  /** Removing the padding undoes padding. */
  lemma UnpadPad(m: bytes)
    ensures HasPadding(Pad(m))
    ensures Unpadded(Pad(m)) == m
  {
    var p := BlockSize - |m| % BlockSize;
    var r := Pad(m);
    assert r == m + seq(p, _ => p as byte);
    assert r[|r| - 1] == p;
    assert r[..|r| - p] == m;
  }

  /** The checking loop with early returns; reading before the start gives `undefined`, which differs from the padding byte. */
  method RemovePKCS7Padding(data: bytes) returns (r: bytes)
    ensures r == Unpadded(data)
  {
    if |data| == 0 {
      return data;
    }
    var paddingLength := data[|data| - 1];
    if paddingLength == 0 || paddingLength > 16 {
      return data;
    }
    var i: int := |data| - paddingLength;
    while i < |data|
      invariant |data| - paddingLength <= i <= |data|
      invariant |data| - paddingLength < i ==> 0 <= |data| - paddingLength
      invariant forall j :: |data| - paddingLength <= j < i ==> data[j] == paddingLength
    {
      if i < 0 || data[i] != paddingLength {
        return data;
      }
      i := i + 1;
    }
    return data[..|data| - paddingLength];
  }

  // ---------------------------------------------------------------------
  // decrypt

  /**
   * `decrypt`: IV buffer, normalised to 16 bytes; key buffer, which must be
   * 16 bytes; the cipher; then padding removal. Each failure is wrapped.
   */
  function DecryptSpec(cipher: Cipher, data: bytes, key: KeyInput, iv: IvInput): Result<bytes, DecryptFailure> {
    if RawIv(iv).Err? then Err(AesDecryptFailed(RawIv(iv).error))
    else if |KeyBytes(key)| != 16 then Err(AesDecryptFailed(KeyLength(|KeyBytes(key)|)))
    else match cipher(KeyBytes(key), FitIv(RawIv(iv).value), data)
      case None => Err(AesDecryptFailed(CipherFailed))
      case Some(plain) => Ok(Unpadded(plain))
  }

  method Decrypt(cipher: Cipher, data: bytes, key: KeyInput, iv: IvInput) returns (r: Result<bytes, DecryptFailure>)
    ensures r == DecryptSpec(cipher, data, key, iv)
  {
    var ivBuffer: bytes;
    match iv {
      case IvHex(s) =>
        ivBuffer := NodeFromHex(s);
      case IvNumber(n) =>
        if n < 0 || n >= 0x1_0000_0000 {
          return Err(AesDecryptFailed(IvOutOfRange(n)));
        }
        ivBuffer := Zeros(16);
        ivBuffer := ivBuffer[..12] + BigEndian(n, 4);
      case IvBuffer(b) =>
        ivBuffer := b;
      case IvOther =>
        ivBuffer := Zeros(16);
    }
    ghost var raw := ivBuffer;
    assert raw == RawIv(iv).value;
    if |ivBuffer| < 16 {
      var paddedIv := Zeros(16);
      assert paddedIv[|ivBuffer|..] == Zeros(16 - |ivBuffer|);
      paddedIv := ivBuffer + paddedIv[|ivBuffer|..];
      ivBuffer := paddedIv;
    } else if |ivBuffer| > 16 {
      ivBuffer := ivBuffer[..16];
    }
    assert ivBuffer == FitIv(raw);
    var keyBuffer: bytes;
    match key {
      case KeyHex(s) =>
        keyBuffer := NodeFromHex(s);
      case KeyBuffer(b) =>
        keyBuffer := b;
    }
    assert keyBuffer == KeyBytes(key);
    if |keyBuffer| != 16 {
      return Err(AesDecryptFailed(KeyLength(|keyBuffer|)));
    }
    var decrypted := cipher(keyBuffer, ivBuffer, data);
    if decrypted.None? {
      return Err(AesDecryptFailed(CipherFailed));
    }
    var plain := RemovePKCS7Padding(decrypted.value);
    return Ok(plain);
  }

  /**
   * `decrypt` succeeds exactly when the IV can be built, the key is 16
   * bytes and the cipher does not throw; the plaintext it returns is then
   * the cipher's output with at most one block of padding cut off its end.
   */
  lemma DecryptOutcome(cipher: Cipher, data: bytes, key: KeyInput, iv: IvInput)
    ensures DecryptSpec(cipher, data, key, iv).Ok? <==>
      RawIv(iv).Ok? && |KeyBytes(key)| == 16 && cipher(KeyBytes(key), FitIv(RawIv(iv).value), data).Some?
    ensures DecryptSpec(cipher, data, key, iv).Ok? ==>
      var plain := cipher(KeyBytes(key), FitIv(RawIv(iv).value), data).value;
      var r := DecryptSpec(cipher, data, key, iv).value;
      |plain| - 16 <= |r| <= |plain| && r == plain[..|r|]
  {
    if DecryptSpec(cipher, data, key, iv).Ok? {
      UnpaddedIsPrefix(cipher(KeyBytes(key), FitIv(RawIv(iv).value), data).value);
    }
  }

  // ---------------------------------------------------------------------
  // validateKey, validateIV, stringToBuffer

  /** `stringToBuffer`: one leading `0x` is dropped before hex decoding. */
  function StringToBuffer(s: string): bytes {
    NodeFromHex(if StartsWith(s, "0x") then s[2..] else s)
  }

  predicate ValidateKey(key: KeyInput) {
    match key
    case KeyHex(s) => |StringToBuffer(s)| == 16
    case KeyBuffer(b) => |b| == 16
  }

  predicate ValidateIV(iv: IvInput) {
    match iv
    case IvNumber(_) => true
    case IvHex(s) => |StringToBuffer(s)| <= 16
    case IvBuffer(b) => |b| <= 16
    case IvOther => false
  }

  /** Without a `0x` prefix, a key validateKey accepts passes decrypt's length check. */
  lemma ValidKeyHasDecryptLength(key: KeyInput)
    requires ValidateKey(key)
    requires key.KeyHex? ==> !StartsWith(key.text, "0x")
    ensures |KeyBytes(key)| == 16
  {
  }

  /** A hex IV or Buffer validateIV accepts is only padded by decrypt, never truncated. */
  lemma ValidIvIsNotTruncated(iv: IvInput)
    requires ValidateIV(iv) && !iv.IvNumber?
    requires iv.IvHex? ==> !StartsWith(iv.text, "0x")
    ensures RawIv(iv).Ok? && |RawIv(iv).value| <= 16
    ensures RawIv(iv).value == FitIv(RawIv(iv).value)[..|RawIv(iv).value|]
  {
  }

  /**
   * validateKey strips `0x`, decrypt does not: a `0x`-prefixed 16-byte
   * key validates, and decrypt reads it as 0 bytes long.
   */
  lemma PrefixedKeyValidatesButFails(b: bytes)
    requires |b| == 16
    ensures ValidateKey(KeyHex("0x" + ToHex(b)))
    ensures |KeyBytes(KeyHex("0x" + ToHex(b)))| == 0
  {
    var s := "0x" + ToHex(b);
    assert s[..2] == "0x";
    assert s[2..] == ToHex(b);
    NodeFromHexOfToHex(b);
    assert !IsHexDigit(s[1]);
  }

  // ---------------------------------------------------------------------
  // detectEncryptionMethod

  datatype MethodError = Unsupported(upper: string)

  /**
   * A missing or empty method gives null; otherwise the upper-cased name
   * selects the cipher, and any other name throws.
   */
  function DetectEncryptionMethod(methodName: Option<string>): Result<Option<string>, MethodError> {
    if methodName.None? || methodName.value == "" then Ok(None)
    else
      var m := ToUpper(methodName.value);
      if m == "AES-128" || m == "AES-128-CBC" then Ok(Some("aes-128-cbc"))
      else if m == "AES-128-CTR" then Ok(Some("aes-128-ctr"))
      else Err(Unsupported(m))
  }

  lemma UpperOfLower(s: string)
    ensures ToUpper(ToLower(s)) == ToUpper(s)
  {
    assert forall k :: 0 <= k < |s| ==> UpperChar(LowerChar(s[k])) == UpperChar(s[k]);
  }

  /** The detection ignores letter case. */
  lemma DetectIgnoresCase(s: string)
    ensures DetectEncryptionMethod(Some(ToLower(s))) == DetectEncryptionMethod(Some(s))
  {
    UpperOfLower(s);
    if s == "" {
      assert ToLower(s) == "";
    } else {
      assert |ToLower(s)| > 0;
    }
  }

  /** The result is one of the two cipher names, or null, or an error. */
  lemma DetectedNames(m: Option<string>)
    requires DetectEncryptionMethod(m).Ok? && DetectEncryptionMethod(m).value.Some?
    ensures DetectEncryptionMethod(m).value.value in {"aes-128-cbc", "aes-128-ctr"}
    ensures DetectEncryptionMethod(m).value.value == "aes-128-ctr" <==> ToUpper(m.value) == "AES-128-CTR"
  {
  }
}
