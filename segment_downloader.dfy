/**
 * The Django backend's `SegmentDownloader`
 * (downloader/utils/downloader.py): the segment file name, the retry loop
 * of `download_segment`, and `_decrypt_segment`'s key, IV and unpadding
 * logic.  Each attempt's HTTP outcome and the AES-128-CBC cipher are
 * parameters; `time.sleep` calls are recorded instead of slept.
 */
module SegmentDownloader {
  import opened Wrappers
  import opened Text
  import opened Bytes
  import opened Files
  import AesDecryptor

  const DefaultMaxRetries := 3
  const BlockSize := 16

  /** `AES.new(key, AES.MODE_CBC, iv).decrypt(data)`, None when it raises. */
  type Cipher = AesDecryptor.Cipher

  /** `f'segment_{index:06d}.ts'` */
  function SegmentFileName(index: nat): string {
    "segment_" + ZeroPad(index, 6) + ".ts"
  }

  function SegmentPath(tempDir: string, index: nat): string {
    PathJoin(tempDir, SegmentFileName(index))
  }

  /** The index is written with at least six digits, and reads back as the index. */
  lemma SegmentFileNameDigits(index: nat)
    ensures StartsWith(SegmentFileName(index), "segment_") && EndsWith(SegmentFileName(index), ".ts")
    ensures |SegmentFileName(index)| >= 6 + 11
    ensures AllDigits(SegmentFileName(index)[8..|SegmentFileName(index)| - 3])
    ensures DigitsValue(SegmentFileName(index)[8..|SegmentFileName(index)| - 3]) == index
  {
    var name := SegmentFileName(index);
    var d := ZeroPad(index, 6);
    assert name[..8] == "segment_";
    assert name[|name| - 3..] == ".ts";
    assert name[8..|name| - 3] == d;
  }

  /** Different segments never share a file. */
  lemma SegmentPathsDistinct(tempDir: string, i: nat, j: nat)
    requires i != j
    ensures SegmentPath(tempDir, i) != SegmentPath(tempDir, j)
  {
    if SegmentPath(tempDir, i) == SegmentPath(tempDir, j) {
      PathJoinInjective(tempDir, SegmentFileName(i), SegmentFileName(j));
      SegmentFileNameDigits(i);
      SegmentFileNameDigits(j);
    }
  }

  // ---------------------------------------------------------------------
  // _decrypt_segment

  /**
   * PyCryptodome `unpad(data, 16)`: a non-empty whole number of blocks
   * ending in `p` copies of `p`, `p` in 1..16; otherwise ValueError (None).
   */
  function PyUnpad(data: bytes): Option<bytes> {
    if |data| == 0 || |data| % BlockSize != 0 then None
    else
      var p := data[|data| - 1];
      if p < 1 || p > BlockSize then None
      else if data[|data| - p..] != seq(p, _ => p) then None
      else Some(data[..|data| - p])
  }

  /** The `try: unpad ... except ValueError: pass` fallback. */
  function UnpadOrKeep(data: bytes): bytes {
    match PyUnpad(data)
    case None => data
    case Some(r) => r
  }

  /**
   * On whole blocks both backends' padding removal agree; on anything else
   * the Python side keeps the data.
   */
  lemma UnpadAgreesWithNode(data: bytes)
    ensures |data| % BlockSize == 0 ==> UnpadOrKeep(data) == AesDecryptor.Unpadded(data)
    ensures |data| % BlockSize != 0 ==> UnpadOrKeep(data) == data
  {
    if |data| > 0 && |data| % BlockSize == 0 {
      var p := data[|data| - 1];
      if 1 <= p <= BlockSize {
        if data[|data| - p..] == seq(p, _ => p) {
          assert forall j :: |data| - p <= j < |data| ==> data[j] == data[|data| - p..][j - (|data| - p)];
        }
      }
    }
  }

  /** A padded message comes back out. */
  lemma UnpadOrKeepOfPad(m: bytes)
    ensures UnpadOrKeep(AesDecryptor.Pad(m)) == m
  {
    AesDecryptor.UnpadPad(m);
    UnpadAgreesWithNode(AesDecryptor.Pad(m));
  }

  /** `segment_index.to_bytes(16, byteorder='big')`; OverflowError (None) from 2^128 on. */
  function IndexIv(index: nat): Option<bytes> {
    if index < Pow256(16) then Some(BigEndian(index, 16)) else None
  }

  lemma {:induction false} BigEndianOfZero(width: nat)
    ensures BigEndian(0, width) == Zeros(width)
  {
    if width > 0 {
      BigEndianOfZero(width - 1);
      assert Zeros(width) == Zeros(width - 1) + [0];
    }
  }

  /** Widening a big-endian encoding only adds leading zero bytes. */
  lemma {:induction false} BigEndianWiden(n: nat, extra: nat, width: nat)
    requires n < Pow256(width)
    ensures BigEndian(n, extra + width) == Zeros(extra) + BigEndian(n, width)
    decreases width
  {
    if width == 0 {
      assert n == 0;
      BigEndianOfZero(extra);
      assert Zeros(extra) + [] == Zeros(extra);
    } else {
      BigEndianWiden(n / 256, extra, width - 1);
    }
  }

  /**
   * For an index below 2^32 the implicit IV is the same 16 bytes the Node
   * decryptor builds from a numeric IV.
   */
  lemma IndexIvMatchesNode(index: nat)
    requires index < 0x1_0000_0000
    ensures IndexIv(index).Some?
    ensures AesDecryptor.RawIv(AesDecryptor.IvNumber(index)) == Ok(IndexIv(index).value)
  {
    assert Pow256(4) == 0x1_0000_0000;
    assert Pow256(16) == Pow256(4) * 0x1_0000_0000_0000_0000_0000_0000 by {
      assert Pow256(16) == 256 * Pow256(15);
      assert Pow256(15) == 256 * Pow256(14);
      assert Pow256(14) == 256 * Pow256(13);
      assert Pow256(13) == 256 * Pow256(12);
      assert Pow256(12) == 256 * Pow256(11);
      assert Pow256(11) == 256 * Pow256(10);
      assert Pow256(10) == 256 * Pow256(9);
      assert Pow256(9) == 256 * Pow256(8);
      assert Pow256(8) == 256 * Pow256(7);
      assert Pow256(7) == 256 * Pow256(6);
      assert Pow256(6) == 256 * Pow256(5);
      assert Pow256(5) == 256 * Pow256(4);
    }
    BigEndianWiden(index, 12, 4);
  }

  /** Python truthiness of an optional string. */
  predicate Truthy(s: Option<string>) {
    s.Some? && s.value != ""
  }

  /**
   * What `_decrypt_segment` writes back: the key and a non-empty explicit
   * IV are hex-decoded, the IV is otherwise the index, and the plaintext is
   * unpadded when it can be.  None when any step raises.
   */
  function Decrypted(cipher: Cipher, data: bytes, keyHex: string, ivHex: Option<string>, index: nat): Option<bytes> {
    match PyFromHex(keyHex)
    case None => None
    case Some(key) =>
      match (if Truthy(ivHex) then PyFromHex(ivHex.value) else IndexIv(index))
      case None => None
      case Some(iv) =>
        match cipher(key, iv, data)
        case None => None
        case Some(plain) => Some(UnpadOrKeep(plain))
  }

  /** Without an explicit IV, the cipher gets the index as 16 big-endian bytes. */
  lemma ImplicitIvIsIndex(cipher: Cipher, data: bytes, keyHex: string, ivHex: Option<string>, index: nat)
    requires !Truthy(ivHex) && index < Pow256(16) && PyFromHex(keyHex).Some?
    ensures BigEndianValue(IndexIv(index).value) == index
    ensures Decrypted(cipher, data, keyHex, ivHex, index)
      == match cipher(PyFromHex(keyHex).value, BigEndian(index, 16), data)
         case None => None
         case Some(plain) => Some(UnpadOrKeep(plain))
  {
    BigEndianRoundTrip(index, 16);
  }

  /** The key the parser stored as hex reaches the cipher byte for byte. */
  lemma StoredKeyReachesCipher(cipher: Cipher, data: bytes, key: bytes, ivHex: Option<string>, index: nat)
    ensures Decrypted(cipher, data, ToHex(key), ivHex, index)
      == match (if Truthy(ivHex) then PyFromHex(ivHex.value) else IndexIv(index))
         case None => None
         case Some(iv) =>
           match cipher(key, iv, data)
           case None => None
           case Some(plain) => Some(UnpadOrKeep(plain))
  {
    PyFromHexOfToHex(key);
  }

  /** Read, decrypt, write back; on failure the file is left as it was. */
  method DecryptSegment(disk: Disk, path: string, cipher: Cipher, keyHex: string, ivHex: Option<string>, index: nat)
    returns (ok: bool)
    modifies disk
    ensures ok <==> path in old(disk.files) && Decrypted(cipher, old(disk.files)[path], keyHex, ivHex, index).Some?
    ensures disk.files ==
      if ok then old(disk.files)[path := Decrypted(cipher, old(disk.files)[path], keyHex, ivHex, index).value]
      else old(disk.files)
  {
    if !disk.Exists(path) {
      return false;
    }
    var encryptedData := disk.files[path];
    var key := PyFromHex(keyHex);
    if key.None? {
      return false;
    }
    var iv: Option<bytes>;
    if Truthy(ivHex) {
      iv := PyFromHex(ivHex.value);
    } else {
      iv := IndexIv(index);
    }
    if iv.None? {
      return false;
    }
    var decryptedData := cipher(key.value, iv.value, encryptedData);
    if decryptedData.None? {
      return false;
    }
    var plain := decryptedData.value;
    var unpadded := PyUnpad(plain);
    if unpadded.Some? {
      plain := unpadded.value;
    }
    disk.Write(path, plain);
    return true;
  }

  // ---------------------------------------------------------------------
  // download_segment

  /** The arguments of one `download_segment` call. */
  datatype Job = Job(tempDir: string, index: nat, key: Option<string>, iv: Option<string>, maxRetries: nat)

  /** `fetch(k)` is the body attempt `k` receives, None when the request or its status raises. */
  datatype Oracles = Oracles(fetch: nat -> Option<bytes>, cipher: Cipher)

  /** What attempt `k` leaves in the file, None when the attempt raises. */
  function AttemptResult(env: Oracles, job: Job, k: nat): Option<bytes> {
    match env.fetch(k)
    case None => None
    case Some(body) =>
      if Truthy(job.key) then Decrypted(env.cipher, body, job.key.value, job.iv, job.index) else Some(body)
  }

  /** The first attempt in `from..maxRetries-1` that succeeds. */
  function FirstSuccess(env: Oracles, job: Job, from: nat): (r: Option<nat>)
    ensures r.Some? ==> from <= r.value < job.maxRetries && AttemptResult(env, job, r.value).Some?
    ensures forall j: nat :: from <= j < job.maxRetries && (r.None? || j < r.value) ==> AttemptResult(env, job, j).None?
    decreases job.maxRetries - from
  {
    if from >= job.maxRetries then None
    else if AttemptResult(env, job, from).Some? then Some(from)
    else FirstSuccess(env, job, from + 1)
  }

  /** The sleeps after `k` failed attempts that were not the last: 1, 2, ..., k seconds. */
  function Backoff(k: nat): (r: seq<nat>)
    ensures |r| == k && forall j :: 0 <= j < k ==> r[j] == j + 1
  {
    if k == 0 then [] else Backoff(k - 1) + [k]
  }

  /**
   * The `try` block of one attempt: fetch, write, decrypt when there is a
   * key. A success leaves the attempt's result in the file; a failure may
   * leave a partial file behind, and nothing else.
   */
  method TryAttempt(disk: Disk, env: Oracles, job: Job, attempt: nat, filePath: string) returns (failed: bool)
    modifies disk
    ensures failed <==> AttemptResult(env, job, attempt).None?
    ensures !failed ==> disk.files == old(disk.files)[filePath := AttemptResult(env, job, attempt).value]
    ensures failed ==> disk.files - {filePath} == old(disk.files) - {filePath}
  {
    var body := env.fetch(attempt);
    failed := true;
    if body.Some? {
      disk.Write(filePath, body.value);
      if Truthy(job.key) {
        var ok := DecryptSegment(disk, filePath, env.cipher, job.key.value, job.iv, job.index);
        failed := !ok;
      } else {
        failed := false;
      }
    }
  }

  /**
   * At most `maxRetries` attempts; the first that succeeds returns the path
   * with its content in place, after sleeping 1..k seconds; when all fail
   * the partial file is gone and no sleep follows the last attempt.
   */
  method DownloadSegment(disk: Disk, env: Oracles, job: Job) returns (result: Option<string>, sleeps: seq<nat>)
    modifies disk
    ensures match FirstSuccess(env, job, 0)
      case Some(k) =>
        && result == Some(SegmentPath(job.tempDir, job.index))
        && sleeps == Backoff(k)
        && disk.files == old(disk.files)[SegmentPath(job.tempDir, job.index) := AttemptResult(env, job, k).value]
      case None =>
        && result == None
        && sleeps == Backoff(if job.maxRetries == 0 then 0 else job.maxRetries - 1)
        && disk.files == if job.maxRetries == 0 then old(disk.files) else old(disk.files) - {SegmentPath(job.tempDir, job.index)}
  {
    var filePath := SegmentPath(job.tempDir, job.index);
    sleeps := [];
    for attempt := 0 to job.maxRetries
      invariant FirstSuccess(env, job, 0) == FirstSuccess(env, job, attempt)
      invariant sleeps == Backoff(if attempt == job.maxRetries && attempt > 0 then attempt - 1 else attempt)
      invariant disk.files == if attempt == 0 then old(disk.files) else old(disk.files) - {filePath}
    {
      var failed := TryAttempt(disk, env, job, attempt, filePath);
      if !failed {
        return Some(filePath), sleeps;
      }
      if disk.Exists(filePath) {
        disk.Remove(filePath);
      } else {
        assert disk.files == disk.files - {filePath};
      }
      if attempt < job.maxRetries - 1 {
        sleeps := sleeps + [attempt + 1];
      }
    }
    return None, sleeps;
  }
}
