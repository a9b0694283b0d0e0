/** The profile blob codec (src/core/profile/blob.ts). Encryption, compression and text encoding are
    given functions of which only the inverse laws are known; the random iv is an argument. */
module Blob {
  import opened Basics
  import opened Buffers

  datatype Codecs = Codecs(
    seal: (Bytes, Bytes, Bytes, Bytes) -> (Bytes, Bytes),
    open: (Bytes, Bytes, Bytes, Bytes, Bytes) -> Option<Bytes>,
    gzip: Bytes -> Bytes,
    gunzip: Bytes -> Option<Bytes>,
    utf8: string -> Bytes,
    fromUtf8: Bytes -> string)

  const KEY_LEN := 32
  const IV_LEN := 12
  const TAG_LEN := 16

  /** Opening undoes sealing under the same key, iv and additional data; unzipping undoes zipping;
      decoding undoes encoding; a tag has its fixed length. */
  ghost predicate Lawful(c: Codecs) {
    && (forall k, iv, body, aad :: |c.seal(k, iv, body, aad).1| == TAG_LEN)
    && (forall k, iv, body, aad :: var sealed := c.seal(k, iv, body, aad);
          c.open(k, iv, sealed.0, sealed.1, aad) == Some(body))
    && (forall b :: c.gunzip(c.gzip(b)) == Some(b))
    && (forall s :: c.fromUtf8(c.utf8(s)) == s)
  }

  const MAGIC: Bytes := [0x42, 0x47, 0x50, 0x31]
  const BLOB_VERSION: byte := 2
  const BLOB_VERSION_V1: byte := 1
  const ALG_AES_256_GCM: byte := 1
  const HEADER_LEN := 44
  const COMPRESS_NONE: byte := 0
  const COMPRESS_GZIP: byte := 1
  const UINT32_LIMIT := 0x1_0000_0000

  datatype BlobError =
    | DekVersionOutOfRange | BadKeyLength | AadTooLong
    | TooSmall | BadMagic | UnsupportedVersion | UnsupportedAlg | InvalidDekVersion | UnsupportedCompression | Truncated
    | IdMismatch | DecryptFailed | GunzipFailed

  datatype DecodedHeader = DecodedHeader(
    version: byte,
    alg: byte,
    dekVersion: byte,
    compression: byte,
    iv: Bytes,
    authTag: Bytes,
    aad: Bytes,
    ciphertext: Bytes)

  function LittleEndian(n: nat): Bytes {
    [(n % 256) as byte, (n / 0x100 % 256) as byte, (n / 0x1_0000 % 256) as byte, (n / 0x100_0000 % 256) as byte]
  }

  function ReadLittleEndian(b: Bytes): nat
    requires |b| == 4
  {
    b[0] as int + b[1] as int * 0x100 + b[2] as int * 0x1_0000 + b[3] as int * 0x100_0000
  }

  lemma LittleEndianRoundTrip(n: nat)
    requires n < UINT32_LIMIT
    ensures ReadLittleEndian(LittleEndian(n)) == n
  {
    var low, middle, high := n / 0x100, n / 0x1_0000, n / 0x100_0000;
    assert n == low * 0x100 + n % 256;
    assert low == middle * 0x100 + low % 256;
    assert middle == high * 0x100 + middle % 256;
    assert high % 256 == high;
  }

  lemma LittleEndianUnique(b: Bytes)
    requires |b| == 4
    ensures LittleEndian(ReadLittleEndian(b)) == b
  {
    DigitsUnique(b[0] as int, b[1] as int, b[2] as int, b[3] as int);
    assert b == [b[0], b[1], b[2], b[3]];
  }

  lemma DigitsUnique(a: int, b: int, c: int, d: int)
    requires 0 <= a < 256 && 0 <= b < 256 && 0 <= c < 256 && 0 <= d < 256
    ensures var n := a + b * 0x100 + c * 0x1_0000 + d * 0x100_0000;
            n % 256 == a && n / 0x100 % 256 == b && n / 0x1_0000 % 256 == c && n / 0x100_0000 % 256 == d
  {
    var n := a + b * 0x100 + c * 0x1_0000 + d * 0x100_0000;
    assert n / 0x100 == b + c * 0x100 + d * 0x1_0000;
    assert n / 0x1_0000 == c + d * 0x100;
    assert n / 0x100_0000 == d;
  }

  // ---------------------------------------------------------------- encoding

  /** The 44 header bytes. The last four are reserved. */
  function Header(version: byte, dekVersion: byte, compression: byte, iv: Bytes, tag: Bytes, aadLen: nat): Bytes {
    MAGIC + [version, ALG_AES_256_GCM, dekVersion, compression] + iv + tag + LittleEndian(aadLen) + LittleEndian(0)
  }

  function Assembled(h: DecodedHeader): Bytes {
    Header(h.version, h.dekVersion, h.compression, h.iv, h.authTag, |h.aad|) + h.aad + h.ciphertext
  }

  /** What encoding puts into the blob. */
  function Written(c: Codecs, dek: Bytes, dekVersion: byte, plaintext: Bytes, profileId: string, compress: bool,
                   iv: Bytes): DecodedHeader
  {
    var body := if compress then c.gzip(plaintext) else plaintext;
    var aad := c.utf8(profileId);
    var (ciphertext, tag) := c.seal(dek, iv, body, aad);
    DecodedHeader(if compress then BLOB_VERSION else BLOB_VERSION_V1, ALG_AES_256_GCM, dekVersion,
                  if compress then COMPRESS_GZIP else COMPRESS_NONE, iv, tag, aad, ciphertext)
  }

  method EncodeBlob(c: Codecs, dek: Bytes, dekVersion: int, plaintext: Bytes, profileId: string, compress: bool,
                    iv: Bytes)
    returns (r: Result<Bytes, BlobError>)
    requires Lawful(c) && |iv| == IV_LEN
    ensures r == Err(DekVersionOutOfRange) <==> dekVersion < 1 || 255 < dekVersion
    ensures r == Err(BadKeyLength) <==> 1 <= dekVersion <= 255 && |dek| != KEY_LEN
    ensures r == Err(AadTooLong) <==> 1 <= dekVersion <= 255 && |dek| == KEY_LEN && UINT32_LIMIT <= |c.utf8(profileId)|
    ensures r.Err? ==> r.error == DekVersionOutOfRange || r.error == BadKeyLength || r.error == AadTooLong
    ensures r.Ok? ==> r.value == Assembled(Written(c, dek, dekVersion as byte, plaintext, profileId, compress, iv))
  {
    if dekVersion < 1 || dekVersion > 255 {
      return Err(DekVersionOutOfRange);
    }
    var body := if compress then c.gzip(plaintext) else plaintext;
    var blobVersion := if compress then BLOB_VERSION else BLOB_VERSION_V1;
    var compressionByte := if compress then COMPRESS_GZIP else COMPRESS_NONE;
    var aad := c.utf8(profileId);
    if |dek| != KEY_LEN {
      return Err(BadKeyLength);
    }
    var (ciphertext, tag) := c.seal(dek, iv, body, aad);
    if |aad| >= UINT32_LIMIT {
      return Err(AadTooLong);
    }
    var header := WriteHeader(blobVersion, dekVersion as byte, compressionByte, iv, tag, |aad|);
    return Ok(header + aad + ciphertext);
  }

  /** Fills a zeroed header field by field. */
  method WriteHeader(version: byte, dekVersion: byte, compression: byte, iv: Bytes, tag: Bytes, aadLen: nat)
    returns (bytes: Bytes)
    requires |iv| == IV_LEN && |tag| == TAG_LEN && aadLen < UINT32_LIMIT
    ensures bytes == Header(version, dekVersion, compression, iv, tag, aadLen)
  {
    var header := new byte[HEADER_LEN](_ => 0);
    CopyInto(header, 0, MAGIC);
    assert header[..4] == MAGIC;
    header[4] := version;
    header[5] := ALG_AES_256_GCM;
    header[6] := dekVersion;
    header[7] := compression;
    assert header[..4] == MAGIC;
    assert header[..8] == header[..4] + [header[4], header[5], header[6], header[7]];
    CopyInto(header, 8, iv);
    CopyInto(header, 20, tag);
    CopyInto(header, 36, LittleEndian(aadLen));
    CopyInto(header, 40, LittleEndian(0));
    bytes := header[..];
    assert bytes == header[..44];
  }

  // ---------------------------------------------------------------- decoding

  /** Reads the header fields; every slice it takes lies within the buffer. */
  function DecodeBlobHeader(blob: Bytes): Result<DecodedHeader, BlobError> {
    if |blob| < HEADER_LEN then Err(TooSmall)
    else if blob[0..4] != MAGIC then Err(BadMagic)
    else if blob[4] != BLOB_VERSION && blob[4] != BLOB_VERSION_V1 then Err(UnsupportedVersion)
    else if blob[5] != ALG_AES_256_GCM then Err(UnsupportedAlg)
    else if blob[6] < 1 then Err(InvalidDekVersion)
    else
      var compression := if blob[4] == BLOB_VERSION then blob[7] else COMPRESS_NONE;
      if compression != COMPRESS_NONE && compression != COMPRESS_GZIP then Err(UnsupportedCompression)
      else
        var aadEnd := HEADER_LEN + ReadLittleEndian(blob[36..40]);
        if |blob| < aadEnd then Err(Truncated)
        else Ok(DecodedHeader(blob[4], blob[5], blob[6], compression, blob[8..20], blob[20..36],
                              blob[HEADER_LEN..aadEnd], blob[aadEnd..]))
  }

  function DecodeBlob(c: Codecs, blob: Bytes, dek: Bytes, expectedProfileId: string): Result<Bytes, BlobError> {
    var header := DecodeBlobHeader(blob);
    if header.Err? then Err(header.error)
    else
      var h := header.value;
      if c.fromUtf8(h.aad) != expectedProfileId then Err(IdMismatch)
      else if |dek| != KEY_LEN then Err(BadKeyLength)
      else
        var decrypted := c.open(dek, h.iv, h.ciphertext, h.authTag, h.aad);
        if decrypted.None? then Err(DecryptFailed)
        else if h.compression == COMPRESS_GZIP then
          var unzipped := c.gunzip(decrypted.value);
          if unzipped.None? then Err(GunzipFailed) else Ok(unzipped.value)
        else Ok(decrypted.value)
  }

  /** A header whose fields the decoder would accept as they are. */
  predicate WellFormed(h: DecodedHeader) {
    && (h.version == BLOB_VERSION || h.version == BLOB_VERSION_V1)
    && h.alg == ALG_AES_256_GCM && 1 <= h.dekVersion
    && (h.compression == COMPRESS_NONE || (h.compression == COMPRESS_GZIP && h.version == BLOB_VERSION))
    && |h.iv| == IV_LEN && |h.authTag| == TAG_LEN && |h.aad| < UINT32_LIMIT
  }

  lemma HeaderFields(h: DecodedHeader)
    requires WellFormed(h)
    ensures |Assembled(h)| == HEADER_LEN + |h.aad| + |h.ciphertext|
    ensures Assembled(h)[0..4] == MAGIC
    ensures Assembled(h)[4] == h.version && Assembled(h)[5] == h.alg
    ensures Assembled(h)[6] == h.dekVersion && Assembled(h)[7] == h.compression
    ensures Assembled(h)[8..20] == h.iv && Assembled(h)[20..36] == h.authTag &&
            Assembled(h)[36..40] == LittleEndian(|h.aad|)
  {
  }

  /** Header decoding inverts the layout: every field comes back exactly. */
  lemma HeaderRoundTrip(h: DecodedHeader)
    requires WellFormed(h)
    ensures DecodeBlobHeader(Assembled(h)) == Ok(h)
  {
    var blob := Assembled(h);
    HeaderFields(h);
    LittleEndianRoundTrip(|h.aad|);
    assert blob[HEADER_LEN..HEADER_LEN + |h.aad|] == h.aad;
    assert blob[HEADER_LEN + |h.aad|..] == h.ciphertext;
  }

  /** Conversely, every accepted blob is the layout of its decoded header, but for the compression
      byte of a version 1 blob and the four reserved bytes, which are not looked at. */
  lemma AcceptedBlobsAreLayouts(blob: Bytes)
    requires DecodeBlobHeader(blob).Ok?
    ensures var h := DecodeBlobHeader(blob).value;
            && WellFormed(h) && |blob| == HEADER_LEN + |h.aad| + |h.ciphertext|
            && Assembled(h)[..7] == blob[..7]
            && (h.version == BLOB_VERSION ==> Assembled(h)[7] == blob[7])
            && Assembled(h)[8..40] == blob[8..40]
            && Assembled(h)[HEADER_LEN..] == blob[HEADER_LEN..]
  {
    var h := DecodeBlobHeader(blob).value;
    var a := Assembled(h);
    LittleEndianUnique(blob[36..40]);
    assert a[..4] == MAGIC == blob[..4];
    assert a[4..8] == [h.version, ALG_AES_256_GCM, h.dekVersion, h.compression];
    assert a[..7] == a[..4] + a[4..8][..3];
    assert blob[..7] == blob[..4] + [blob[4], blob[5], blob[6]];
    assert a[7] == a[4..8][3];
    assert a[8..40] == h.iv + h.authTag + LittleEndian(|h.aad|);
    assert blob[8..40] == blob[8..20] + blob[20..36] + blob[36..40];
    assert a[HEADER_LEN..] == h.aad + h.ciphertext == blob[HEADER_LEN..];
  }

  /** Blob round trip: for every plaintext, profile id, key, key version 1 to 255 and compression
      choice, decoding what was encoded gives back the plaintext for the same id, and a mismatch
      for every other id. */
  lemma BlobRoundTrip(c: Codecs, dek: Bytes, dekVersion: byte, plaintext: Bytes, profileId: string, compress: bool,
                      iv: Bytes, expected: string)
    requires Lawful(c) && |iv| == IV_LEN && |dek| == KEY_LEN && 1 <= dekVersion && |c.utf8(profileId)| < UINT32_LIMIT
    ensures var blob := Assembled(Written(c, dek, dekVersion, plaintext, profileId, compress, iv));
            && DecodeBlobHeader(blob) == Ok(Written(c, dek, dekVersion, plaintext, profileId, compress, iv))
            && DecodeBlob(c, blob, dek, expected) == if expected == profileId then Ok(plaintext) else Err(IdMismatch)
  {
    HeaderRoundTrip(Written(c, dek, dekVersion, plaintext, profileId, compress, iv));
  }

  // ---------------------------------------------------------------- what is rejected, and why

  predicate HasMagic(blob: Bytes) {
    4 <= |blob| && blob[0] == 0x42 && blob[1] == 0x47 && blob[2] == 0x50 && blob[3] == 0x31
  }

  /** Where the additional data declared in the header ends. */
  function AadEnd(blob: Bytes): nat
    requires HEADER_LEN <= |blob|
  {
    44 + blob[36] as int + 0x100 * blob[37] as int + 0x1_0000 * blob[38] as int + 0x100_0000 * blob[39] as int
  }

  /** The checks of the header in order: each error is given exactly if its own check is the first to
      fail, and the header is accepted exactly if none fails. */
  lemma HeaderMeaning(blob: Bytes)
    ensures var r := DecodeBlobHeader(blob);
            if |blob| < 44 then r == Err(TooSmall)
            else if !HasMagic(blob) then r == Err(BadMagic)
            else if blob[4] != 1 && blob[4] != 2 then r == Err(UnsupportedVersion)
            else if blob[5] != 1 then r == Err(UnsupportedAlg)
            else if blob[6] == 0 then r == Err(InvalidDekVersion)
            else if blob[4] == 2 && blob[7] != 0 && blob[7] != 1 then r == Err(UnsupportedCompression)
            else if |blob| < AadEnd(blob) then r == Err(Truncated)
            else r.Ok? && r.value.compression == (if blob[4] == 1 then 0 else blob[7])
  {
    if 44 <= |blob| {
      assert blob[0..4] == [blob[0], blob[1], blob[2], blob[3]];
      var length := blob[36..40];
      assert length[0] == blob[36] && length[1] == blob[37] && length[2] == blob[38] && length[3] == blob[39];
    }
  }

  /** Behind an accepted header: another profile's blob, a key of the wrong length, a body that does not
      open under key, iv, tag and additional data, or one that does not unzip is refused, in that
      order; only a body that opens, and unzips if it was zipped, is ever answered. */
  lemma DecodeMeaning(c: Codecs, blob: Bytes, dek: Bytes, expected: string)
    requires DecodeBlobHeader(blob).Ok?
    ensures var h, r := DecodeBlobHeader(blob).value, DecodeBlob(c, blob, dek, expected);
            var body := c.open(dek, blob[8..20], h.ciphertext, blob[20..36], h.aad);
            && (r == Err(IdMismatch) <==> c.fromUtf8(h.aad) != expected)
            && (r == Err(BadKeyLength) <==> c.fromUtf8(h.aad) == expected && |dek| != 32)
            && (r == Err(DecryptFailed) <==> c.fromUtf8(h.aad) == expected && |dek| == 32 && body.None?)
            && (r == Err(GunzipFailed) <==>
                  && c.fromUtf8(h.aad) == expected && |dek| == 32 && body.Some?
                  && h.compression == 1 && c.gunzip(body.value).None?)
            && forall text :: r == Ok(text) <==>
                 && c.fromUtf8(h.aad) == expected && |dek| == 32 && body.Some?
                 && (if h.compression == 1 then c.gunzip(body.value) == Some(text) else body.value == text)
  {
  }

  /** A blob whose header is refused is refused for the same reason. */
  lemma RefusedHeader(c: Codecs, blob: Bytes, dek: Bytes, expected: string)
    requires DecodeBlobHeader(blob).Err?
    ensures DecodeBlob(c, blob, dek, expected) == Err(DecodeBlobHeader(blob).error)
  {
  }

  /** What is encoded is sealed under the key and the iv with the profile id as additional data, zipped
      exactly if asked, and the header says which: version 2 with compression 1, or version 1 with 0. */
  lemma EncodeMeaning(c: Codecs, dek: Bytes, dekVersion: byte, plaintext: Bytes, profileId: string, compress: bool,
                      iv: Bytes)
    requires Lawful(c) && |iv| == IV_LEN
    ensures var blob := Assembled(Written(c, dek, dekVersion, plaintext, profileId, compress, iv));
            var aadEnd := 44 + |c.utf8(profileId)|;
            && aadEnd <= |blob|
            && blob[..4] == [0x42, 0x47, 0x50, 0x31]
            && blob[4..8] == [if compress then 2 else 1, 1, dekVersion, if compress then 1 else 0]
            && blob[8..20] == iv && blob[44..aadEnd] == c.utf8(profileId)
            && c.open(dek, iv, blob[aadEnd..], blob[20..36], c.utf8(profileId)) ==
               Some(if compress then c.gzip(plaintext) else plaintext)
  {
    var h := Written(c, dek, dekVersion, plaintext, profileId, compress, iv);
    var blob, aadEnd := Assembled(h), 44 + |c.utf8(profileId)|;
    assert blob[..4] == MAGIC && blob[4..8] == [h.version, h.alg, h.dekVersion, h.compression];
    assert blob[8..20] == h.iv && blob[20..36] == h.authTag;
    assert blob[44..aadEnd] == h.aad && blob[aadEnd..] == h.ciphertext;
  }
}
