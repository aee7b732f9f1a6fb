/**
 * Reading the version and compression of a `.blend` file from its 12-byte
 * header. A Blender file starts with the magic `BLENDER`, a pointer-size
 * byte, an endianness byte and three ASCII digits of the version (`402` for
 * 4.2); the file may be stored as is, gzip-compressed (before 3.0) or
 * zstd-compressed (3.0 on). The file is its bytes; gzip and zstd
 * decompression belong to libraries and are passed in as functions.
 */
module BlendfileReader {

  import opened Wrappers
  import Semver

  newtype byte = x: int | 0 <= x < 256

  /** The bytes of an ASCII string. */
  function Ascii(s: string): (r: seq<byte>)
    requires forall i :: 0 <= i < |s| ==> s[i] as int < 128
    ensures |r| == |s|
    ensures forall i :: 0 <= i < |s| ==> r[i] as int == s[i] as int
  {
    if |s| == 0 then [] else [s[0] as int as byte] + Ascii(s[1..])
  }

  const BlenderMagic: seq<byte> := Ascii("BLENDER")
  const BulletMagic: seq<byte> := Ascii("BULLETf")

  datatype CompressionType = NONE | ZSTD | GZIP

  datatype BlendfileHeader = BlendfileHeader(version: Semver.Version, compressionType: CompressionType)

  /**
   * The decompressors: the whole decompressed stream, or `None` where the
   * library raises `BadGzipFile` or `ZstdError`.
   */
  datatype Decompressors = Decompressors(
    gunzip: seq<byte> -> Option<seq<byte>>,
    unzstd: seq<byte> -> Option<seq<byte>>)

  /** `stream.read(n)`: at most `n` bytes from the start. */
  function Read(stream: seq<byte>, n: nat): (r: seq<byte>)
    ensures |r| == if |stream| < n then |stream| else n
    ensures r <= stream
  {
    if |stream| < n then stream else stream[..n]
  }

  /** A byte minus `ord("0")`: the digit it stands for when it is an ASCII digit. */
  function DigitOf(b: byte): int {
    b as int - '0' as int
  }

  /**
   * `parse_header_version`: major is the byte at offset 9, minor the two at
   * 10 and 11 read as a two-digit number, patch 0. A header shorter than 12
   * bytes raises IndexError, and a negative part makes `Version` raise
   * ValueError.
   */
  function ParseHeaderVersion(header: seq<byte>): (r: Result<Semver.Version, string>)
    ensures r.Success? <==>
      |header| >= 12 && DigitOf(header[9]) >= 0 && DigitOf(header[10]) * 10 + DigitOf(header[11]) >= 0
    ensures r.Success? ==>
      && r.value.major == DigitOf(header[9])
      && r.value.minor == DigitOf(header[10]) * 10 + DigitOf(header[11])
      && r.value.patch == 0
  {
    if |header| < 12 then Failure("list index out of range")
    else
      var major := DigitOf(header[9]);
      var minor := DigitOf(header[10]) * 10 + DigitOf(header[11]);
      if major < 0 || minor < 0 then Failure("A version can only be positive")
      else Success(Semver.Version(major, minor, 0))
  }

  /** The byte of an ASCII digit. */
  function DigitByte(d: nat): (b: byte)
    requires d < 10
    ensures DigitOf(b) == d
  {
    (d + '0' as int) as byte
  }

  /** The header Blender writes: magic, pointer size, endianness, then `M`, `m / 10` and `m % 10` as digits. */
  function Header(pointerSize: byte, endianness: byte, major: nat, minor: nat): (h: seq<byte>)
    requires major < 10 && minor < 100
    ensures |h| == 12 && h[..7] == BlenderMagic
  {
    BlenderMagic + [pointerSize, endianness, DigitByte(major), DigitByte(minor / 10), DigitByte(minor % 10)]
  }

  /** The version digits of a header read back as the version written, for every single-digit major and two-digit minor. */
  lemma ParseHeader(pointerSize: byte, endianness: byte, major: nat, minor: nat)
    requires major < 10 && minor < 100
    ensures ParseHeaderVersion(Header(pointerSize, endianness, major, minor)) == Success(Semver.Version(major, minor, 0))
  {
    var h := Header(pointerSize, endianness, major, minor);
    assert h[9] == DigitByte(major) && h[10] == DigitByte(minor / 10) && h[11] == DigitByte(minor % 10);
  }

  /** Bytes after the header do not change the version read from it. */
  lemma ParseHeaderPrefix(header: seq<byte>, rest: seq<byte>)
    requires |header| >= 12
    ensures ParseHeaderVersion(header + rest) == ParseHeaderVersion(header)
  {
    assert (header + rest)[9..12] == header[9..12];
    assert (header + rest)[9] == header[9] && (header + rest)[10] == header[10] && (header + rest)[11] == header[11];
  }

  /** `bytes.decode()` of the first 7 bytes is `BLENDER` or `BULLETf`. */
  predicate HasMagic(file: seq<byte>) {
    |file| >= 7 && (file[..7] == BlenderMagic || file[..7] == BulletMagic)
  }

  /**
   * `__try_read_basic`: the first 12 bytes when the file starts with a magic;
   * otherwise `None` (a failed UTF-8 decode is suppressed to `None` too).
   */
  function TryReadBasic(file: seq<byte>): (r: Option<seq<byte>>)
    ensures r.Some? <==> HasMagic(file)
    ensures r.Some? ==> r.value == Read(file, 12) && r.value[..7] == file[..7]
  {
    if HasMagic(file) then Some(Read(file, 12)) else None
  }

  /** `__try_read_gzip` and `__try_read_zstd`: the first 12 decompressed bytes, `None` when the library rejects the file. */
  function TryReadWith(decompress: seq<byte> -> Option<seq<byte>>, file: seq<byte>): (r: Option<seq<byte>>)
    ensures r.Some? <==> decompress(file).Some?
    ensures r.Some? ==> r.value == Read(decompress(file).value, 12)
  {
    match decompress(file)
    case None => None
    case Some(content) => Some(Read(content, 12))
  }

  /**
   * `get_blendfile_header`: uncompressed, then gzip, then zstd; the first reader that succeeds
   * decides the compression type, and the header is the first 12 bytes of what that reader sees.
   */
  function GetBlendfileHeader(file: seq<byte>, d: Decompressors): (r: Option<(seq<byte>, CompressionType)>)
    ensures r.None? <==> !HasMagic(file) && d.gunzip(file).None? && d.unzstd(file).None?
    ensures r.Some? && r.value.1 == NONE <==> HasMagic(file)
    ensures r.Some? && r.value.1 == GZIP <==> !HasMagic(file) && d.gunzip(file).Some?
    ensures r.Some? && r.value.1 == ZSTD <==> !HasMagic(file) && d.gunzip(file).None? && d.unzstd(file).Some?
    ensures r.Some? ==> r.value.0 == Read(match r.value.1
        case NONE => file
        case GZIP => d.gunzip(file).value
        case ZSTD => d.unzstd(file).value, 12)
  {
    match TryReadBasic(file)
    case Some(header) => Some((header, NONE))
    case None =>
      match TryReadWith(d.gunzip, file)
      case Some(header) => Some((header, GZIP))
      case None =>
        match TryReadWith(d.unzstd, file)
        case Some(header) => Some((header, ZSTD))
        case None => None
  }

  /** `read_blendfile_header`: raises when no reader succeeds, and otherwise pairs the header's version with the compression. */
  function ReadBlendfileHeader(file: seq<byte>, d: Decompressors): (r: Result<BlendfileHeader, string>)
    ensures GetBlendfileHeader(file, d).None? ==> r == Failure("Could not decode blendfile header")
    ensures r.Success? <==>
      GetBlendfileHeader(file, d).Some? && ParseHeaderVersion(GetBlendfileHeader(file, d).value.0).Success?
    ensures r.Success? ==>
      var (header, compression) := GetBlendfileHeader(file, d).value;
      ParseHeaderVersion(header) == Success(r.value.version) && r.value.compressionType == compression
  {
    match GetBlendfileHeader(file, d)
    case None => Failure("Could not decode blendfile header")
    case Some((header, compression)) =>
      match ParseHeaderVersion(header)
      case Failure(e) => Failure(e)
      case Success(version) => Success(BlendfileHeader(version, compression))
  }

  /** An uncompressed file Blender wrote reads as its version, uncompressed, whatever the decompressors would say. */
  lemma ReadUncompressed(pointerSize: byte, endianness: byte, major: nat, minor: nat, rest: seq<byte>, d: Decompressors)
    requires major < 10 && minor < 100
    ensures ReadBlendfileHeader(Header(pointerSize, endianness, major, minor) + rest, d)
      == Success(BlendfileHeader(Semver.Version(major, minor, 0), NONE))
  {
    var h := Header(pointerSize, endianness, major, minor);
    var file := h + rest;
    assert file[..7] == h[..7];
    assert Read(file, 12) == h;
    ParseHeader(pointerSize, endianness, major, minor);
  }

  /** A compressed file whose stream is a Blender file reads as that version, with the first decompressor that accepts it. */
  lemma ReadCompressed(file: seq<byte>, d: Decompressors, pointerSize: byte, endianness: byte, major: nat, minor: nat, rest: seq<byte>)
    requires major < 10 && minor < 100
    requires !HasMagic(file)
    requires d.gunzip(file) == Some(Header(pointerSize, endianness, major, minor) + rest)
      || (d.gunzip(file).None? && d.unzstd(file) == Some(Header(pointerSize, endianness, major, minor) + rest))
    ensures ReadBlendfileHeader(file, d)
      == Success(BlendfileHeader(Semver.Version(major, minor, 0), if d.gunzip(file).Some? then GZIP else ZSTD))
  {
    var h := Header(pointerSize, endianness, major, minor);
    assert Read(h + rest, 12) == h;
    ParseHeader(pointerSize, endianness, major, minor);
  }
}
