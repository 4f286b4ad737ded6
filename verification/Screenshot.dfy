/**
 * The screenshot pipeline: a big-endian RGB565 framebuffer is widened to RGBA
 * and packed into a PNG file, which a reader written from RFC 2083 unpacks.
 */
module Screenshot {
  import opened Prelude

  // ---- RGB565 to RGBA ------------------------------------------------------------

  /** Python's `round(n / d)`: to nearest, ties to even. */
  function RoundHalfEven(n: nat, d: nat): nat
    requires d > 0
  {
    var q, r := n / d, n % d;
    if 2 * r < d || (2 * r == d && q % 2 == 0) then q else q + 1
  }

  function Pixel(data: seq<byte>, i: nat): (p: nat)
    requires 2 * i + 1 < |data|
    ensures p < 65536
  {
    var hi: nat, lo: nat := data[2 * i], data[2 * i + 1];
    hi * 256 + lo
  }

  /** With an odd divisor the rounding never meets a tie: the result is the one integer nearest to `n / d`. */
  lemma RoundingMeetsNoTie(n: nat, d: nat, m: nat)
    requires d % 2 == 1
    ensures 2 * (n % d) != d
    ensures m == RoundHalfEven(n, d) <==> -(d as int) < 2 * (d * m - n) < d
  {
    var q, r, k := n / d, n % d, RoundHalfEven(n, d);
    assert n == d * q + r;
    assert d * (q + 1) == d * q + d;
    assert -(d as int) < 2 * (d * k - n) < d;
    if -(d as int) < 2 * (d * m - n) < d {
      assert -(d as int) < d * (m - k) < d by {
        assert d * (m - k) == d * m - d * k;
      }
      MultipleBelow(d, m - k);
    }
  }

  lemma MultipleBelow(d: nat, x: int)
    requires -(d as int) < d * x < d
    ensures x == 0
  {
  }

  function Widen5(v: nat): nat {
    RoundHalfEven(v * 255, 31)
  }

  function Widen6(v: nat): nat {
    RoundHalfEven(v * 255, 63)
  }

  function Red(p: nat): nat { p / 2048 % 32 }
  function Green(p: nat): nat { p / 32 % 64 }
  function Blue(p: nat): nat { p % 32 }

  lemma ChannelsMakePixel(p: nat)
    requires p < 65536
    ensures Red(p) * 2048 + Green(p) * 32 + Blue(p) == p
  {
    var q := p / 32;
    assert p == 32 * q + p % 32 && q == 64 * (q / 64) + q % 64;
    assert q / 64 == p / 2048 && p / 2048 % 32 == p / 2048;
  }

  lemma ChannelsWiden(p: nat)
    requires p < 65536
    ensures Red(p) < 32 && Green(p) < 64 && Blue(p) < 32
    ensures Widen5(Red(p)) / 8 == Red(p) && Widen6(Green(p)) / 4 == Green(p) && Widen5(Blue(p)) / 8 == Blue(p)
    ensures Widen5(Red(p)) < 256 && Widen6(Green(p)) < 256 && Widen5(Blue(p)) < 256
  {
  }

  function Channel(p: nat, c: nat): byte
    requires p < 65536
  {
    ChannelsWiden(p);
    if c == 0 then Widen5(Red(p)) else if c == 1 then Widen6(Green(p)) else if c == 2 then Widen5(Blue(p)) else 255
  }

  function Rgba(data: seq<byte>): (out: seq<byte>)
    requires |data| % 2 == 0
    ensures |out| == 2 * |data| && |out| % 4 == 0
  {
    seq(2 * |data|, k requires 0 <= k < 2 * |data| => RgbaByte(data, k))
  }

  function RgbaByte(data: seq<byte>, k: nat): byte
    requires |data| % 2 == 0 && k < 2 * |data|
  {
    Channel(Pixel(data, k / 4), k % 4)
  }

  datatype ImageError = ValueError | StructError

  method DecodeRgb565(data: seq<byte>, width: int, height: int) returns (r: Result<seq<byte>, ImageError>)
    ensures |data| != width * height * 2 ==> r == Err(ValueError)
    ensures |data| == width * height * 2 ==> r == Ok(Rgba(data))
  {
    var pixelCount := width * height;
    if |data| != pixelCount * 2 {
      return Err(ValueError);
    }
    var out := new byte[pixelCount * 4];
    for i := 0 to pixelCount
      invariant forall k :: 0 <= k < 4 * i ==> out[k] == RgbaByte(data, k)
    {
      WritePixel(out, i, Pixel(data, i));
    }
    assert out[..] == Rgba(data);
    return Ok(out[..]);
  }

  /** The loop body: four bytes of one pixel. */
  method WritePixel(out: array<byte>, i: nat, p: nat)
    requires 4 * i + 3 < out.Length && p < 65536
    modifies out
    ensures forall k :: 4 * i <= k < 4 * i + 4 ==> k / 4 == i && out[k] == Channel(p, k % 4)
    ensures forall k :: 0 <= k < out.Length && !(4 * i <= k < 4 * i + 4) ==> out[k] == old(out[k])
  {
    ChannelsWiden(p);
    out[4 * i] := Widen5(Red(p));
    out[4 * i + 1] := Widen6(Green(p));
    out[4 * i + 2] := Widen5(Blue(p));
    out[4 * i + 3] := 255;
  }

  lemma RgbaAt(data: seq<byte>, i: nat, c: nat)
    requires |data| % 2 == 0 && 2 * i < |data| && c < 4
    ensures Rgba(data)[4 * i + c] == Channel(Pixel(data, i), c)
  {
    assert (4 * i + c) / 4 == i && (4 * i + c) % 4 == c;
  }

  /** The 16 bits of pixel `i`, from the top bits of its channels. */
  function PackedPixel(rgba: seq<byte>, i: nat): (p: nat)
    requires 4 * i + 3 < |rgba|
    ensures p < 65536
  {
    var r: nat, g: nat, b: nat := rgba[4 * i], rgba[4 * i + 1], rgba[4 * i + 2];
    r / 8 * 2048 + g / 4 * 32 + b / 8
  }

  /** The top 5, 6 and 5 bits of each pixel, packed big-endian. */
  function Repack(rgba: seq<byte>): seq<byte>
    requires |rgba| % 4 == 0
  {
    seq(|rgba| / 2, k requires 0 <= k < |rgba| / 2 =>
      if k % 2 == 0 then PackedPixel(rgba, k / 2) / 256 else PackedPixel(rgba, k / 2) % 256)
  }

  lemma PackedPixelOfRgba(data: seq<byte>, i: nat)
    requires |data| % 2 == 0 && 2 * i < |data|
    ensures PackedPixel(Rgba(data), i) == Pixel(data, i)
  {
    assert 2 * i + 1 < |data|;
    RgbaAt(data, i, 0);
    RgbaAt(data, i, 1);
    RgbaAt(data, i, 2);
    PackedChannels(Rgba(data), i, Pixel(data, i));
  }

  lemma PackedChannels(rgba: seq<byte>, i: nat, p: nat)
    requires 4 * i + 3 < |rgba| && p < 65536
    requires rgba[4 * i] == Channel(p, 0) && rgba[4 * i + 1] == Channel(p, 1) && rgba[4 * i + 2] == Channel(p, 2)
    ensures PackedPixel(rgba, i) == p
  {
    ChannelsWiden(p);
    ChannelsMakePixel(p);
  }

  /**
   * Each channel is the 8-bit value nearest to its share of 255: red and blue
   * of 31, green of 63, from the top 5, middle 6 and low 5 bits of the pixel.
   */
  lemma ChannelsNearest(data: seq<byte>, i: nat)
    requires |data| % 2 == 0 && 2 * i + 1 < |data|
    ensures var out, p := Rgba(data), data[2 * i] as int * 256 + data[2 * i + 1] as int;
      && 4 * i + 3 < |out|
      && -31 < 2 * (31 * out[4 * i] as int - 255 * (p / 2048)) < 31
      && -63 < 2 * (63 * out[4 * i + 1] as int - 255 * (p / 32 % 64)) < 63
      && -31 < 2 * (31 * out[4 * i + 2] as int - 255 * (p % 32)) < 31
      && out[4 * i + 3] == 255
  {
    var p := Pixel(data, i);
    RgbaAt(data, i, 0);
    RgbaAt(data, i, 1);
    RgbaAt(data, i, 2);
    RgbaAt(data, i, 3);
    TopBits(p);
  }

  lemma TopBits(p: nat)
    requires p < 65536
    ensures Red(p) == p / 2048
  {
  }

  lemma RepackGives(rgba: seq<byte>, data: seq<byte>)
    requires |data| % 2 == 0 && |rgba| == 2 * |data|
    requires forall i :: 0 <= i < |data| / 2 ==> PackedPixel(rgba, i) == Pixel(data, i)
    ensures Repack(rgba) == data
  {
    forall i | 0 <= i < |data| / 2 ensures SamePixel(Repack(rgba), data, i) {
      BytesOfPixel(data, i);
    }
    forall k | 0 <= k < |data| ensures Repack(rgba)[k] == data[k] {
      assert SamePixel(Repack(rgba), data, k / 2);
      assert k == 2 * (k / 2) || k == 2 * (k / 2) + 1;
    }
  }

  predicate SamePixel(a: seq<byte>, b: seq<byte>, i: nat)
    requires |a| == |b| && 2 * i + 1 < |a|
  {
    a[2 * i] == b[2 * i] && a[2 * i + 1] == b[2 * i + 1]
  }

  lemma BytesOfPixel(data: seq<byte>, i: nat)
    requires 2 * i + 1 < |data|
    ensures Pixel(data, i) / 256 == data[2 * i] && Pixel(data, i) % 256 == data[2 * i + 1]
  {
  }

  /** Decoding loses nothing: the framebuffer can be recovered from the pixels, and every pixel is opaque. */
  lemma DecodingIsLossless(data: seq<byte>)
    requires |data| % 2 == 0
    ensures Repack(Rgba(data)) == data
    ensures forall i :: 0 <= i < |data| / 2 ==> Rgba(data)[4 * i + 3] == 255
  {
    forall i | 0 <= i < |data| / 2 ensures Rgba(data)[4 * i + 3] == 255 {
      RgbaAt(data, i, 3);
    }
    forall i | 0 <= i < |data| / 2 ensures PackedPixel(Rgba(data), i) == Pixel(data, i) {
      PackedPixelOfRgba(data, i);
    }
    RepackGives(Rgba(data), data);
  }

  // ---- the PNG writer -----------------------------------------------------------------

  const U32: nat := 0x1_0000_0000
  const SIGNATURE: seq<byte> := [0x89, 0x50, 0x4E, 0x47, 0x0D, 0x0A, 0x1A, 0x0A]
  const IHDR: seq<byte> := [0x49, 0x48, 0x44, 0x52]
  const IDAT: seq<byte> := [0x49, 0x44, 0x41, 0x54]
  const IEND: seq<byte> := [0x49, 0x45, 0x4E, 0x44]

  /** zlib is a library: a compressor, its inverse, and a checksum. */
  datatype Zlib = Zlib(compress: seq<byte> -> seq<byte>, decompress: seq<byte> -> Option<seq<byte>>, crc32: seq<byte> -> nat)

  ghost predicate InversePair(z: Zlib) {
    forall b :: z.decompress(z.compress(b)) == Some(b)
  }

  /** `struct.pack(">I", n)`. */
  function PackU32(n: nat): (b: seq<byte>)
    requires n < U32
    ensures |b| == 4
  {
    BigEndian(n, 4)
  }

  lemma PackU32RoundTrip(n: nat)
    requires n < U32
    ensures FromBigEndian(PackU32(n)) == n
  {
    BigEndianRoundTrip(n, 4);
  }

  function ChunkBytes(z: Zlib, tag: seq<byte>, data: seq<byte>): (c: seq<byte>)
    requires |tag| == 4 && |data| < U32
    ensures |c| == 12 + |data|
  {
    PackU32(|data|) + tag + data + PackU32(z.crc32(tag + data) % U32)
  }

  /** `n` scanlines, each preceded by filter type 0. */
  function Scanlines(rgba: seq<byte>, stride: nat, n: nat): (raw: seq<byte>)
    requires n * stride <= |rgba|
    ensures |raw| == n * (stride + 1)
  {
    if n == 0 then []
    else
      RowFits(|rgba|, stride, n);
      Scanlines(rgba, stride, n - 1) + [0] + rgba[(n - 1) * stride..n * stride]
  }

  lemma Area(width: int, height: int)
    ensures height * (width * 4) == width * height * 4
  {
  }

  /** All scanlines of an image. */
  function RawImage(rgba: seq<byte>, width: nat, height: nat): seq<byte>
    requires |rgba| == width * height * 4
  {
    Area(width, height);
    Scanlines(rgba, width * 4, height)
  }

  lemma RowFits(size: nat, stride: nat, n: nat)
    requires 0 < n && n * stride <= size
    ensures 0 <= (n - 1) * stride <= n * stride && n * stride - (n - 1) * stride == stride
  {
  }

  function Header(width: nat, height: nat): (b: seq<byte>)
    requires width < U32 && height < U32
    ensures |b| == 13
  {
    PackU32(width) + PackU32(height) + [8, 6, 0, 0, 0]
  }

  /** The file for an image whose dimensions and compressed size both fit their 32-bit fields. */
  function PngFile(z: Zlib, width: nat, height: nat, raw: seq<byte>): seq<byte>
    requires width < U32 && height < U32 && |z.compress(raw)| < U32
  {
    FileOf(z, Header(width, height), z.compress(raw))
  }

  function FileOf(z: Zlib, head: seq<byte>, idat: seq<byte>): seq<byte>
    requires |head| < U32 && |idat| < U32
  {
    SIGNATURE + ChunkBytes(z, IHDR, head) + ChunkBytes(z, IDAT, idat) + ChunkBytes(z, IEND, [])
  }

  /** On the wire: the signature of section 3.1 of RFC 2083, and the chunk types of section 4.1 in ASCII. */
  lemma FileBytes(z: Zlib, width: nat, height: nat, raw: seq<byte>)
    requires width < U32 && height < U32 && |z.compress(raw)| < U32
    ensures PngFile(z, width, height, raw)[..8] == [137, 80, 78, 71, 13, 10, 26, 10]
    ensures |IHDR| == |IDAT| == |IEND| == 4
    ensures forall i :: 0 <= i < 4 ==>
      "IHDR"[i] as int == IHDR[i] && "IDAT"[i] as int == IDAT[i] && "IEND"[i] as int == IEND[i]
  {
  }

  method EncodePng(z: Zlib, rgba: seq<byte>, width: int, height: int) returns (r: Result<seq<byte>, ImageError>)
    ensures |rgba| != width * height * 4 ==> r == Err(ValueError)
    ensures |rgba| == width * height * 4 && !(0 <= width < U32 && 0 <= height < U32) ==> r == Err(StructError)
    ensures |rgba| == width * height * 4 && 0 <= width < U32 && 0 <= height < U32 ==>
      var raw := RawImage(rgba, width, height);
      r == if |z.compress(raw)| < U32 then Ok(PngFile(z, width, height, raw)) else Err(StructError)
  {
    if |rgba| != width * height * 4 {
      return Err(ValueError);
    }
    var stride := width * 4;
    var raw: seq<byte> := [];
    var y := 0;
    assert height > 0 ==> width >= 0;
    Area(width, height);
    while y < height
      invariant 0 <= y && (y <= height || height < 0)
      invariant y > 0 ==> 0 <= stride && y <= height && y * stride <= |rgba| && raw == Scanlines(rgba, stride, y)
      invariant y == 0 ==> raw == []
    {
      RowsFit(|rgba|, stride, y + 1, height);
      RowFits(|rgba|, stride, y + 1);
      raw := raw + [0];
      raw := raw + rgba[y * stride..(y + 1) * stride];
      y := y + 1;
    }
    if !(0 <= width < U32 && 0 <= height < U32) {
      return Err(StructError);
    }
    var ihdr := Header(width, height);
    var idat := z.compress(raw);
    if |idat| >= U32 {
      return Err(StructError);
    }
    return Ok(SIGNATURE + ChunkBytes(z, IHDR, ihdr) + ChunkBytes(z, IDAT, idat) + ChunkBytes(z, IEND, []));
  }

  lemma RowsFit(size: nat, stride: nat, y: nat, height: nat)
    requires y <= height && height * stride == size
    ensures y * stride <= size
  {
  }

  // ---- a PNG reader from RFC 2083 ---------------------------------------------------------

  /** "Length ... must not exceed 2^31-1 bytes" (section 3.2); the same limit holds for the dimensions (section 4.1.1). */
  const PNG_LIMIT: nat := 0x8000_0000

  datatype Chunk = Chunk(tag: seq<byte>, data: seq<byte>)

  /** One chunk: length, type, data, and a CRC over type and data (sections 3.2 and 3.4). */
  function ReadChunk(z: Zlib, b: seq<byte>): (r: Option<(Chunk, seq<byte>)>)
    ensures r.Some? ==> |r.value.1| < |b|
  {
    if |b| < 12 then None
    else
      var length := FromBigEndian(b[..4]);
      if length >= PNG_LIMIT || |b| < 12 + length then None
      else
        var tag, data := b[4..8], b[8..8 + length];
        if FromBigEndian(b[8 + length..12 + length]) != z.crc32(tag + data) % U32 then None
        else Some((Chunk(tag, data), b[12 + length..]))
  }

  /** Chunks up to IEND, which must come last. */
  function ReadChunks(z: Zlib, b: seq<byte>): Option<seq<Chunk>>
    decreases |b|
  {
    match ReadChunk(z, b)
    case None => None
    case Some((c, rest)) =>
      if c.tag == IEND then if rest == [] && c.data == [] then Some([c]) else None
      else
        match ReadChunks(z, rest)
        case None => None
        case Some(cs) => Some([c] + cs)
  }

  /** The image data is the concatenation of all IDAT chunks (section 4.1.3). */
  function ImageData(cs: seq<Chunk>): seq<byte> {
    if cs == [] then []
    else (if cs[0].tag == IDAT then cs[0].data else []) + ImageData(cs[1..])
  }

  /** Strips filter type 0 (section 6.2) from `n` scanlines; other filter types are not produced here. */
  function Unfilter(raw: seq<byte>, stride: nat, n: nat): Option<seq<byte>>
    requires |raw| == n * (stride + 1)
  {
    if n == 0 then Some([])
    else
      RowFits(|raw|, stride + 1, n);
      var start := (n - 1) * (stride + 1);
      if raw[start] != 0 then None
      else
        match Unfilter(raw[..start], stride, n - 1)
        case None => None
        case Some(above) => Some(above + raw[start + 1..])
  }

  datatype Image = Image(width: nat, height: nat, rgba: seq<byte>)

  /** An 8-bit RGBA image without interlace; zero dimensions are invalid (section 4.1.1). */
  function ReadPng(z: Zlib, file: seq<byte>): Option<Image> {
    if |file| < 8 || file[..8] != SIGNATURE then None
    else
      match ReadChunks(z, file[8..])
      case None => None
      case Some(cs) => Interpret(z, cs)
  }

  function Interpret(z: Zlib, cs: seq<Chunk>): Option<Image> {
    if cs == [] || cs[0].tag != IHDR then None
    else
      match Dimensions(cs[0].data)
      case None => None
      case Some((width, height)) =>
        match z.decompress(ImageData(cs[1..]))
        case None => None
        case Some(raw) =>
          if |raw| != height * (width * 4 + 1) then None
          else
            match Unfilter(raw, width * 4, height)
            case None => None
            case Some(rgba) => Some(Image(width, height, rgba))
  }

  function Dimensions(head: seq<byte>): Option<(nat, nat)> {
    if |head| != 13 || head[8..] != [8, 6, 0, 0, 0] then None
    else
      var width, height := FromBigEndian(head[..4]), FromBigEndian(head[4..8]);
      if 0 < width < PNG_LIMIT && 0 < height < PNG_LIMIT then Some((width, height)) else None
  }

  // ---- writer and reader together -------------------------------------------------------------

  lemma ReadChunkBytes(z: Zlib, tag: seq<byte>, data: seq<byte>, rest: seq<byte>)
    requires |tag| == 4 && |data| < U32
    ensures ReadChunk(z, ChunkBytes(z, tag, data) + rest)
         == if |data| < PNG_LIMIT then Some((Chunk(tag, data), rest)) else None
  {
    var c := ChunkBytes(z, tag, data);
    var b := c + rest;
    PackU32RoundTrip(|data|);
    PackU32RoundTrip(z.crc32(tag + data) % U32);
    assert b[..4] == PackU32(|data|);
    if |data| < PNG_LIMIT {
      assert b[4..8] == tag;
      assert b[8..8 + |data|] == data;
      assert b[8 + |data|..12 + |data|] == PackU32(z.crc32(tag + data) % U32);
      assert b[12 + |data|..] == rest;
    }
  }

  lemma {:induction false} UnfilterScanlines(rgba: seq<byte>, stride: nat, n: nat)
    requires n * stride <= |rgba|
    ensures Unfilter(Scanlines(rgba, stride, n), stride, n) == Some(rgba[..n * stride])
  {
    if n > 0 {
      RowFits(|rgba|, stride, n);
      RowFits(n * (stride + 1), stride + 1, n);
      UnfilterScanlines(rgba, stride, n - 1);
      var raw := Scanlines(rgba, stride, n);
      var start := (n - 1) * (stride + 1);
      assert raw[..start] == Scanlines(rgba, stride, n - 1);
      assert raw[start + 1..] == rgba[(n - 1) * stride..n * stride];
      assert rgba[..(n - 1) * stride] + rgba[(n - 1) * stride..n * stride] == rgba[..n * stride];
    }
  }

  lemma ReadChunksCons(z: Zlib, tag: seq<byte>, data: seq<byte>, rest: seq<byte>)
    requires |tag| == 4 && tag != IEND && |data| < U32
    ensures ReadChunks(z, ChunkBytes(z, tag, data) + rest)
         == if |data| < PNG_LIMIT && ReadChunks(z, rest).Some? then Some([Chunk(tag, data)] + ReadChunks(z, rest).value)
            else None
  {
    ReadChunkBytes(z, tag, data, rest);
  }

  lemma ReadChunksEnd(z: Zlib)
    ensures ReadChunks(z, ChunkBytes(z, IEND, [])) == Some([Chunk(IEND, [])])
  {
    assert ChunkBytes(z, IEND, []) + [] == ChunkBytes(z, IEND, []);
    ReadChunkBytes(z, IEND, [], []);
  }

  function WrittenChunks(head: seq<byte>, idat: seq<byte>): seq<Chunk> {
    [Chunk(IHDR, head)] + ([Chunk(IDAT, idat)] + [Chunk(IEND, [])])
  }

  /** What the reader finds in a file the writer produced. */
  lemma FileChunks(z: Zlib, head: seq<byte>, idat: seq<byte>)
    requires |head| < PNG_LIMIT && |idat| < U32
    ensures var file := FileOf(z, head, idat);
      && |file| >= 8 && file[..8] == SIGNATURE
      && ReadChunks(z, file[8..])
         == if |idat| < PNG_LIMIT then Some(WrittenChunks(head, idat)) else None
  {
    var c1, c2, c3 := ChunkBytes(z, IHDR, head), ChunkBytes(z, IDAT, idat), ChunkBytes(z, IEND, []);
    SplitFile(c1, c2, c3);
    ReadChunksEnd(z);
    ReadChunksCons(z, IDAT, idat, c3);
    ReadChunksCons(z, IHDR, head, c2 + c3);
  }

  lemma ReadWritten(z: Zlib, head: seq<byte>, idat: seq<byte>)
    requires |head| < PNG_LIMIT && |idat| < U32
    ensures ReadPng(z, FileOf(z, head, idat))
         == if |idat| < PNG_LIMIT then Interpret(z, WrittenChunks(head, idat)) else None
  {
    FileChunks(z, head, idat);
  }

  lemma SplitFile(c1: seq<byte>, c2: seq<byte>, c3: seq<byte>)
    ensures var file := SIGNATURE + c1 + c2 + c3;
      |file| >= 8 && file[..8] == SIGNATURE && file[8..] == c1 + (c2 + c3)
  {
  }

  lemma HeaderDimensions(width: nat, height: nat)
    requires width < U32 && height < U32
    ensures Dimensions(Header(width, height))
         == if 0 < width < PNG_LIMIT && 0 < height < PNG_LIMIT then Some((width, height)) else None
  {
    var head := Header(width, height);
    PackU32RoundTrip(width);
    PackU32RoundTrip(height);
    assert head[..4] == PackU32(width) && head[4..8] == PackU32(height) && head[8..] == [8, 6, 0, 0, 0];
  }

  lemma InterpretWritten(z: Zlib, head: seq<byte>, rgba: seq<byte>, width: nat, height: nat)
    requires InversePair(z) && Dimensions(head) == Some((width, height)) && |rgba| == width * height * 4
    ensures Interpret(z, WrittenChunks(head, z.compress(RawImage(rgba, width, height))))
         == Some(Image(width, height, rgba))
  {
    Area(width, height);
    var raw := RawImage(rgba, width, height);
    var cs := WrittenChunks(head, z.compress(raw));
    ImageDataOfFile(cs[1], cs[2]);
    assert cs[1..] == [cs[1], cs[2]];
    UnfilterScanlines(rgba, width * 4, height);
    assert rgba[..height * (width * 4)] == rgba;
  }

  /**
   * Exactly the images PNG can describe survive the trip: dimensions from 1 to
   * 2^31-1 and compressed data below 2^31 bytes.  For an empty or oversized
   * image the writer emits a file that a conforming reader rejects.
   */
  lemma PngRoundTrip(z: Zlib, rgba: seq<byte>, width: nat, height: nat)
    requires InversePair(z) && |rgba| == width * height * 4 && width < U32 && height < U32
    requires |z.compress(RawImage(rgba, width, height))| < U32
    ensures var raw := RawImage(rgba, width, height);
      ReadPng(z, PngFile(z, width, height, raw))
      == if 0 < width < PNG_LIMIT && 0 < height < PNG_LIMIT && |z.compress(raw)| < PNG_LIMIT
         then Some(Image(width, height, rgba)) else None
  {
    var idat, head := z.compress(RawImage(rgba, width, height)), Header(width, height);
    ReadWritten(z, head, idat);
    HeaderDimensions(width, height);
    if |idat| < PNG_LIMIT && Dimensions(head).Some? {
      InterpretWritten(z, head, rgba, width, height);
    }
  }

  lemma ImageDataOfFile(idat: Chunk, iend: Chunk)
    requires idat.tag == IDAT && iend.tag == IEND
    ensures ImageData([idat, iend]) == idat.data
  {
    assert IDAT[1] != IEND[1];
    assert [idat, iend][1..] == [iend] && [iend][1..] == [];
    assert ImageData([iend]) == [];
  }

  /** The scanlines of a framebuffer's pixels. */
  function Scan(framebuffer: seq<byte>, width: nat, height: nat): seq<byte>
    requires |framebuffer| == width * height * 2
  {
    RawImage(Rgba(framebuffer), width, height)
  }

  /** A framebuffer of the right size whose image fits the format. */
  predicate Fits(z: Zlib, framebuffer: seq<byte>, width: nat, height: nat) {
    && 0 < width < PNG_LIMIT && 0 < height < PNG_LIMIT && |framebuffer| == width * height * 2
    && |z.compress(Scan(framebuffer, width, height))| < PNG_LIMIT
  }

  function ScreenshotFile(z: Zlib, framebuffer: seq<byte>, width: nat, height: nat): seq<byte>
    requires Fits(z, framebuffer, width, height)
  {
    PngFile(z, width, height, Scan(framebuffer, width, height))
  }

  /** End to end: from the PNG a reader gets the dimensions, and from the pixels' top bits the framebuffer itself. */
  lemma LosslessScreenshot(z: Zlib, framebuffer: seq<byte>, width: nat, height: nat)
    requires InversePair(z) && Fits(z, framebuffer, width, height)
    ensures |framebuffer| % 2 == 0
    ensures ReadPng(z, ScreenshotFile(z, framebuffer, width, height)) == Some(Image(width, height, Rgba(framebuffer)))
    ensures Repack(Rgba(framebuffer)) == framebuffer
  {
    PngRoundTrip(z, Rgba(framebuffer), width, height);
    DecodingIsLossless(framebuffer);
  }
}
