/** The MNIST data-file helpers of util/mnist-utils.c.

 An MNIST image file is a header of four 32-bit big-endian numbers followed by
 28x28-byte images; a label file is a header of two such numbers followed by
 one-byte labels. The helpers byte-swap header fields read on a little-endian host,
 find the record at a given position, read records one after another, and turn an
 image into the input vector of the network. A file is modelled as its bytes and an
 open file as those bytes with a read position; reading past the end terminates the
 C program and is an `Abort(ShortRead)` here.
 */
module Mnist {
  import opened Outcomes

  type byte = bv8
  type word = bv32

  const ImgWidth: nat := 28
  const ImgHeight: nat := 28

  /** sizeof(MNIST_Image): one byte per pixel. */
  const ImageBytes: nat := ImgWidth * ImgHeight

  /** sizeof(MNIST_ImageFileHeader) and sizeof(MNIST_LabelFileHeader): four and two
      uint32 fields. */
  const ImageHeaderBytes: nat := 4 * 4
  const LabelHeaderBytes: nat := 2 * 4

  /** sizeof(MNIST_Label). */
  const LabelBytes: nat := 1

  /** INT_MAX: the largest position the int parameter of the by-position readers
      can hold. */
  const IntMax: nat := 0x7fff_ffff

  /** The pixels of one MNIST_Image. */
  type Image = s: seq<byte> | |s| == ImageBytes witness seq(784, _ => 0)

  /** A Vector record; its count is the length of the sequence. */
  type Vector = seq<real>

  // ---------------------------------------------------------------------------
  // Byte order

  /** Byte k of a word, counting from the least significant. */
  function ByteOf(n: word, k: nat): byte
    requires k < 4
  {
    if k == 0 then (n & 0xff) as byte
    else if k == 1 then ((n >> 8) & 0xff) as byte
    else if k == 2 then ((n >> 16) & 0xff) as byte
    else ((n >> 24) & 0xff) as byte
  }

  /** A word's bytes, least significant first. */
  function Bytes(n: word): (b: seq<byte>)
    ensures |b| == 4 && forall k :: 0 <= k < 4 ==> b[k] == ByteOf(n, k)
  {
    [ByteOf(n, 0), ByteOf(n, 1), ByteOf(n, 2), ByteOf(n, 3)]
  }

  /** A word is determined by its four bytes. */
  lemma BytesDetermineWord(a: word, b: word)
    requires Bytes(a) == Bytes(b)
    ensures a == b
  {
    assert Bytes(a)[0] == Bytes(b)[0] && Bytes(a)[1] == Bytes(b)[1];
    assert Bytes(a)[2] == Bytes(b)[2] && Bytes(a)[3] == Bytes(b)[3];
  }

  /** Four bytes in reverse order. */
  function Reversed(b: seq<byte>): seq<byte>
    requires |b| == 4
  {
    [b[3], b[2], b[1], b[0]]
  }

  /** flipBytes: reverse the byte order of a 32-bit number. Byte k of the argument
      becomes byte 3-k of the result. */
  function FlipBytes(n: word): (r: word)
    ensures Bytes(r) == Reversed(Bytes(n))
  {
    var b0 := (n & 0x0000_00ff) << 24;
    var b1 := (n & 0x0000_ff00) << 8;
    var b2 := (n & 0x00ff_0000) >> 8;
    var b3 := (n & 0xff00_0000) >> 24;
    b0 | b1 | b2 | b3
  }

  /** Flipping twice gives the number back. */
  lemma FlipBytesInvolution(n: word)
    ensures FlipBytes(FlipBytes(n)) == n
  {
    assert Bytes(FlipBytes(FlipBytes(n))) == Reversed(Reversed(Bytes(n))) == Bytes(n);
    BytesDetermineWord(FlipBytes(FlipBytes(n)), n);
  }

  /** The uint32 that fread stores from four file bytes on a little-endian host:
      the first byte is the least significant. */
  function LoadLittleEndian(b: seq<byte>): (n: word)
    requires |b| == 4
    ensures Bytes(n) == b
  {
    (b[0] as word) | ((b[1] as word) << 8) | ((b[2] as word) << 16) | ((b[3] as word) << 24)
  }

  /** The number four bytes hold in the MNIST file's big-endian order: the first
      byte is the most significant. */
  function BigEndian(b: seq<byte>): (n: word)
    requires |b| == 4
    ensures Bytes(n) == Reversed(b)
  {
    ((b[0] as word) << 24) | ((b[1] as word) << 16) | ((b[2] as word) << 8) | (b[3] as word)
  }

  /** The four big-endian bytes of a number, as the file stores it. */
  function BigEndianBytes(n: word): (b: seq<byte>)
    ensures |b| == 4 && Reversed(b) == Bytes(n)
  {
    Reversed(Bytes(n))
  }

  /** One header field: fread of four bytes, then flipBytes. The result is the
      big-endian number the file holds. */
  function ReadField(b: seq<byte>): (n: word)
    requires |b| == 4
    ensures n == BigEndian(b)
    ensures BigEndianBytes(n) == b
  {
    var r := FlipBytes(LoadLittleEndian(b));
    BytesDetermineWord(r, BigEndian(b));
    r
  }

  /** Writing a number big-endian and reading the field back gives the number. */
  lemma ReadFieldOfBytes(n: word)
    ensures ReadField(BigEndianBytes(n)) == n
  {
    var b := BigEndianBytes(n);
    BytesDetermineWord(ReadField(b), n);
  }

  // ---------------------------------------------------------------------------
  // File headers

  datatype ImageFileHeader = ImageFileHeader(magicNumber: word, maxImages: word, imgWidth: word, imgHeight: word)

  datatype LabelFileHeader = LabelFileHeader(magicNumber: word, maxImages: word)

  /** The four bytes of field i of a header. */
  function FieldBytes(bytes: seq<byte>, i: nat): (b: seq<byte>)
    requires 4 * i + 4 <= |bytes|
    ensures |b| == 4
  {
    bytes[4 * i .. 4 * i + 4]
  }

  /** readImageFileHeader on a file that holds at least the 16 header bytes: four
      fields, each the big-endian number of its four bytes. */
  function ReadImageFileHeader(bytes: seq<byte>): (h: ImageFileHeader)
    requires ImageHeaderBytes <= |bytes|
    ensures BigEndianBytes(h.magicNumber) == bytes[0..4]
    ensures BigEndianBytes(h.maxImages) == bytes[4..8]
    ensures BigEndianBytes(h.imgWidth) == bytes[8..12]
    ensures BigEndianBytes(h.imgHeight) == bytes[12..16]
  {
    ImageFileHeader(
      ReadField(FieldBytes(bytes, 0)), ReadField(FieldBytes(bytes, 1)),
      ReadField(FieldBytes(bytes, 2)), ReadField(FieldBytes(bytes, 3)))
  }

  /** readLabelFileHeader on a file that holds at least the 8 header bytes. */
  function ReadLabelFileHeader(bytes: seq<byte>): (h: LabelFileHeader)
    requires LabelHeaderBytes <= |bytes|
    ensures BigEndianBytes(h.magicNumber) == bytes[0..4]
    ensures BigEndianBytes(h.maxImages) == bytes[4..8]
  {
    LabelFileHeader(ReadField(FieldBytes(bytes, 0)), ReadField(FieldBytes(bytes, 1)))
  }

  /** The bytes an image file header occupies. */
  function ImageHeaderFileBytes(h: ImageFileHeader): (b: seq<byte>)
    ensures |b| == ImageHeaderBytes
  {
    BigEndianBytes(h.magicNumber) + BigEndianBytes(h.maxImages)
      + BigEndianBytes(h.imgWidth) + BigEndianBytes(h.imgHeight)
  }

  /** The bytes a label file header occupies. */
  function LabelHeaderFileBytes(h: LabelFileHeader): (b: seq<byte>)
    ensures |b| == LabelHeaderBytes
  {
    BigEndianBytes(h.magicNumber) + BigEndianBytes(h.maxImages)
  }

  /** Field i of a header is the four bytes after the first i fields. */
  lemma FieldAt(before: seq<byte>, field: seq<byte>, after: seq<byte>, i: nat)
    requires |before| == 4 * i && |field| == 4
    ensures FieldBytes(before + field + after, i) == field
  {
  }

  /** Decoding a written image header gives it back, whatever follows it. */
  lemma ImageHeaderRoundTrip(h: ImageFileHeader, rest: seq<byte>)
    ensures ReadImageFileHeader(ImageHeaderFileBytes(h) + rest) == h
  {
    var a, b, c, d := BigEndianBytes(h.magicNumber), BigEndianBytes(h.maxImages),
                      BigEndianBytes(h.imgWidth), BigEndianBytes(h.imgHeight);
    var bytes := ImageHeaderFileBytes(h) + rest;
    FieldAt([], a, b + c + d + rest, 0);
    FieldAt(a, b, c + d + rest, 1);
    FieldAt(a + b, c, d + rest, 2);
    FieldAt(a + b + c, d, rest, 3);
    ReadFieldOfBytes(h.magicNumber);
    ReadFieldOfBytes(h.maxImages);
    ReadFieldOfBytes(h.imgWidth);
    ReadFieldOfBytes(h.imgHeight);
  }

  /** Writing back a decoded image header reproduces the file's first 16 bytes. */
  lemma ImageHeaderBytesRoundTrip(bytes: seq<byte>)
    requires ImageHeaderBytes <= |bytes|
    ensures ImageHeaderFileBytes(ReadImageFileHeader(bytes)) == bytes[..ImageHeaderBytes]
  {
    var h := ReadImageFileHeader(bytes);
    assert bytes[..16] == bytes[0..4] + bytes[4..8] + bytes[8..12] + bytes[12..16];
  }

  /** Decoding a written label header gives it back, whatever follows it. */
  lemma LabelHeaderRoundTrip(h: LabelFileHeader, rest: seq<byte>)
    ensures ReadLabelFileHeader(LabelHeaderFileBytes(h) + rest) == h
  {
    var a, b := BigEndianBytes(h.magicNumber), BigEndianBytes(h.maxImages);
    var bytes := LabelHeaderFileBytes(h) + rest;
    FieldAt([], a, b + rest, 0);
    FieldAt(a, b, rest, 1);
    ReadFieldOfBytes(h.magicNumber);
    ReadFieldOfBytes(h.maxImages);
  }

  /** Writing back a decoded label header reproduces the file's first 8 bytes. */
  lemma LabelHeaderBytesRoundTrip(bytes: seq<byte>)
    requires LabelHeaderBytes <= |bytes|
    ensures LabelHeaderFileBytes(ReadLabelFileHeader(bytes)) == bytes[..LabelHeaderBytes]
  {
    var h := ReadLabelFileHeader(bytes);
    assert bytes[..8] == bytes[0..4] + bytes[4..8];
  }

  // ---------------------------------------------------------------------------
  // Records by position and in sequence

  /** The byte offset getImageByPosition and getLabelByPosition seek to: the header,
      then `p` records. */
  function RecordOffset(headerBytes: nat, recordBytes: nat, p: nat): nat {
    headerBytes + p * recordBytes
  }

  /** The offset of image p: 16 + 784p. For every int position it stays below 2^63,
      so the size_t sum is exact and fits fseek's long offset. */
  function ImageOffset(p: nat): (off: nat)
    requires p <= IntMax
    ensures off == 16 + 784 * p
    ensures off + ImageBytes < 0x8000_0000_0000_0000
  {
    RecordOffset(ImageHeaderBytes, ImageBytes, p)
  }

  /** The offset of label p: 8 + p. */
  function LabelOffset(p: nat): (off: nat)
    requires p <= IntMax
    ensures off == 8 + p
    ensures off + LabelBytes < 0x8000_0000_0000_0000
  {
    RecordOffset(LabelHeaderBytes, LabelBytes, p)
  }

  /** Records at different positions do not overlap: a record ends no later than the
      next position starts, and the first one starts after the header. */
  lemma RecordsDisjoint(headerBytes: nat, recordBytes: nat, p: nat, q: nat)
    requires p < q
    ensures headerBytes <= RecordOffset(headerBytes, recordBytes, p)
    ensures RecordOffset(headerBytes, recordBytes, p) + recordBytes <= RecordOffset(headerBytes, recordBytes, q)
  {
    assert p * recordBytes + recordBytes == (p + 1) * recordBytes;
    assert (p + 1) * recordBytes <= q * recordBytes by {
      var d := q - (p + 1);
      assert q * recordBytes == (p + 1) * recordBytes + d * recordBytes;
    }
  }

  /** fseek to `off`, then fread of one record: the record's bytes, or ShortRead
      when the file ends first. */
  function ReadRecordAt(file: seq<byte>, off: nat, recordBytes: nat): (r: Result<seq<byte>>)
    ensures r.Ok? <==> off + recordBytes <= |file|
    ensures r.Abort? ==> r.reason == ShortRead
    ensures r.Ok? ==> |r.value| == recordBytes && file[off..off + recordBytes] == r.value
  {
    if off + recordBytes <= |file| then Ok(file[off..off + recordBytes]) else Abort(ShortRead)
  }

  /** getImageByPosition. */
  function GetImageByPosition(file: seq<byte>, p: nat): (r: Result<Image>)
    requires p <= IntMax
    ensures r.Ok? <==> 16 + 784 * p + 784 <= |file|
    ensures r.Abort? ==> r.reason == ShortRead
    ensures r.Ok? ==> r.value == file[16 + 784 * p .. 16 + 784 * (p + 1)]
  {
    var bytes :- ReadRecordAt(file, ImageOffset(p), ImageBytes);
    Ok(bytes)
  }

  /** getLabelByPosition. */
  function GetLabelByPosition(file: seq<byte>, p: nat): (r: Result<byte>)
    requires p <= IntMax
    ensures r.Ok? <==> 8 + p < |file|
    ensures r.Abort? ==> r.reason == ShortRead
    ensures r.Ok? ==> r.value == file[8 + p]
  {
    var bytes :- ReadRecordAt(file, LabelOffset(p), LabelBytes);
    Ok(bytes[0])
  }

  /** An open data file: its bytes and the read position. */
  datatype Stream = Stream(file: seq<byte>, pos: nat)

  /** openMNISTImageFile / openMNISTLabelFile: the header is read and dropped, which
      leaves the position after the header bytes the file has. */
  function Open(file: seq<byte>, headerBytes: nat): (s: Stream)
    ensures s.file == file
    ensures s.pos == if headerBytes <= |file| then headerBytes else |file|
  {
    Stream(file, if headerBytes <= |file| then headerBytes else |file|)
  }

  /** getImage / getLabel: fread of one record at the current position, which moves
      past it; ShortRead when the file ends first. */
  function ReadNext(s: Stream, recordBytes: nat): (r: Result<(seq<byte>, Stream)>)
    ensures r.Ok? <==> s.pos + recordBytes <= |s.file|
    ensures r.Ok? ==> r.value.0 == s.file[s.pos..s.pos + recordBytes]
    ensures r.Ok? ==> r.value.1 == s.(pos := s.pos + recordBytes)
    ensures r.Abort? ==> r.reason == ShortRead
  {
    var bytes :- ReadRecordAt(s.file, s.pos, recordBytes);
    Ok((bytes, s.(pos := s.pos + recordBytes)))
  }

  /** The stream after `k` successful records have been read in turn. */
  function Skip(s: Stream, recordBytes: nat, k: nat): (r: Result<Stream>)
    decreases k
  {
    if k == 0 then Ok(s)
    else
      var prev :- Skip(s, recordBytes, k - 1);
      var next :- ReadNext(prev, recordBytes);
      Ok(next.1)
  }

  /** Reading in turn reaches the by-position offsets: after k records read from a
      freshly opened file that holds them, the position is the offset of record k. */
  lemma {:induction false} SkipReachesOffset(file: seq<byte>, headerBytes: nat, recordBytes: nat, k: nat)
    requires RecordOffset(headerBytes, recordBytes, k) <= |file|
    ensures Skip(Open(file, headerBytes), recordBytes, k) == Ok(Stream(file, RecordOffset(headerBytes, recordBytes, k)))
  {
    if k > 0 {
      assert RecordOffset(headerBytes, recordBytes, k)
          == RecordOffset(headerBytes, recordBytes, k - 1) + recordBytes;
      SkipReachesOffset(file, headerBytes, recordBytes, k - 1);
    }
  }

  /** Reading in turn ends with ShortRead once a record is missing. */
  lemma {:induction false} SkipStopsAtEnd(file: seq<byte>, headerBytes: nat, recordBytes: nat, k: nat)
    requires headerBytes <= |file| < RecordOffset(headerBytes, recordBytes, k)
    ensures Skip(Open(file, headerBytes), recordBytes, k) == Abort(ShortRead)
  {
    assert k > 0;
    if RecordOffset(headerBytes, recordBytes, k - 1) <= |file| {
      SkipReachesOffset(file, headerBytes, recordBytes, k - 1);
    } else {
      SkipStopsAtEnd(file, headerBytes, recordBytes, k - 1);
    }
  }

  /** The image getImage returns after k earlier getImage calls is the one
      getImageByPosition returns for position k. */
  lemma SequentialImageIsPositional(file: seq<byte>, k: nat)
    requires k <= IntMax && ImageOffset(k) <= |file|
    ensures
      && Skip(Open(file, ImageHeaderBytes), ImageBytes, k).Ok?
      && var s := Skip(Open(file, ImageHeaderBytes), ImageBytes, k).value;
      && ReadNext(s, ImageBytes).Ok? == GetImageByPosition(file, k).Ok?
      && (ReadNext(s, ImageBytes).Ok? ==> ReadNext(s, ImageBytes).value.0 == GetImageByPosition(file, k).value)
  {
    SkipReachesOffset(file, ImageHeaderBytes, ImageBytes, k);
  }

  /** The label getLabel returns after k earlier getLabel calls is the one
      getLabelByPosition returns for position k. */
  lemma SequentialLabelIsPositional(file: seq<byte>, k: nat)
    requires k <= IntMax && LabelOffset(k) <= |file|
    ensures
      && Skip(Open(file, LabelHeaderBytes), LabelBytes, k).Ok?
      && var s := Skip(Open(file, LabelHeaderBytes), LabelBytes, k).value;
      && ReadNext(s, LabelBytes).Ok? == GetLabelByPosition(file, k).Ok?
      && (ReadNext(s, LabelBytes).Ok? ==> ReadNext(s, LabelBytes).value.0 == [GetLabelByPosition(file, k).value])
  {
    SkipReachesOffset(file, LabelHeaderBytes, LabelBytes, k);
  }

  // ---------------------------------------------------------------------------
  // Input vectors

  /** The input value of one pixel: subtract 127, divide by 128. */
  function PixelValue(b: byte): real {
    ((b as int) - 127) as real / 128.0
  }

  /** The pixel an input value came from. */
  function PixelOf(x: real): int {
    (x * 128.0 + 127.0).Floor
  }

  /** Every pixel value lies in [-127/128, 1], and the pixel can be read back from it. */
  lemma PixelValueBounds(b: byte)
    ensures -127.0 / 128.0 <= PixelValue(b) <= 1.0
    ensures PixelOf(PixelValue(b)) == b as int
  {
    var d := (b as int) - 127;
    assert -127 <= d <= 128;
    assert PixelValue(b) * 128.0 + 127.0 == (b as int) as real;
  }

  /** getVectorFromImage: 784 values, one per pixel in order, each in [-127/128, 1],
      from which the image can be recovered. */
  function VectorFromImage(img: Image): (v: Vector)
    ensures |v| == ImageBytes
    ensures forall i :: 0 <= i < |v| ==> -127.0 / 128.0 <= v[i] <= 1.0
    ensures forall i :: 0 <= i < |v| ==> PixelOf(v[i]) == img[i] as int
    ensures forall i :: 0 <= i < |v| ==> v[i] == PixelValue(img[i])
  {
    var v := seq(ImageBytes, i requires 0 <= i < ImageBytes => PixelValue(img[i]));
    forall i | 0 <= i < |v|
      ensures -127.0 / 128.0 <= v[i] <= 1.0 && PixelOf(v[i]) == img[i] as int
    {
      PixelValueBounds(img[i]);
    }
    v
  }

  /** Different images give different input vectors. */
  lemma VectorFromImageInjective(a: Image, b: Image)
    requires VectorFromImage(a) == VectorFromImage(b)
    ensures a == b
  {
    forall i | 0 <= i < ImageBytes
      ensures a[i] == b[i]
    {
      assert PixelOf(VectorFromImage(a)[i]) == PixelOf(VectorFromImage(b)[i]);
    }
  }

  /** Brighter pixels give larger values. */
  lemma PixelValueMonotone(a: byte, b: byte)
    ensures (a as int) < (b as int) <==> PixelValue(a) < PixelValue(b)
  {
  }
}
