/** Conversion between RGB raw images and gstreamer buffers, whose rows are padded to a multiple of
    four bytes. */
module ImagePadding {
  import opened Arithmetic
  import opened RawImages

  // ----- ROUND_UP_4 -----

  /** ~0x3 as a 32-bit pattern. */
  const NOT_3: nat := 0xffff_fffc

  /** ((num) + 3) & ~0x3 */
  function RoundUp4(num: nat): nat {
    And(num + 3, NOT_3)
  }

  lemma Pow2Of30()
    ensures Pow2(30) == 0x4000_0000
  {
    assert Pow2(6) == 64;
    assert Pow2(12) == 4096;
    assert Pow2(18) == 0x4_0000;
    assert Pow2(24) == 0x100_0000;
  }

  lemma MaskDropsTwoBits(n: nat)
    requires n <= INT_MAX
    ensures And(n, NOT_3) == n / 4 * 4
  {
    Pow2Of30();
    var ones := Pow2(30) - 1;
    assert NOT_3 == 2 * (2 * ones);
    AndEven(n, 2 * ones);
    AndEven(n / 2, ones);
    assert n / 2 / 2 == n / 4;
    AndOnes(n / 4, 30);
  }

  /** The bit trick computes the least multiple of four that is not below the number. */
  lemma RoundUp4IsLeast(num: nat)
    requires num + 3 <= INT_MAX
    ensures RoundUp4(num) % 4 == 0
    ensures num <= RoundUp4(num) < num + 4
    ensures forall m: nat | m % 4 == 0 && num <= m :: RoundUp4(num) <= m
  {
    MaskDropsTwoBits(num + 3);
  }

  // ----- What padding and unpadding mean -----

  function Zeros(n: nat): string {
    seq(n, i => '\0')
  }

  /** Row i of an image whose rows are stored back to back. */
  function Row(data: string, rowSize: nat, i: nat): string
    requires Times(i + 1, rowSize) <= |data|
  {
    data[Times(i, rowSize)..Times(i + 1, rowSize)]
  }

  /** The first `rows` rows, each followed by zero bytes up to the stride. */
  function Padded(data: string, rowSize: nat, stride: nat, rows: nat): (bytes: string)
    requires rowSize <= stride && Times(rows, rowSize) <= |data|
    ensures |bytes| == Times(rows, stride)
  {
    if rows == 0 then ""
    else Padded(data, rowSize, stride, rows - 1) + Row(data, rowSize, rows - 1) + Zeros(stride - rowSize)
  }

  /** Byte j of padded row i is byte j of image row i, or zero behind its end. */
  lemma {:induction false} PaddedAt(data: string, rowSize: nat, stride: nat, rows: nat, i: nat, j: nat)
    requires rowSize <= stride && Times(rows, rowSize) <= |data| && i < rows && j < stride
    ensures Times(i, stride) + j < Times(rows, stride)
    ensures Times(i + 1, rowSize) <= |data|
    ensures Padded(data, rowSize, stride, rows)[Times(i, stride) + j] ==
            if j < rowSize then data[Times(i, rowSize) + j] else '\0'
    decreases rows
  {
    if i < rows - 1 {
      PaddedAt(data, rowSize, stride, rows - 1, i, j);
    }
  }

  /** The metadata of an RGB buffer, as parsed from its caps. */
  datatype Info = Info(height: nat, width: nat, rstride: nat, pstride: nat)
  {
    const components: nat := 3

    /** Where component k of pixel j of row i is in the buffer. */
    function SourceAt(i: nat, j: nat, k: nat): nat {
      Times(i, rstride) + Times(j, pstride) + k
    }

    /** The buffer reaches as far as the last component of the last pixel. */
    predicate Covers(size: nat) {
      height > 0 && width > 0 ==> Times(height - 1, rstride) + Times(width - 1, pstride) + components <= size
    }
  }

  /** The first `pixels` pixels of the row that starts at `start`. */
  function RowPixels(buffer: string, start: nat, pstride: nat, pixels: nat): (bytes: string)
    requires pixels > 0 ==> start + Times(pixels - 1, pstride) + 3 <= |buffer|
    ensures |bytes| == pixels * 3
  {
    if pixels == 0 then ""
    else
      var at := start + Times(pixels - 1, pstride);
      (if pixels == 1 then "" else
         assert Times(pixels - 2, pstride) <= Times(pixels - 1, pstride);
         RowPixels(buffer, start, pstride, pixels - 1))
      + buffer[at..at + 3]
  }

  /** The image bytes of the first `rows` rows of a buffer. */
  function Unpadded(info: Info, buffer: string, rows: nat): (bytes: string)
    requires info.Covers(|buffer|) && rows <= info.height
    ensures |bytes| == Times(rows, info.width * 3)
  {
    if rows == 0 then ""
    else
      Unpadded(info, buffer, rows - 1) +
      (TimesMonotone(rows - 1, info.height - 1, info.rstride);
       RowPixels(buffer, Times(rows - 1, info.rstride), info.pstride, info.width))
  }

  /** Every read of the slow path is within the buffer if and only if the buffer covers the last
      component of the last pixel, or there is no pixel. */
  lemma ReadsInBoundsIff(info: Info, size: nat)
    ensures (forall i: nat, j: nat, k: nat | i < info.height && j < info.width && k < 3 :: info.SourceAt(i, j, k) < size)
            <==> info.Covers(size)
  {
    if info.Covers(size) {
      forall i: nat, j: nat, k: nat | i < info.height && j < info.width && k < 3
        ensures info.SourceAt(i, j, k) < size
      {
        TimesMonotone(i, info.height - 1, info.rstride);
        TimesMonotone(j, info.width - 1, info.pstride);
      }
    } else {
      assert info.SourceAt(info.height - 1, info.width - 1, 2) >= size;
    }
  }

  /** Component k of pixel j of a row, for any distance between pixels. */
  lemma {:induction false} RowPixelsAt(buffer: string, start: nat, pstride: nat, pixels: nat, j: nat, k: nat)
    requires pixels > 0 ==> start + Times(pixels - 1, pstride) + 3 <= |buffer|
    requires j < pixels && k < 3
    ensures start + Times(j, pstride) + k < |buffer|
    ensures RowPixels(buffer, start, pstride, pixels)[j * 3 + k] == buffer[start + Times(j, pstride) + k]
  {
    if j == pixels - 1 {
    } else {
      TimesMonotone(pixels - 2, pixels - 1, pstride);
      RowPixelsAt(buffer, start, pstride, pixels - 1, j, k);
    }
  }

  /** Component k of pixel j of row i of the image, for any strides. */
  lemma UnpaddedAt(info: Info, buffer: string, i: nat, j: nat, k: nat)
    requires info.Covers(|buffer|) && i < info.height && j < info.width && k < 3
    ensures Times(i + 1, info.width * 3) <= |Unpadded(info, buffer, info.height)|
    ensures info.SourceAt(i, j, k) < |buffer|
    ensures Row(Unpadded(info, buffer, info.height), info.width * 3, i)[j * 3 + k] == buffer[info.SourceAt(i, j, k)]
  {
    RowInUnpadded(info, buffer, info.height, i, info.width * 3);
    RowPixelsAt(buffer, Times(i, info.rstride), info.pstride, info.width, j, k);
  }

  /** Row i of the image is the pixels of row i of the buffer. */
  lemma {:induction false} RowInUnpadded(info: Info, buffer: string, rows: nat, i: nat, rowSize: nat)
    requires info.Covers(|buffer|) && i < rows <= info.height && rowSize == info.width * 3
    ensures info.width > 0 ==> Times(i, info.rstride) + Times(info.width - 1, info.pstride) + 3 <= |buffer|
    ensures Times(i + 1, rowSize) <= |Unpadded(info, buffer, rows)|
    ensures Row(Unpadded(info, buffer, rows), rowSize, i) ==
            RowPixels(buffer, Times(i, info.rstride), info.pstride, info.width)
  {
    TimesMonotone(i, info.height - 1, info.rstride);
    if i == rows - 1 {
    } else {
      RowInUnpadded(info, buffer, rows - 1, i, rowSize);
      TimesMonotone(i + 1, rows - 1, rowSize);
    }
  }

  // ----- Padding -----

  lemma SrgbSize(image: Image)
    requires image.Valid() && image.desc.format == SRGB
    ensures |image.data| == Times(image.desc.height, image.desc.width * 3)
  {
    GetBufferSizeIff(image.desc);
    TimesIsProduct(image.desc.height, image.desc.width * 3);
    assert ByteCount(image.desc) == image.desc.height * (image.desc.width * 3);
  }

  /** Padding each row of an RGB image. The preconditions on sizes say that the C++ int arithmetic
      does not overflow. */
  method RgbRawImageToGstreamerBuffer(r: RawImage) returns (bytes: string)
    requires r.Valid() && r.desc.format == SRGB
    requires r.desc.width * 3 + 3 <= INT_MAX && Times(r.desc.height, RoundUp4(r.desc.width * 3)) <= INT_MAX
    ensures var rowSize := r.desc.width * 3;
            && rowSize <= RoundUp4(rowSize) && Times(r.desc.height, rowSize) == |r.Value().data|
            && bytes == Padded(r.Value().data, rowSize, RoundUp4(rowSize), r.desc.height)
  {
    SrgbSize(r.Value());
    var rowSize := r.desc.width * r.channels;
    RoundUp4IsLeast(rowSize);
    // rows that need no padding are moved as they are
    if rowSize % 4 == 0 {
      PaddedWithoutPadding(r.data[..], rowSize, r.desc.height);
      return r.data[..];
    }
    bytes := PadRows(r.data[..], rowSize, RoundUp4(rowSize), r.desc.height);
  }

  /** Writing a row behind `done` in a zero-filled buffer leaves its padding and the rest zero. */
  lemma RowThenZeros(done: string, row: string, pad: nat, rest: nat)
    ensures done + row + Zeros(|row| + pad + rest)[|row|..] == done + row + Zeros(pad) + Zeros(rest)
  {
  }

  /** The slow path: rows are copied into a zero-filled buffer. */
  method PadRows(data: string, rowSize: nat, rowStride: nat, height: nat) returns (bytes: string)
    requires rowSize <= rowStride && |data| == Times(height, rowSize)
    ensures bytes == Padded(data, rowSize, rowStride, height)
  {
    var size := Times(height, rowStride);
    var buffer := new char[size](i => '\0');
    assert buffer[..] == "" + Zeros(size);
    for i := 0 to height
      invariant Times(i, rowStride) <= size && Times(i, rowSize) <= |data|
      invariant buffer[..] == Padded(data, rowSize, rowStride, i) + Zeros(size - Times(i, rowStride))
    {
      PadNextRow(data, rowSize, rowStride, height, buffer, i);
    }
    bytes := buffer[..];
  }

  method PadNextRow(data: string, rowSize: nat, rowStride: nat, height: nat, buffer: array<char>, i: nat)
    requires rowSize <= rowStride && |data| == Times(height, rowSize) && i < height
    requires Times(i, rowStride) <= Times(height, rowStride) && Times(i, rowSize) <= |data|
    requires buffer[..] == Padded(data, rowSize, rowStride, i) + Zeros(Times(height, rowStride) - Times(i, rowStride))
    modifies buffer
    ensures Times(i + 1, rowStride) <= Times(height, rowStride) && Times(i + 1, rowSize) <= |data|
    ensures buffer[..] ==
            Padded(data, rowSize, rowStride, i + 1) + Zeros(Times(height, rowStride) - Times(i + 1, rowStride))
  {
    TimesMonotone(i + 1, height, rowStride);
    TimesMonotone(i + 1, height, rowSize);
    ghost var done, rest := Padded(data, rowSize, rowStride, i), Times(height, rowStride) - Times(i + 1, rowStride);
    CopyRow(buffer, Times(i, rowStride), data, Times(i, rowSize), rowSize, done, Zeros(rowStride + rest));
    RowThenZeros(done, Row(data, rowSize, i), rowStride - rowSize, rest);
  }

  /** std::copy of one row over the start of what follows `before` in the buffer. */
  method CopyRow(buffer: array<char>, to: nat, data: string, from: nat, n: nat, ghost before: string, ghost after: string)
    requires buffer[..] == before + after && to == |before| && n <= |after|
    requires from + n <= |data|
    modifies buffer
    ensures buffer[..] == before + data[from..from + n] + after[n..]
  {
    assert buffer.Length == |before + after|;
    forall j | 0 <= j < n {
      buffer[to + j] := data[from + j];
    }
  }

  // ----- Unpadding -----

  /** Closing the padding of an RGB buffer. The null result is the fatal check of the RawImage
      constructor, which fails exactly when the image would have more bytes than an int can count. */
  method ToRgbRawImage(info: Info, buffer: string) returns (r: RawImage?)
    requires info.height <= INT_MAX && info.width <= INT_MAX
    requires Times(info.height, info.width * 3) <= INT_MAX ==> info.Covers(|buffer|)
    ensures r == null <==> Times(info.height, info.width * 3) > INT_MAX
    ensures r != null ==> fresh(r) && r.Valid()
    ensures r != null ==> r.desc == Descriptor(info.height, info.width, SRGB)
    ensures r != null ==> r.Value().data == Unpadded(info, buffer, info.height)
  {
    var desc := Descriptor(info.height, info.width, SRGB);
    SrgbSizeIff(desc);
    if GetBufferSize(desc).Invalid? {
      return null;
    }
    // a buffer without padding is moved as it is
    if info.pstride == info.components && info.rstride == info.width * 3 && |buffer| == Times(info.height, info.rstride) {
      UnpaddedWithoutPadding(info, buffer);
      r := new RawImage.FromBytes(desc, buffer);
      return;
    }
    var image := new RawImage(desc);
    UnpadRows(info, buffer, image.data);
    r := image;
  }

  lemma SrgbSizeIff(desc: Descriptor)
    requires Validate(desc) && desc.format == SRGB
    ensures var size := Times(desc.height, desc.width * 3);
            GetBufferSize(desc) == if size <= INT_MAX then Ok(size) else Invalid
  {
    GetBufferSizeIff(desc);
    TimesIsProduct(desc.height, desc.width * 3);
    assert ByteCount(desc) == desc.height * (desc.width * 3);
  }

  /** The slow path: rows, then pixels, then components. */
  method UnpadRows(info: Info, buffer: string, data: array<char>)
    requires info.Covers(|buffer|) && data.Length == Times(info.height, info.width * 3)
    modifies data
    ensures data[..] == Unpadded(info, buffer, info.height)
  {
    for i := 0 to info.height
      invariant Times(i, info.width * 3) <= data.Length
      invariant data[..Times(i, info.width * 3)] == Unpadded(info, buffer, i)
    {
      UnpadNextRow(info, buffer, data, i);
    }
  }

  method UnpadNextRow(info: Info, buffer: string, data: array<char>, i: nat)
    requires info.Covers(|buffer|) && data.Length == Times(info.height, info.width * 3) && i < info.height
    requires Times(i, info.width * 3) <= data.Length && data[..Times(i, info.width * 3)] == Unpadded(info, buffer, i)
    modifies data
    ensures Times(i + 1, info.width * 3) <= data.Length
    ensures data[..Times(i + 1, info.width * 3)] == Unpadded(info, buffer, i + 1)
  {
    var row := info.width * 3;
    TimesMonotone(i + 1, info.height, row);
    TimesMonotone(i, info.height - 1, info.rstride);
    var srcRowStart := Times(i, info.rstride);
    var dstRowStart := Times(i, row);
    UnpadRow(buffer, srcRowStart, info.pstride, info.width, data, dstRowStart);
    assert data[..Times(i + 1, row)] == data[..dstRowStart] + RowPixels(buffer, srcRowStart, info.pstride, info.width);
  }

  method UnpadRow(buffer: string, srcRowStart: nat, pstride: nat, width: nat, data: array<char>, dstRowStart: nat)
    requires width > 0 ==> srcRowStart + Times(width - 1, pstride) + 3 <= |buffer|
    requires dstRowStart + width * 3 <= data.Length
    modifies data
    ensures data[dstRowStart..dstRowStart + width * 3] == RowPixels(buffer, srcRowStart, pstride, width)
    ensures data[..dstRowStart] == old(data[..dstRowStart])
  {
    for j := 0 to width
      invariant j > 0 ==> srcRowStart + Times(j - 1, pstride) + 3 <= |buffer|
      invariant data[dstRowStart..dstRowStart + j * 3] == RowPixels(buffer, srcRowStart, pstride, j)
      invariant data[..dstRowStart] == old(data[..dstRowStart])
    {
      TimesMonotone(j, width - 1, pstride);
      var srcPixStart := srcRowStart + Times(j, pstride);
      var dstPixStart := dstRowStart + j * 3;
      ghost var before := data[..dstPixStart];
      CopyPixel(buffer, srcPixStart, data, dstPixStart);
      assert data[..dstRowStart] == before[..dstRowStart];
      assert data[dstRowStart..dstPixStart + 3] == before[dstRowStart..] + buffer[srcPixStart..srcPixStart + 3];
    }
  }

  method CopyPixel(buffer: string, srcPixStart: nat, data: array<char>, dstPixStart: nat)
    requires srcPixStart + 3 <= |buffer| && dstPixStart + 3 <= data.Length
    modifies data
    ensures data[dstPixStart..dstPixStart + 3] == buffer[srcPixStart..srcPixStart + 3]
    ensures data[..dstPixStart] == old(data[..dstPixStart])
  {
    for k := 0 to 3
      invariant data[..dstPixStart] == old(data[..dstPixStart])
      invariant data[dstPixStart..dstPixStart + k] == buffer[srcPixStart..srcPixStart + k]
    {
      data[dstPixStart + k] := buffer[srcPixStart + k];
    }
  }

  // ----- Fast paths and round trip -----

  lemma {:induction false} PaddedNothing(data: string, rowSize: nat, rows: nat)
    requires Times(rows, rowSize) <= |data|
    ensures Padded(data, rowSize, rowSize, rows) == data[..Times(rows, rowSize)]
  {
    if rows == 0 {
    } else {
      PaddedNothing(data, rowSize, rows - 1);
    }
  }

  /** When the row size is a multiple of four, padding is the identity: the fast path is right. */
  lemma PaddedWithoutPadding(data: string, rowSize: nat, height: nat)
    requires rowSize % 4 == 0 && rowSize + 3 <= INT_MAX && |data| == Times(height, rowSize)
    ensures RoundUp4(rowSize) == rowSize
    ensures Padded(data, rowSize, rowSize, height) == data
  {
    RoundUp4IsLeast(rowSize);
    PaddedNothing(data, rowSize, height);
  }

  /** Tightly packed pixels are a slice of the buffer. */
  lemma {:induction false} PackedPixels(buffer: string, start: nat, pixels: nat)
    requires start + pixels * 3 <= |buffer|
    ensures pixels > 0 ==> start + Times(pixels - 1, 3) + 3 <= |buffer|
    ensures Times(pixels, 3) == pixels * 3
    ensures RowPixels(buffer, start, 3, pixels) == buffer[start..start + pixels * 3]
  {
    if pixels == 0 {
    } else {
      PackedPixels(buffer, start, pixels - 1);
    }
  }

  lemma {:induction false} UnpaddedNothing(info: Info, buffer: string, rows: nat)
    requires info.Covers(|buffer|) && rows <= info.height
    requires info.pstride == 3 && info.rstride == info.width * 3 && |buffer| == Times(info.height, info.rstride)
    ensures Times(rows, info.rstride) <= |buffer|
    ensures Unpadded(info, buffer, rows) == buffer[..Times(rows, info.rstride)]
  {
    TimesMonotone(rows, info.height, info.rstride);
    if rows == 0 {
    } else {
      UnpaddedNothing(info, buffer, rows - 1);
      PackedPixels(buffer, Times(rows - 1, info.rstride), info.width);
    }
  }

  /** When the guard of the fast path holds, the slow path would copy the buffer unchanged. */
  lemma UnpaddedWithoutPadding(info: Info, buffer: string)
    requires info.Covers(|buffer|)
    requires info.pstride == 3 && info.rstride == info.width * 3 && |buffer| == Times(info.height, info.rstride)
    ensures Unpadded(info, buffer, info.height) == buffer
  {
    UnpaddedNothing(info, buffer, info.height);
  }

  /** A padded row begins with the image row. */
  lemma PaddedRowStart(data: string, rowSize: nat, stride: nat, rows: nat, i: nat)
    requires rowSize <= stride && Times(rows, rowSize) <= |data| && i < rows
    ensures RowMatches(Padded(data, rowSize, stride, rows), stride, data, rowSize, i)
  {
  }

  lemma PaddedCovers(info: Info)
    requires info.pstride == 3 && info.width * 3 <= info.rstride
    ensures info.Covers(Times(info.height, info.rstride))
  {
    TimesIsProduct(info.width, 3);
  }

  /** Row i of the buffer begins with row i of the image. */
  predicate RowMatches(bytes: string, stride: nat, data: string, rowSize: nat, i: nat) {
    && Times(i, stride) + rowSize <= |bytes| && Times(i + 1, rowSize) <= |data|
    && bytes[Times(i, stride)..Times(i, stride) + rowSize] == Row(data, rowSize, i)
  }

  lemma RowsOneMore(data: string, rowSize: nat, rows: nat)
    requires rows > 0 && Times(rows, rowSize) <= |data|
    ensures data[..Times(rows, rowSize)] == data[..Times(rows - 1, rowSize)] + Row(data, rowSize, rows - 1)
  {
  }

  /** A buffer whose rows begin with the rows of an image unpads to that image. */
  lemma {:induction false} UnpaddedRows(info: Info, bytes: string, data: string, rowSize: nat, rows: nat)
    requires info.Covers(|bytes|) && rows <= info.height
    requires info.pstride == 3 && rowSize == info.width * 3
    requires forall i: nat | i < rows :: RowMatches(bytes, info.rstride, data, rowSize, i)
    ensures Times(rows, rowSize) <= |data| && Unpadded(info, bytes, rows) == data[..Times(rows, rowSize)]
  {
    if rows == 0 {
    } else {
      assert RowMatches(bytes, info.rstride, data, rowSize, rows - 1);
      UnpaddedRows(info, bytes, data, rowSize, rows - 1);
      PackedPixels(bytes, Times(rows - 1, info.rstride), info.width);
      RowsOneMore(data, rowSize, rows);
    }
  }

  /** Unpadding a padded image gives it back, whatever the stride. */
  lemma UnpadAfterPad(data: string, info: Info)
    requires info.pstride == 3 && info.width * 3 <= info.rstride
    requires |data| == Times(info.height, info.width * 3)
    ensures var bytes := Padded(data, info.width * 3, info.rstride, info.height);
            info.Covers(|bytes|) && Unpadded(info, bytes, info.height) == data
  {
    var rowSize := info.width * 3;
    var bytes := Padded(data, rowSize, info.rstride, info.height);
    PaddedCovers(info);
    forall i: nat | i < info.height
      ensures RowMatches(bytes, info.rstride, data, rowSize, i)
    {
      PaddedRowStart(data, rowSize, info.rstride, info.height, i);
    }
    UnpaddedRows(info, bytes, data, rowSize, info.height);
  }

  /** The round trip, for every SRGB image whose padded size fits in an int: padding its rows and
      unpadding them with the strides that gstreamer reports gives back the same image. */
  method PadThenUnpad(r: RawImage) returns (back: RawImage)
    requires r.Valid() && r.desc.format == SRGB
    requires r.desc.width * 3 + 3 <= INT_MAX && Times(r.desc.height, RoundUp4(r.desc.width * 3)) <= INT_MAX
    ensures fresh(back) && back.Valid() && back.Value() == r.Value()
  {
    SrgbSize(r.Value());
    RoundUp4IsLeast(r.desc.width * 3);
    var info := Info(r.desc.height, r.desc.width, RoundUp4(r.desc.width * 3), 3);
    UnpadAfterPad(r.data[..], info);
    var bytes := RgbRawImageToGstreamerBuffer(r);
    var image := ToRgbRawImage(info, bytes);
    back := image;
  }
}
