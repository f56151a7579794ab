/** Raw images, their 32-bit buffer sizes, and raw image packets. Bytes are `char`s. */
module RawImages {

  const INT_MAX: int := 0x7fff_ffff

  /** A C++ int. */
  type Int32 = x: int | -0x8000_0000 <= x <= INT_MAX

  datatype Format = SRGB | UNKNOWN | Unimplemented(id: Int32)

  datatype Descriptor = Descriptor(height: Int32, width: Int32, format: Format)

  datatype Result<T> = Ok(value: T) | Invalid

  function GetNumChannels(format: Format): Int32 {
    if format == SRGB then 3 else 1
  }

  predicate Validate(d: Descriptor) {
    d.height >= 0 && d.width >= 0
  }

  /** __builtin_mul_overflow: the product, unless it does not fit. */
  function CheckedMul(a: Int32, b: Int32): Result<Int32> {
    if -0x8000_0000 <= a * b <= INT_MAX then Ok(a * b) else Invalid
  }

  function GetBufferSize(d: Descriptor): Result<Int32> {
    var channels := GetNumChannels(d.format);
    if d.height < 0 || d.width < 0 || channels < 0 then Invalid
    else
      match CheckedMul(d.height, d.width)
      case Invalid => Invalid
      case Ok(pixels) => CheckedMul(pixels, channels)
  }

  /** The number of bytes of an image, in unbounded arithmetic. */
  function ByteCount(d: Descriptor): int {
    d.height * d.width * GetNumChannels(d.format)
  }

  /** GetBufferSize succeeds exactly when the dimensions are non-negative and the byte count fits in
      an int, and then it is the byte count. */
  lemma GetBufferSizeIff(d: Descriptor)
    ensures GetBufferSize(d).Ok? <==> d.height >= 0 && d.width >= 0 && ByteCount(d) <= INT_MAX
    ensures GetBufferSize(d).Ok? ==> GetBufferSize(d).value == ByteCount(d) >= 0
    ensures ByteCount(d) == d.height * d.width * (if d.format == SRGB then 3 else 1)
  {
  }

  /** An image as a value. */
  datatype Image = Image(desc: Descriptor, data: string)
  {
    ghost predicate Valid() {
      Validate(desc) && GetBufferSize(desc) == Ok(|data|)
    }
  }

  class RawImage {
    const desc: Descriptor
    const channels: Int32
    var data: array<char>

    ghost predicate Valid()
      reads this, data
    {
      Value().Valid() && channels == GetNumChannels(desc.format)
    }

    ghost function Value(): Image
      reads this, data
    {
      Image(desc, data[..])
    }

    /** The preconditions of both constructors are their LOG(FATAL) checks. */
    constructor (desc: Descriptor)
      requires Validate(desc) && GetBufferSize(desc).Ok?
      ensures Valid() && this.desc == desc && fresh(data)
      ensures forall i | 0 <= i < data.Length :: data[i] == '\0'
    {
      GetBufferSizeIff(desc);
      this.desc := desc;
      channels := GetNumChannels(desc.format);
      data := new char[GetBufferSize(desc).value](i => '\0');
    }

    constructor FromBytes(desc: Descriptor, bytes: string)
      requires Validate(desc) && GetBufferSize(desc).Ok? && GetBufferSize(desc).value == |bytes|
      ensures Valid() && Value() == Image(desc, bytes) && fresh(data)
    {
      this.desc := desc;
      channels := GetNumChannels(desc.format);
      data := new char[|bytes|](i requires 0 <= i < |bytes| => bytes[i]);
    }
  }

  // ----- Packets -----

  datatype PacketTypeId = RAW_IMAGE | OtherTypeId(id: Int32)

  datatype TypeDescriptor = RawImageType(desc: Descriptor) | OtherType

  datatype Packet = Packet(typeId: PacketTypeId, typeDescriptor: TypeDescriptor, payload: string)

  function ValidateAndGetDescriptor(p: Packet): Result<Descriptor> {
    if !p.typeDescriptor.RawImageType? then Invalid
    else
      var d := p.typeDescriptor.desc;
      if !Validate(d) then Invalid
      else
        match GetBufferSize(d)
        case Invalid => Invalid
        case Ok(size) => if |p.payload| != size then Invalid else Ok(d)
  }

  /** What unpacking a packet means, without saying how it is done. */
  function Unpacked(p: Packet): Result<Image> {
    if p.typeId == RAW_IMAGE && p.typeDescriptor.RawImageType?
       && p.typeDescriptor.desc.height >= 0 && p.typeDescriptor.desc.width >= 0
       && |p.payload| == ByteCount(p.typeDescriptor.desc) <= INT_MAX
    then Ok(Image(p.typeDescriptor.desc, p.payload))
    else Invalid
  }

  /** Pack with either PackPayload overload: the type, its descriptor and the bytes. */
  method Pack(image: RawImage, p: Packet) returns (p': Packet)
    requires image.Valid()
    ensures p' == Packet(RAW_IMAGE, RawImageType(image.desc), image.Value().data)
  {
    p' := p.(typeId := RAW_IMAGE, typeDescriptor := RawImageType(image.desc));
    p' := p'.(payload := image.data[..]);
  }

  lemma DescriptorIff(p: Packet)
    requires p.typeId == RAW_IMAGE
    ensures ValidateAndGetDescriptor(p).Ok? == Unpacked(p).Ok?
    ensures Unpacked(p).Ok? ==> ValidateAndGetDescriptor(p).value == Unpacked(p).value.desc
  {
  }

  /** Unpack by copying: an image of the right size is allocated and filled byte by byte. */
  method UnpackCopy(p: Packet) returns (status: bool, to: RawImage?)
    ensures status == Unpacked(p).Ok?
    ensures status ==> to != null && fresh(to) && to.Valid() && Ok(to.Value()) == Unpacked(p)
  {
    if p.typeId != RAW_IMAGE {
      return false, null;
    }
    DescriptorIff(p);
    var desc := ValidateAndGetDescriptor(p);
    if desc.Invalid? {
      return false, null;
    }
    var from := new RawImage(desc.value);
    for i := 0 to |p.payload|
      invariant from.data.Length == |p.payload| && fresh(from.data)
      invariant from.data[..i] == p.payload[..i]
    {
      from.data[i] := p.payload[i];
    }
    assert p.payload[..|p.payload|] == p.payload;
    assert from.data[..] == from.data[..|p.payload|];
    status, to := true, from;
  }

  /** Unpack by moving the payload into the image. */
  method UnpackMove(p: Packet) returns (status: bool, to: RawImage?)
    ensures status == Unpacked(p).Ok?
    ensures status ==> to != null && fresh(to) && to.Valid() && Ok(to.Value()) == Unpacked(p)
  {
    if p.typeId != RAW_IMAGE {
      return false, null;
    }
    DescriptorIff(p);
    var desc := ValidateAndGetDescriptor(p);
    if desc.Invalid? {
      return false, null;
    }
    to := new RawImage.FromBytes(desc.value, p.payload);
    status := true;
  }

  /** Unpacking what Pack produces, by copy or by move, gives the image back. */
  method PackThenUnpack(image: RawImage, p: Packet) returns (copied: RawImage, moved: RawImage)
    requires image.Valid()
    ensures fresh(copied) && fresh(moved)
    ensures copied.Valid() && moved.Valid()
    ensures copied.Value() == moved.Value() == image.Value()
  {
    GetBufferSizeIff(image.desc);
    var packed := Pack(image, p);
    var s1, c := UnpackCopy(packed);
    var s2, m := UnpackMove(packed);
    copied, moved := c, m;
  }

  /** A packet unpacks if and only if it is the packing of a valid image, which it then yields. */
  lemma UnpackedIffPacked(p: Packet, image: Image)
    ensures Unpacked(p) == Ok(image) <==>
            image.Valid() && p == Packet(RAW_IMAGE, RawImageType(image.desc), image.data)
  {
  }
}
