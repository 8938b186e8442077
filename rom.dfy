/** The cartridge packer: the assembled program becomes a 16 KiB Dragon 32
    cartridge image whose byte i sits at address $C000 + i, with the reset
    vector in its last two bytes. */
module Rom {

  newtype byte = x: int | 0 <= x < 0x100

  const RomSize := 16384
  /** Offset of the reset vector ($FFFE - $C000). */
  const VectorOffset := 16382
  /** Erased-EPROM filler. */
  const FillByte: byte := 0xFF
  /** The reset vector, big-endian: $C000, the first byte of the image. */
  const EntryHigh: byte := 0xC0
  const EntryLow: byte := 0x00

  /** The image the packer writes for `code` of at most 16384 bytes: the
      code from offset 0, filler after it, and the reset vector written
      last, over whatever was at offsets 16382 and 16383. */
  function RomImage(code: seq<byte>): (rom: seq<byte>)
    requires |code| <= RomSize
    ensures |rom| == RomSize
    ensures forall i :: 0 <= i < VectorOffset ==> rom[i] == if i < |code| then code[i] else FillByte
    ensures rom[VectorOffset] == EntryHigh && rom[VectorOffset + 1] == EntryLow
  {
    (code + seq(RomSize - |code|, _ => FillByte))[VectorOffset := EntryHigh][VectorOffset + 1 := EntryLow]
  }

  /** Builds the image in a fresh 16 KiB buffer: fill every byte with $FF,
      copy the code over the start, then write the reset vector. A code
      longer than the buffer makes the copy fail (an index error), hence the
      precondition. */
  method PackRom(code: seq<byte>) returns (rom: array<byte>)
    requires |code| <= RomSize
    ensures fresh(rom) && rom[..] == RomImage(code)
  {
    rom := new byte[RomSize];
    var i := 0;
    while i < RomSize
      invariant 0 <= i <= RomSize
      invariant forall k :: 0 <= k < i ==> rom[k] == FillByte
    {
      rom[i] := FillByte;
      i := i + 1;
    }
    i := 0;
    while i < |code|
      invariant 0 <= i <= |code|
      invariant forall k :: 0 <= k < i ==> rom[k] == code[k]
      invariant forall k :: i <= k < RomSize ==> rom[k] == FillByte
    {
      rom[i] := code[i];
      i := i + 1;
    }
    rom[VectorOffset] := EntryHigh;
    rom[VectorOffset + 1] := EntryLow;
    ghost var image := RomImage(code);
    assert forall k :: 0 <= k < RomSize ==> rom[k] == image[k];
  }

  /** The start address the reset vector holds, read big-endian. */
  function VectorTarget(rom: seq<byte>): int
    requires |rom| == RomSize
  {
    rom[VectorOffset] as int * 256 + rom[VectorOffset + 1] as int
  }

  /** The reset vector of every image points at $C000, where the code starts,
      and the bytes before the vector are the code followed by filler. */
  lemma {:induction false} ImageBootsCode(code: seq<byte>)
    requires |code| <= VectorOffset
    ensures VectorTarget(RomImage(code)) == 0xC000
    ensures RomImage(code)[..|code|] == code
    ensures forall i :: |code| <= i < VectorOffset ==> RomImage(code)[i] == FillByte
  {
    var rom := RomImage(code);
    assert forall i :: 0 <= i < |code| ==> rom[..|code|][i] == code[i];
  }

  datatype RomError = CodeTooLarge(size: nat)

  datatype Result = Ok(image: seq<byte>) | Err(error: RomError)

  /** The packer with its size check made explicit: code that would run into
      the reset vector is refused instead of being cut short by it. */
  function Package(code: seq<byte>): (r: Result)
    ensures r.Err? <==> |code| > VectorOffset
    ensures r.Err? ==> r.error == CodeTooLarge(|code|)
    ensures r.Ok? ==> |r.image| == RomSize && r.image[..|code|] == code
  {
    if |code| > VectorOffset then Err(CodeTooLarge(|code|))
    else
      var image := code + seq(VectorOffset - |code|, _ => FillByte) + [EntryHigh, EntryLow];
      assert image[..|code|] == code;
      Ok(image)
  }

  /** Where the size check lets code through, the checked packer produces
      exactly the image the unchecked one writes. */
  lemma {:induction false} PackageAgrees(code: seq<byte>)
    requires |code| <= VectorOffset
    ensures Package(code) == Ok(RomImage(code))
  {
    var image := Package(code).image;
    var rom := RomImage(code);
    assert |image| == |rom|;
    forall i | 0 <= i < RomSize
      ensures image[i] == rom[i]
    {
      if i < |code| {
        assert image[i] == code[i];
      } else if i < VectorOffset {
        assert image[i] == FillByte;
      }
    }
  }

  /** The unchecked packer accepts code of 16383 or 16384 bytes, then writes
      the reset vector over its last bytes: unless byte 16382 of the code
      happens to be $C0, the image no longer starts with the code. */
  lemma {:induction false} VectorOverwritesCode(code: seq<byte>)
    requires VectorOffset < |code| <= RomSize && code[VectorOffset] != EntryHigh
    ensures RomImage(code)[..|code|] != code
  {
    assert RomImage(code)[..|code|][VectorOffset] == EntryHigh;
  }

  /** A concrete instance: 16383 bytes of $12. */
  lemma OversizedCodeIsCorrupted()
    ensures var code := seq(VectorOffset + 1, _ => 0x12 as byte);
      RomImage(code)[VectorOffset] != code[VectorOffset] && Package(code) == Err(CodeTooLarge(16383))
  {
  }
}
