/**
 tool/cpu.h: the exit information of an intercepted I/O instruction, as the processor packs it and
 the tool unpacks it.
 */
module Ioio {
  import opened Words

  /** An I/O access (section 15.10.2 of the AMD64 manual, Volume 2); `other` is the address size and segment. */
  datatype Io = Io(isIn: bool, isString: bool, isRep: bool, size: IoSize, other: U6, port: U16)

  datatype IoSize = Byte | Short | Long

  type U6 = n: nat | n < 64

  function Flag(b: bool): nat {
    if b then 1 else 0
  }

  function SizeBit(s: IoSize): nat {
    match s case Byte => 1 case Short => 2 case Long => 4
  }

  /** EXITINFO1: type in bit 0, string in bit 2, rep in bit 3, size in bits 4 to 6, port in bits 16 to 31. */
  function Encode(io: Io): U32 {
    Flag(io.isIn) + 4 * Flag(io.isString) + 8 * Flag(io.isRep) + 16 * SizeBit(io.size) + 128 * io.other
        + 0x1_0000 * io.port
  }

  const SVM_IOIO_TYPE_IN: nat := 1

  function IoioType(info: U32): nat {
    And(Shr(info, 0), 1)
  }

  function IoioIsSize8(info: U32): bool {
    And(Shr(info, 4), 1) != 0
  }

  function IoioPort(info: U32): nat {
    And(Shr(info, 16), 0xffff)
  }

  lemma ShiftAndMask(x: nat, k: nat, n: nat)
    ensures And(Shr(x, k), Pow2(n) - 1) == x / Pow2(k) % Pow2(n)
  {
    ShiftIsDiv(x, k);
    AndLowMask(Shr(x, k), n);
    ShiftIsDiv(Shr(x, k), n);
  }

  /** The decoders recover the direction, the size and the port of every access. */
  lemma DecodeEncode(io: Io)
    ensures IoioType(Encode(io)) == Flag(io.isIn)
    ensures IoioIsSize8(Encode(io)) <==> io.size == Byte
    ensures IoioPort(Encode(io)) == io.port
  {
    var info := Encode(io);
    Powers();
    ShiftAndMask(info, 0, 1);
    ShiftAndMask(info, 4, 1);
    ShiftAndMask(info, 16, 16);
    Fields(io);
  }

  /** On any word, the decoders read the fields at the places section 15.10.2 gives them. */
  lemma DecodersAreFields(info: U32)
    ensures IoioType(info) == info % 2 && IoioPort(info) == info / 0x1_0000
    ensures IoioIsSize8(info) <==> info / 16 % 2 == 1
  {
    Powers();
    ShiftAndMask(info, 0, 1);
    ShiftAndMask(info, 4, 1);
    ShiftAndMask(info, 16, 16);
  }

  lemma Powers()
    ensures Pow2(0) == 1 && Pow2(1) == 2 && Pow2(4) == 16 && Pow2(16) == 0x1_0000
  {
    Pow2Add(4, 4);
    Pow2Add(8, 8);
  }

  lemma Fields(io: Io)
    ensures Encode(io) % 2 == Flag(io.isIn)
    ensures Encode(io) / 16 % 2 == 1 <==> io.size == Byte
    ensures Encode(io) / 0x1_0000 == io.port
  {
    var low := Flag(io.isIn) + 4 * Flag(io.isString) + 8 * Flag(io.isRep);
    var mid := SizeBit(io.size) + 8 * io.other + 4096 * io.port;
    assert Encode(io) == low + 16 * mid;
    assert Encode(io) / 16 == mid;
  }

  /** The three decoders, on an information word that the processor packed from io. */
  method DecodeInfo(info: U32, ghost io: Io) returns (isIn: bool, size8: bool, port: nat)
    requires info == Encode(io)
    ensures isIn == io.isIn && size8 == (io.size == Byte) && port == io.port
  {
    DecodeEncode(io);
    isIn, size8, port := IoioType(info) == SVM_IOIO_TYPE_IN, IoioIsSize8(info), IoioPort(info);
  }
}
