/**
 The byte memory of a debuggee and the trap instruction of the two supported
 architectures.  A whole read or write either transfers every byte or fails.
 */
module Memory {
  type Byte = b: int | 0 <= b < 256
  type Mem = map<nat, Byte>
  type Instruction = seq<Byte>

  datatype Arch = X86 | Arm64

  /** `BreakPoint::breakPointInstruction`: int3, or BRK #0xF000 in little-endian order. */
  function Trap(arch: Arch): (t: Instruction)
    ensures 1 <= |t| <= 4
  {
    match arch
    case X86 => [0xCC]
    case Arm64 => [0x00, 0x00, 0x3E, 0xD4]
  }

  function LittleEndian(bytes: seq<Byte>): nat {
    if bytes == [] then 0 else bytes[0] + 256 * LittleEndian(bytes[1..])
  }

  /** The bytes in memory are those of the instruction words. */
  lemma TrapWords()
    ensures LittleEndian(Trap(X86)) == 0xCC && LittleEndian(Trap(Arm64)) == 0xD43E_0000
    ensures |Trap(X86)| == 1 && |Trap(Arm64)| == 4
  {
    assert Trap(X86)[1..] == [];
    assert Trap(Arm64)[1..][1..][1..][1..] == [];
  }

  predicate Mapped(m: Mem, a: nat, n: nat) {
    forall x: nat :: a <= x < a + n ==> x in m
  }

  function Read(m: Mem, a: nat, n: nat): (bytes: seq<Byte>)
    requires Mapped(m, a, n)
  {
    seq(n, i requires 0 <= i < n => m[a + i])
  }

  function Write(m: Mem, a: nat, bytes: seq<Byte>): (m': Mem)
    requires Mapped(m, a, |bytes|)
    ensures m'.Keys == m.Keys
  {
    map x | x in m :: if a <= x < a + |bytes| then bytes[x - a] else m[x]
  }

  /** Equal reads mean equal bytes. */
  lemma ReadBytes(m: Mem, m': Mem, a: nat, n: nat)
    requires Mapped(m, a, n) && Mapped(m', a, n)
    ensures Read(m, a, n) == Read(m', a, n) <==> forall x: nat :: a <= x < a + n ==> m[x] == m'[x]
  {
    if Read(m, a, n) == Read(m', a, n) {
      forall x: nat | a <= x < a + n ensures m[x] == m'[x] {
        assert Read(m, a, n)[x - a] == Read(m', a, n)[x - a];
      }
    }
  }

  lemma ReadWriteSame(m: Mem, a: nat, bytes: seq<Byte>)
    requires Mapped(m, a, |bytes|)
    ensures Read(Write(m, a, bytes), a, |bytes|) == bytes
  {
  }

  lemma ReadWriteApart(m: Mem, a: nat, bytes: seq<Byte>, b: nat, n: nat)
    requires Mapped(m, a, |bytes|) && Mapped(m, b, n)
    requires b + n <= a || a + |bytes| <= b
    ensures Read(Write(m, a, bytes), b, n) == Read(m, b, n)
  {
  }
}
