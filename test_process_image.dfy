/**
 * `TestProcessImage`: the process image the integration tests fill and
 * read. Registers are stored as the two bytes of their low 16 bits, high
 * byte first, and read back unsigned; a missing register reads as 0 and a
 * missing coil or discrete input as false. The range setters put
 * `values[i]` at `address + i` and leave every other address alone.
 */
module TestProcessImage {
  import opened RegisterBytes
  import opened ProcessImage

  /** `toByteArray`: `putShort((short) value)` in big-endian order, the
      two bytes of the value's low 16 bits. */
  function ToByteArray(value: int): (bytes: seq<bv8>)
    ensures |bytes| == 2
    ensures Decode(bytes[0], bytes[1]) == value % 65536
  {
    EncodeDecode(value);
    [HighByte(value), LowByte(value)]
  }

  /** `fromByteArray`: `getShort() & 0xFFFF`, the first two bytes as an
      unsigned 16-bit value. */
  function FromByteArray(bytes: seq<bv8>): (value: int)
    requires |bytes| >= 2
    ensures 0 <= value < 65536
  {
    Decode(bytes[0], bytes[1])
  }

  /** Encoding and decoding keep the low 16 bits: every value 0..65535
      comes back unchanged, and -1 comes back as 65535. */
  lemma RoundTrip(value: int)
    ensures FromByteArray(ToByteArray(value)) == value % 65536
    ensures 0 <= value < 65536 ==> FromByteArray(ToByteArray(value)) == value
    ensures FromByteArray(ToByteArray(-1)) == 65535
  {
    if 0 <= value < 65536 {
      ModUnique(value, 0, value);
    }
    assert FromByteArray(ToByteArray(-1)) == -1 % 65536;
    ModUnique(-1, -1, 65535);
  }

  /** Two values encode alike exactly when they agree modulo 2^16. */
  lemma ToByteArrayInjective(v1: int, v2: int)
    ensures ToByteArray(v1) == ToByteArray(v2) <==> v1 % 65536 == v2 % 65536
  {
    var b1, b2 := ToByteArray(v1), ToByteArray(v2);
    if v1 % 65536 == v2 % 65536 {
      DecodeInjective(b1[0], b1[1], b2[0], b2[1]);
      assert b1 == b2;
    }
  }

  /** The loop of the range setters: `m.put(address + i, values[i])` for
      each `i` in order. */
  method PutAll<T>(m: map<int, T>, address: int, values: seq<T>) returns (r: map<int, T>)
    ensures forall a :: a in r <==> a in m || address <= a < address + |values|
    ensures forall a :: a in r ==> r[a] == if address <= a < address + |values| then values[a - address] else m[a]
  {
    r := m;
    var i := 0;
    while i < |values|
      invariant 0 <= i <= |values|
      invariant forall a :: a in r <==> a in m || address <= a < address + i
      invariant forall a :: a in r ==> r[a] == if address <= a < address + i then values[a - address] else m[a]
    {
      r := r[address + i := values[i]];
      i := i + 1;
    }
  }

  /** A stored register's value, or 0 when none is stored. */
  function RegisterOrZero(registers: map<int, seq<bv8>>, address: int): (value: int)
    requires TwoByteRegisters(registers)
    ensures 0 <= value < 65536
    ensures address !in registers ==> value == 0
  {
    if address in registers then FromByteArray(registers[address]) else 0
  }

  /** A stored bit, or false when none is stored. */
  function BitOrFalse(bits: map<int, bool>, address: int): (value: bool)
    ensures value <==> address in bits && bits[address]
  {
    if address in bits then bits[address] else false
  }

  /** The registers encoded by `toByteArray`, in order. */
  function Encoded(values: seq<int>): (bytes: seq<seq<bv8>>)
    ensures |bytes| == |values|
    ensures forall i :: 0 <= i < |values| ==> bytes[i] == ToByteArray(values[i])
  {
    seq(|values|, i requires 0 <= i < |values| => ToByteArray(values[i]))
  }

  /** Writing a range of registers and reading one back: addresses in the
      range read the low 16 bits of their value, others are unchanged. */
  lemma {:induction false} RegisterRangeReadBack(before: map<int, seq<bv8>>, after: map<int, seq<bv8>>,
                                                 address: int, values: seq<int>, a: int)
    requires TwoByteRegisters(before)
    requires forall b :: b in after <==> b in before || address <= b < address + |values|
    requires forall b :: b in after ==> after[b] == if address <= b < address + |values| then Encoded(values)[b - address] else before[b]
    ensures TwoByteRegisters(after)
    ensures RegisterOrZero(after, a) == if address <= a < address + |values| then values[a - address] % 65536
                                         else RegisterOrZero(before, a)
  {
    if address <= a < address + |values| {
      RoundTrip(values[a - address]);
    }
  }

  class TestImage {
    var image: Image

    predicate Valid()
      reads this
    {
      TwoByteRegisters(image.holdingRegisters) && TwoByteRegisters(image.inputRegisters)
    }

    /** A new process image has empty tables. */
    constructor()
      ensures Valid() && image == Image(map[], map[], map[], map[])
    {
      image := Image(map[], map[], map[], map[]);
    }

    /** `getHoldingRegister`: the stored value, or 0. */
    function GetHoldingRegister(address: int): (value: int)
      requires Valid()
      reads this
      ensures 0 <= value < 65536
    {
      RegisterOrZero(image.holdingRegisters, address)
    }

    /** `getInputRegister`: the stored value, or 0. */
    function GetInputRegister(address: int): (value: int)
      requires Valid()
      reads this
      ensures 0 <= value < 65536
    {
      RegisterOrZero(image.inputRegisters, address)
    }

    /** `getCoil`: the stored coil, or false. */
    function GetCoil(address: int): (value: bool)
      reads this
      ensures value <==> address in image.coils && image.coils[address]
    {
      BitOrFalse(image.coils, address)
    }

    /** `getDiscreteInput`: the stored input, or false. */
    function GetDiscreteInput(address: int): (value: bool)
      reads this
      ensures value <==> address in image.discreteInputs && image.discreteInputs[address]
    {
      BitOrFalse(image.discreteInputs, address)
    }

    /** `setHoldingRegister`: one register, read back as its low 16 bits. */
    method SetHoldingRegister(address: int, value: int)
      requires Valid()
      modifies this
      ensures Valid()
      ensures image == old(image).(holdingRegisters := old(image).holdingRegisters[address := ToByteArray(value)])
      ensures GetHoldingRegister(address) == value % 65536
      ensures forall a :: a != address ==> GetHoldingRegister(a) == old(GetHoldingRegister(a))
    {
      image := image.(holdingRegisters := image.holdingRegisters[address := ToByteArray(value)]);
      RoundTrip(value);
    }

    /** `setHoldingRegisters`: `values[i]` at `address + i`. */
    method SetHoldingRegisters(address: int, values: seq<int>)
      requires Valid()
      modifies this
      ensures Valid()
      ensures image.inputRegisters == old(image.inputRegisters) && image.coils == old(image.coils)
           && image.discreteInputs == old(image.discreteInputs)
      ensures forall a :: GetHoldingRegister(a) == if address <= a < address + |values| then values[a - address] % 65536
                                                  else old(GetHoldingRegister(a))
    {
      var registers := PutAll(image.holdingRegisters, address, Encoded(values));
      forall a ensures TwoByteRegisters(registers)
        && RegisterOrZero(registers, a) == if address <= a < address + |values| then values[a - address] % 65536
                                          else RegisterOrZero(image.holdingRegisters, a)
      {
        RegisterRangeReadBack(image.holdingRegisters, registers, address, values, a);
      }
      image := image.(holdingRegisters := registers);
    }

    /** `setInputRegister`: one register, read back as its low 16 bits. */
    method SetInputRegister(address: int, value: int)
      requires Valid()
      modifies this
      ensures Valid()
      ensures image == old(image).(inputRegisters := old(image).inputRegisters[address := ToByteArray(value)])
      ensures GetInputRegister(address) == value % 65536
      ensures forall a :: a != address ==> GetInputRegister(a) == old(GetInputRegister(a))
    {
      image := image.(inputRegisters := image.inputRegisters[address := ToByteArray(value)]);
      RoundTrip(value);
    }

    /** `setInputRegisters`: `values[i]` at `address + i`. */
    method SetInputRegisters(address: int, values: seq<int>)
      requires Valid()
      modifies this
      ensures Valid()
      ensures image.holdingRegisters == old(image.holdingRegisters) && image.coils == old(image.coils)
           && image.discreteInputs == old(image.discreteInputs)
      ensures forall a :: GetInputRegister(a) == if address <= a < address + |values| then values[a - address] % 65536
                                                else old(GetInputRegister(a))
    {
      var registers := PutAll(image.inputRegisters, address, Encoded(values));
      forall a ensures TwoByteRegisters(registers)
        && RegisterOrZero(registers, a) == if address <= a < address + |values| then values[a - address] % 65536
                                          else RegisterOrZero(image.inputRegisters, a)
      {
        RegisterRangeReadBack(image.inputRegisters, registers, address, values, a);
      }
      image := image.(inputRegisters := registers);
    }

    /** `setCoil`. */
    method SetCoil(address: int, value: bool)
      requires Valid()
      modifies this
      ensures Valid()
      ensures image == old(image).(coils := old(image).coils[address := value])
      ensures GetCoil(address) == value
      ensures forall a :: a != address ==> GetCoil(a) == old(GetCoil(a))
    {
      image := image.(coils := image.coils[address := value]);
    }

    /** `setCoils`: `values[i]` at `address + i`. */
    method SetCoils(address: int, values: seq<bool>)
      requires Valid()
      modifies this
      ensures Valid()
      ensures image.holdingRegisters == old(image.holdingRegisters) && image.inputRegisters == old(image.inputRegisters)
           && image.discreteInputs == old(image.discreteInputs)
      ensures forall a :: GetCoil(a) == if address <= a < address + |values| then values[a - address] else old(GetCoil(a))
    {
      var coils := PutAll(image.coils, address, values);
      image := image.(coils := coils);
    }

    /** `setDiscreteInput`. */
    method SetDiscreteInput(address: int, value: bool)
      requires Valid()
      modifies this
      ensures Valid()
      ensures image == old(image).(discreteInputs := old(image).discreteInputs[address := value])
      ensures GetDiscreteInput(address) == value
      ensures forall a :: a != address ==> GetDiscreteInput(a) == old(GetDiscreteInput(a))
    {
      image := image.(discreteInputs := image.discreteInputs[address := value]);
    }

    /** `setDiscreteInputs`: `values[i]` at `address + i`. */
    method SetDiscreteInputs(address: int, values: seq<bool>)
      requires Valid()
      modifies this
      ensures Valid()
      ensures image.holdingRegisters == old(image.holdingRegisters) && image.inputRegisters == old(image.inputRegisters)
           && image.coils == old(image.coils)
      ensures forall a :: GetDiscreteInput(a) == if address <= a < address + |values| then values[a - address]
                                                 else old(GetDiscreteInput(a))
    {
      var inputs := PutAll(image.discreteInputs, address, values);
      image := image.(discreteInputs := inputs);
    }
  }
}
