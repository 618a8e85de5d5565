/**
 * `ServerCommand`: the server's default process image and the choice of
 * process image per unit id. Every new image holds, at each address
 * 0..65535, the address itself in the holding and input registers and
 * `address % 2 == 0` in the coils and discrete inputs. Images are created
 * on first use, one per unit id with `--separate-units` and one shared
 * image otherwise. Starting the TCP or RTU server and sleeping forever
 * are outside the model.
 */
module ServerCommand {
  import opened RegisterBytes
  import opened ProcessImage

  /** The number of addresses the default image fills. */
  const AddressCount := 65536

  /** The key every unit shares when units are not separate. */
  const SharedKey := 0

  /** The two bytes a register holding `value` stores, high byte first. */
  function RegisterOf(value: int): seq<bv8> {
    [HighByte(value), LowByte(value)]
  }

  /** The default register table: address `a` holds `a`. */
  function DefaultRegisters(): map<int, seq<bv8>> {
    map a | 0 <= a < AddressCount :: RegisterOf(a)
  }

  /** The default coil and discrete-input table: even addresses are on. */
  function DefaultBooleans(): map<int, bool> {
    map a | 0 <= a < AddressCount :: a % 2 == 0
  }

  /** `initializeRegisters`: puts the default register of every address
      0..65535 into `registerMap`, so that each decodes to its address;
      entries at other addresses are kept. */
  method InitializeRegisters(registerMap: map<int, seq<bv8>>) returns (m: map<int, seq<bv8>>)
    ensures m == registerMap + DefaultRegisters()
    ensures forall a :: 0 <= a < AddressCount ==> a in m && |m[a]| == 2 && Decode(m[a][0], m[a][1]) == a
  {
    m := registerMap;
    var i := 0;
    while i < AddressCount
      invariant 0 <= i <= AddressCount
      invariant forall a :: a in m <==> a in registerMap || 0 <= a < i
      invariant forall a :: a in m ==> m[a] == if 0 <= a < i then DefaultRegisters()[a] else registerMap[a]
    {
      m := m[i := RegisterOf(i)];
      i := i + 1;
    }
    Filled(registerMap, DefaultRegisters(), m);
    forall a | 0 <= a < AddressCount
      ensures a in m && |m[a]| == 2 && Decode(m[a][0], m[a][1]) == a
    {
      DefaultRegisterDecodes(a);
    }
  }

  /** Each default register decodes to its own address. */
  lemma DefaultRegisterDecodes(a: int)
    requires 0 <= a < AddressCount
    ensures a in DefaultRegisters() && |DefaultRegisters()[a]| == 2
    ensures Decode(DefaultRegisters()[a][0], DefaultRegisters()[a][1]) == a
  {
    EncodeDecodeUnsigned(a);
  }

  /** `initializeBooleans`: puts `a % 2 == 0` at every address 0..65535 of
      `booleanMap`; entries at other addresses are kept. */
  method InitializeBooleans(booleanMap: map<int, bool>) returns (m: map<int, bool>)
    ensures m == booleanMap + DefaultBooleans()
    ensures forall a :: 0 <= a < AddressCount ==> a in m && m[a] == (a % 2 == 0)
  {
    m := booleanMap;
    var i := 0;
    while i < AddressCount
      invariant 0 <= i <= AddressCount
      invariant forall a :: a in m <==> a in booleanMap || 0 <= a < i
      invariant forall a :: a in m ==> m[a] == if 0 <= a < i then DefaultBooleans()[a] else booleanMap[a]
    {
      m := m[i := i % 2 == 0];
      i := i + 1;
    }
    Filled(booleanMap, DefaultBooleans(), m);
  }

  /** A table holding `fill`'s entry at each of `fill`'s addresses and
      `base`'s entry at every other address of `base` is `base + fill`. */
  lemma Filled<T>(base: map<int, T>, fill: map<int, T>, m: map<int, T>)
    requires forall a :: a in fill <==> 0 <= a < AddressCount
    requires forall a :: a in m <==> a in base || 0 <= a < AddressCount
    requires forall a :: a in m ==> m[a] == if 0 <= a < AddressCount then fill[a] else base[a]
    ensures m == base + fill
  {
    forall a ensures a in m <==> a in base + fill {
      assert a in fill <==> 0 <= a < AddressCount;
    }
    assert m.Keys == (base + fill).Keys;
    forall a | a in m ensures m[a] == (base + fill)[a] {
    }
  }

  /** The image `createProcessImage` builds. */
  function DefaultImage(): Image {
    Image(DefaultRegisters(), DefaultRegisters(), DefaultBooleans(), DefaultBooleans())
  }

  /** `createProcessImage`: a fresh image, each of its four tables filled by
      the matching initializer. */
  method CreateProcessImage() returns (image: Image)
    ensures image == DefaultImage()
  {
    var holding := InitializeRegisters(map[]);
    var input := InitializeRegisters(map[]);
    var coils := InitializeBooleans(map[]);
    var discrete := InitializeBooleans(map[]);
    image := Image(holding, input, coils, discrete);
  }

  /** An image a register request can be served from: every address
      0..65535 holds one two-byte register. */
  predicate Complete(image: Image) {
    (forall a :: 0 <= a < AddressCount ==> a in image.holdingRegisters)
    && TwoByteRegisters(image.holdingRegisters)
  }

  /** The default image is complete, and each of its holding registers
      reads back as its own address. */
  lemma DefaultImageComplete(a: int)
    requires 0 <= a < AddressCount
    ensures Complete(DefaultImage())
    ensures Decode(DefaultImage().holdingRegisters[a][0], DefaultImage().holdingRegisters[a][1]) == a
  {
    EncodeDecodeUnsigned(a);
  }

  /** The key of the process image a unit uses: its own id with separate
      units, otherwise the shared key. */
  function UnitKey(separateUnits: bool, unitId: int): int {
    if separateUnits then unitId else SharedKey
  }

  /** Two units use the same image exactly when units are shared or the
      ids are equal. */
  lemma SameImage(separateUnits: bool, u1: int, u2: int)
    ensures UnitKey(separateUnits, u1) == UnitKey(separateUnits, u2) <==> !separateUnits || u1 == u2
  {
  }

  /** The image stored under `key`, or the one `computeIfAbsent` would
      create for it. */
  function Lookup(images: map<int, Image>, key: int): Image {
    if key in images then images[key] else DefaultImage()
  }

  /** The image after a Write Single Register request stores `value` at
      `address`, high byte first. */
  function WithHoldingRegister(image: Image, address: int, value: int): Image {
    image.(holdingRegisters := image.holdingRegisters[address := RegisterOf(value)])
  }

  /** The services of `createServices`: the lazily filled map from key to
      process image. Request handling belongs to the Modbus library; it is
      modelled here only as far as it reads or writes the image
      `getProcessImage` returns, and writing to that shared object is
      modelled as replacing the map entry of its key. */
  class Services {
    const separateUnits: bool
    var processImages: map<int, Image>

    /** Every stored image can serve register requests. */
    predicate Valid()
      reads this
    {
      forall k :: k in processImages ==> Complete(processImages[k])
    }

    constructor(separateUnits: bool)
      ensures this.separateUnits == separateUnits && processImages == map[] && Valid()
    {
      this.separateUnits := separateUnits;
      processImages := map[];
    }

    /** `getProcessImage`: the image of the unit's key, created and stored
        the first time the key is asked for, the stored one afterwards. */
    method GetProcessImage(unitId: int) returns (image: Image)
      requires Valid()
      modifies this
      ensures Valid()
      ensures image == Lookup(old(processImages), UnitKey(separateUnits, unitId))
      ensures processImages == old(processImages)[UnitKey(separateUnits, unitId) := image]
      ensures Complete(image)
    {
      var key := UnitKey(separateUnits, unitId);
      if key !in processImages {
        var created := CreateProcessImage();
        DefaultImageComplete(0);
        processImages := processImages[key := created];
      }
      image := processImages[key];
    }

    /** A Write Single Register request for `unitId`. */
    method WriteSingleRegister(unitId: int, address: int, value: int)
      requires Valid() && 0 <= address < AddressCount
      modifies this
      ensures Valid()
      ensures processImages == old(processImages)[UnitKey(separateUnits, unitId) :=
        WithHoldingRegister(Lookup(old(processImages), UnitKey(separateUnits, unitId)), address, value)]
    {
      var image := GetProcessImage(unitId);
      var key := UnitKey(separateUnits, unitId);
      processImages := processImages[key := WithHoldingRegister(image, address, value)];
    }

    /** A Read Holding Registers request for one register of `unitId`,
        decoded as an unsigned 16-bit value. */
    method ReadHoldingRegister(unitId: int, address: int) returns (value: int)
      requires Valid() && 0 <= address < AddressCount
      modifies this
      ensures Valid()
      ensures processImages == old(processImages)[UnitKey(separateUnits, unitId) :=
        Lookup(old(processImages), UnitKey(separateUnits, unitId))]
      ensures var registers := Lookup(old(processImages), UnitKey(separateUnits, unitId)).holdingRegisters;
        value == Decode(registers[address][0], registers[address][1])
    {
      var image := GetProcessImage(unitId);
      var bytes := image.holdingRegisters[address];
      value := Decode(bytes[0], bytes[1]);
    }
  }

  /** A register written through unit `writer` reads back through it; a
      different unit `reader` sees the same value when units are shared,
      and the untouched default (the address itself) when they are
      separate. */
  method UnitsShareOrIsolate(separateUnits: bool, writer: int, reader: int, address: int, value: int)
    returns (seenByReader: int, seenByWriter: int)
    requires writer != reader && 0 <= address < AddressCount && 0 <= value < 65536
    ensures seenByWriter == value
    ensures seenByReader == if separateUnits then address else value
  {
    var services := new Services(separateUnits);
    services.WriteSingleRegister(writer, address, value);
    EncodeDecodeUnsigned(value);
    DefaultImageComplete(address);
    seenByReader := services.ReadHoldingRegister(reader, address);
    seenByWriter := services.ReadHoldingRegister(writer, address);
  }
}
