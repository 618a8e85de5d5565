/**
 * The four tables of a Modbus server's process image: holding and input
 * registers as two-byte arrays, coils and discrete inputs as booleans,
 * each keyed by address. The table type itself belongs to the Modbus
 * library; the server and the test image only fill and read it.
 */
module ProcessImage {

  datatype Image = Image(
    holdingRegisters: map<int, seq<bv8>>,
    inputRegisters: map<int, seq<bv8>>,
    coils: map<int, bool>,
    discreteInputs: map<int, bool>)

  /** Every register entry holds exactly the two bytes of one register. */
  predicate TwoByteRegisters(registers: map<int, seq<bv8>>) {
    forall a :: a in registers ==> |registers[a]| == 2
  }
}
