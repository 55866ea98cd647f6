/** The controller commands the driver issues. Their opcode values live in a
    part of the repository that is not modelled, so the driver is given them
    as an uninterpreted table. */
module Instructions {
  import opened Bus

  datatype Instruction =
    | SWRESET | SLPOUT
    | FRMCTR1 | FRMCTR2 | FRMCTR3
    | INVCTR
    | PWCTR1 | PWCTR2 | PWCTR3 | PWCTR4 | PWCTR5
    | VMCTR1
    | INVOFF | INVON
    | MADCTL | COLMOD
    | CASET | RASET | RAMWR
    | DISPON

  /** `command as u8`: the byte each instruction is sent as. */
  type OpcodeTable = Instruction -> byte
}
