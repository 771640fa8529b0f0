/**
 * Per-run configuration of the interpreter (src/settings.rs). Only the
 * bit-shift quirk affects the part of the machine modelled here.
 */
module Settings {

  datatype BitShiftMode =
    | TwoRegister  // the documented behaviour: shift the source register into the target
    | OneRegister  // the quirk many programs rely on: shift the target, ignore the source

  datatype OnUnrecognizedInstruction = Halt | Skip

  datatype Settings = Settings(bitShiftMode: BitShiftMode, onUnrecognizedInstruction: OnUnrecognizedInstruction)

  /** `Settings::default()`. */
  const DEFAULT: Settings := Settings(OneRegister, Halt)
}
