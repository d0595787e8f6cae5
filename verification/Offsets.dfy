/** Addresses in the board's register space (`src/defines.h:71-103`). */
module Offsets {
  const BC_FIFO_L_OFFSET: nat := 0x04
  const FIFO_BC_OFFSET: nat := 0x0C
  const FIFO_FC_OFFSET: nat := 0x10
  const CMDR_OFFSET: nat := 0x14
  const STAR_OFFSET: nat := 0x18
  const VSTR_OFFSET: nat := 0x4C
  const ISR_OFFSET: nat := 0x50
  const MAX_OFFSET: nat := 0x58
  const FCR_OFFSET: nat := 0x20
}
