/** Machine bytes. */
module Bytes {
  newtype byte = x: int | 0 <= x < 256
}
