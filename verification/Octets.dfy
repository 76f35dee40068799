/** uint8_t */
module Octets {
  type Octet = x: int | 0 <= x < 256
}
