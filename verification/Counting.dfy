/**
 Counting what holds.
 */
module Counting {
  function Bit(b: bool): nat {
    if b then 1 else 0
  }
}
