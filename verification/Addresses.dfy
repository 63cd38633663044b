/** Bytes, and account addresses of twenty bytes. */
module Addresses {

  type Octet = n: nat | n < 256

  const LENGTH := 20

  type Address = a: seq<Octet> | |a| == LENGTH witness seq(20, i => 0)
}
