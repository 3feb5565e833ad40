/** What the contracts see of the chain: amounts, addresses, blocks and expiry. */
module Chain {

  const U128_MAX: nat := 0xFFFF_FFFF_FFFF_FFFF_FFFF_FFFF_FFFF_FFFF

  type Uint128 = n: nat | n <= U128_MAX

  /** 2 to the power of 128, less one, written out for what is said about amounts. */
  ghost const LARGEST: Uint128 := 340282366920938463463374607431768211455

  type Addr = string

  /** The chain's `addr_validate`: it returns its input unchanged or fails. */
  type AddrCheck = string -> bool

  datatype Block = Block(height: nat, time: nat) {
    predicate NotBefore(earlier: Block) {
      earlier.height <= height && earlier.time <= time
    }
  }

  datatype Expiration = AtHeight(height: nat) | AtTime(time: nat) | Never {
    predicate IsExpired(block: Block) {
      match this
      case AtHeight(h) => block.height >= h
      case AtTime(t) => block.time >= t
      case Never => false
    }
  }

  /** What is dated AtHeight(h) is good in the blocks below h, AtTime(t) at the times before t. */
  ghost predicate Live(e: Expiration, block: Block) {
    (e.AtHeight? ==> block.height < e.height) && (e.AtTime? ==> block.time < e.time)
  }

  lemma {:induction false} ExpiryIsMonotone(e: Expiration, earlier: Block, later: Block)
    requires later.NotBefore(earlier)
    ensures e.IsExpired(earlier) ==> e.IsExpired(later)
  {
  }
}
