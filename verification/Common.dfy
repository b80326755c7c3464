/** Types shared by the provider and the consumer side. */
module Common {
  datatype Option<+T> = None | Some(value: T) {
    function GetOr(default: T): T {
      if Some? then value else default
    }
  }

  /** Consensus and account addresses are opaque; NO_ADDRESS stands for the empty byte string. */
  type Address = nat

  const NO_ADDRESS: Address := 0

  /** A validator's consensus address is never empty. */
  type ValidatorAddress = a: Address | a != NO_ADDRESS witness 1

  /** Where m sends a, which is itself unless m says otherwise. */
  function Redirected(m: map<Address, Address>, a: Address): Address {
    if a in m then m[a] else a
  }

  type ConsumerId = nat

  /** Block times and durations, in nanoseconds. */
  type Time = int

  /** A LegacyDec x is the integer x * ONE. */
  const ONE: int := 1_000_000_000_000_000_000

  function Min(a: int, b: int): int {
    if a < b then a else b
  }

  function Max(a: int, b: int): int {
    if a < b then b else a
  }
}
