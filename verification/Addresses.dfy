/** Accounts on L1 and L2. */
module Addresses {
  type Address = nat
}
