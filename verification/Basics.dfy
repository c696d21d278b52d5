/** The vocabulary shared by every part of the model. */
module Basics {
  datatype Option<+T> = None | Some(value: T)

  datatype Result<+T, +E> = Ok(value: T) | Err(error: E)

  /** An address together with a chain: each such pair numbers its own transactions. */
  datatype Account = Account(chain: nat, address: string)

  /** One transaction number (nonce) of one account. */
  datatype Slot = Slot(account: Account, number: nat)

  type Id = string
}
