/**
 * An account handed to an instruction: its address and its deserialized
 * data, which the handler updates in place. The runtime writes the data
 * back only when the whole instruction succeeds.
 */
module Accounts {
  import opened Keys

  class Account<T> {
    const key: Pubkey
    var data: T

    constructor (key: Pubkey, data: T)
      ensures this.key == key && this.data == data
    {
      this.key := key;
      this.data := data;
    }
  }
}
