/** Account addresses: a public key is 32 raw bytes. */
module Keys {
  import opened Numeric

  const KEY_LEN: nat := 32

  /** `n` zero bytes. */
  function Zeros(n: nat): (r: seq<Byte>)
    ensures |r| == n
    ensures forall i :: 0 <= i < n ==> r[i] == 0
  {
    if n == 0 then [] else [0] + Zeros(n - 1)
  }

  type Pubkey = k: seq<Byte> | |k| == KEY_LEN witness Zeros(KEY_LEN)

  /** The all-zero key, which is also the system program's address. */
  const ZeroKey: Pubkey := Zeros(KEY_LEN)
}
