/** Fixed-width integers, byte strings and the constants shared by the model. */
module Types {

  /** An unsigned 8-bit value (`uint8_t`). */
  type byte = x: int | 0 <= x < 0x100

  /** An unsigned 32-bit value (`uint32_t`), as used for BIP32 path components and the threshold. */
  type uint32 = x: int | 0 <= x < 0x1_0000_0000

  type Bytes = seq<byte>

  /** Length of a compressed secp256k1 public key. */
  const EC_PUBLIC_KEY_LEN: nat := 33
  /** Length of a SHA-256 digest. */
  const SHA256_LEN: nat := 32
  /** Length of a HASH160 (RIPEMD-160 of SHA-256) digest. */
  const HASH160_LEN: nat := 20
  /** Length of a serialized BIP32 extended key. */
  const BIP32_SERIALIZED_LEN: nat := 78

  type PubKey = s: Bytes | |s| == EC_PUBLIC_KEY_LEN witness seq(33, _ => 0)
  type Sha256Digest = s: Bytes | |s| == SHA256_LEN witness seq(32, _ => 0)
  type Hash160Digest = s: Bytes | |s| == HASH160_LEN witness seq(20, _ => 0)
  type SerializedXpub = s: Bytes | |s| == BIP32_SERIALIZED_LEN witness seq(78, _ => 0)

  datatype Option<T> = None | Some(value: T)
}
