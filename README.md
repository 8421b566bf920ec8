# BitBox02 multisig script and address payload, modelled in Dafny

This project models the multisig part of the BitBox02 firmware's Bitcoin app,
`src/apps/btc/btc_common.c`. A multisig account holds a threshold M and the
serialized xpubs of its N cosigners. For an address at the two-step keypath
(change, address), the firmware does the following:

- `btc_common_pkscript_from_multisig` unserializes every cosigner xpub in
  stored order and derives its child key publicly along (change, address). Any
  failure aborts the call. It copies key `i` into a fixed working array at
  offset `i * 33`. It then asks libwally for the *sorted* M-of-N multisig
  script, in which the keys are in BIP67 (lexicographic byte) order. Before it
  reports a length, it checks the length the encoder returned against the
  caller's capacity.
- `btc_common_payload_from_multisig` builds that script into a
  `MAX_PK_SCRIPT_SIZE` scratch buffer and hashes it according to the script
  type:
  - P2WSH: SHA-256 of the script (32 bytes).
  - P2WSH nested in P2SH: HASH160 of the BIP141 version-0 witness program
    `00 20 <SHA-256 of the script>` (20 bytes).
  - Any other script type fails.

Files:

- `types.dfy` (module `Types`): bytes, `uint32`, fixed-length key and digest
  types, `Option`.
- `bip67.dfy` (module `Bip67`): the BIP67 byte order, a reference insertion
  sort, and the proof that the sorted order of a key collection is unique.
- `wally.dfy` (module `Wally`): the libwally calls.
  - The primitives (BIP32 unserialize and derive, SHA-256, HASH160) are
    fields of a `Libwally` value that is passed in. They are uninterpreted, so
    every property holds whatever they compute.
  - The multisig and witness-program encoders have reference definitions:
    the BIP11 script `OP_m <33-byte pushes> OP_n OP_CHECKMULTISIG` with BIP67
    order, and the BIP141 v0 program `00 <length> <program>`. Each layout has a
    decoder and a round-trip lemma.
- `btc_common.dfy` (module `BtcCommon`): the two C functions as methods over
  arrays. Each is proved against a specification function (`PkScript`,
  `MultisigPayload`). Lemmas then state the properties of those functions.

The C in/out parameters `*script_out_size` and `*output_payload_size` become
an in-parameter (the value before the call) and an out-parameter (the value
after it). The boolean results are the methods' `ok`.

## Model

| member | source | states |
|---|---|---|
| `BtcCommon.DeriveCosigner` | src/apps/btc/btc_common.c:37-49 | One cosigner's key: it exists exactly when the xpub unserializes and public derivation along the two-element path `[change, address]` succeeds, and it is the derived key's `pub_key`. |
| `BtcCommon.DeriveCosigners` | src/apps/btc/btc_common.c:36-47 | Derivation succeeds exactly when every cosigner xpub unserializes and derives. It then yields one key per cosigner, in stored order, each equal to that cosigner's derived key. |
| `BtcCommon.CosignerFailureFails` | src/apps/btc/btc_common.c:36-47 | If any single cosigner fails to unserialize or derive, no script is produced, whatever the capacity. |
| `BtcCommon.CollectCosignerKeys` | src/apps/btc/btc_common.c:34-50 | The key-collection loop. It reports success exactly when every cosigner derives. On success, the first `xpubs_count * 33` bytes of the working array are the derived keys back to back, with key `i` at offset `i * 33`. |
| `BtcCommon.PkScript` | src/apps/btc/btc_common.c:27-71 | A script exists exactly when all derivations succeed, 1 <= M <= N <= 15, and the script length `3 + 34 * N` fits the capacity. A returned script is never longer than the capacity. |
| `BtcCommon.PkscriptFromMultisig` | src/apps/btc/btc_common.c:27-71 | Returns true exactly when `PkScript` has a result. On success, the reported size is the script's length and the buffer starts with the script. On any failure (derivation, threshold or key count, capacity) the size is left as it was and the buffer is untouched. Nothing beyond the capacity is ever written. |
| `BtcCommon.PkScriptCapacity` | src/apps/btc/btc_common.c:53-68 | The capacity decides only whether the script is returned, never what it is. Any capacity smaller than the script's length, one byte short included, fails even though the encoder reported OK. |
| `BtcCommon.PkScriptDecodes` | src/apps/btc/btc_common.c:53-57 | The script decodes as an M-of-N multisig. Its threshold is the account's. Its keys are exactly the derived cosigner keys (same multiset), sorted in BIP67 order. |
| `BtcCommon.DeriveCosignersPermutation` | src/apps/btc/btc_common.c:36-50 | If the xpubs are reordered, derivation still succeeds, and the derived keys are the same multiset. |
| `BtcCommon.PkScriptPermutationInvariant` | src/apps/btc/btc_common.c:53-57 | Two accounts with the same threshold and the same xpubs, stored in any order, give byte-identical scripts (or both fail). |
| `BtcCommon.PayloadPermutationInvariant` | src/apps/btc/btc_common.c:83-119 | Such accounts also give identical payloads, for every script type. |
| `BtcCommon.ScriptFitsScratch` | src/apps/btc/btc_common.c:81-86 | With at most 15 cosigners, building the script into the `MAX_PK_SCRIPT_SIZE` scratch buffer fails only for a derivation error or a threshold outside 1..N. |
| `BtcCommon.MultisigPayload` | src/apps/btc/btc_common.c:93-120 | A payload is 32 bytes for P2WSH and 20 bytes for P2WSH-P2SH. It exists only if the script could be built and the script type is one of the two. |
| `BtcCommon.PayloadFromMultisig` | src/apps/btc/btc_common.c:73-121 | Returns true exactly when `MultisigPayload` has a result, and then writes that payload with size 32 or 20. On any failure the payload buffer is untouched, and a failed script build or an unknown script type also leaves the size as it was. Once the script is built, the size becomes 32 for P2WSH even if the hash then fails. For P2WSH-P2SH it becomes 20 exactly when the SHA-256 of the script succeeds, and otherwise stays as it was. Nothing past the payload length is written. |
| `Bip67.SortKeys` | src/apps/btc/btc_common.c:57 | The BIP67 order of the keys: sorted by unsigned byte comparison, and a permutation of the input. |
| `Bip67.InsertSorted` | src/apps/btc/btc_common.c:57 | Inserting a key into a sorted list keeps it sorted. |
| `Bip67.SortedUnique` | src/apps/btc/btc_common.c:57 | Two sorted lists that hold the same keys are equal. |
| `Bip67.SortIsUnique` | src/apps/btc/btc_common.c:57 | Any correct sort of the keys agrees with `SortKeys`. |
| `Bip67.SortKeysPermutationInvariant` | src/apps/btc/btc_common.c:57 | The sorted order does not depend on the order in which the keys were supplied. |
| `Bip67.LexLeTotal` | src/apps/btc/btc_common.c:57 | Any two keys are comparable in the byte order. |
| `Bip67.LexLeAntisymmetric` | src/apps/btc/btc_common.c:57 | Keys that compare both ways are equal, so the order has no ties between distinct keys. |
| `Bip67.LexLeTransitive` | src/apps/btc/btc_common.c:57 | The byte order is transitive. |
| `Wally.ScriptpubkeyMultisigFromBytes` | src/apps/btc/btc_common.c:53-65 | Accepts exactly a whole number of 33-byte keys (1 to 15) with 1 <= M <= N, and then reports the script length. If that length fits, it writes the sorted multisig script. If it does not fit, it writes nothing and still reports the length it needs. |
| `Wally.MultisigScript` | src/apps/btc/btc_common.c:53-57 | The script for a threshold and a key list is `3 + 34 * N` bytes long. |
| `Wally.MultisigScriptFrame` | src/apps/btc/btc_common.c:53-57 | The script starts with `OP_m` (0x50 + M) and ends with `OP_n` (0x50 + N) followed by `OP_CHECKMULTISIG` (0xae). |
| `Wally.MultisigScriptKeyAt` | src/apps/btc/btc_common.c:53-57 | Key `i` is pushed at offset `1 + 34 * i`: the push-length byte 33, then the 33 key bytes. |
| `Wally.WitnessProgramV0` | src/apps/btc/btc_common.c:103-113 | The version-0 witness program is `OP_0` (0x00), the program length, then the program: 34 bytes for the 32-byte script hash. |
| `Wally.WitnessProgramV0Decodes` | src/apps/btc/btc_common.c:103-113 | A witness program decodes back to its program. |
| `Wally.WitnessProgramV0DecodeSound` | src/apps/btc/btc_common.c:103-113 | Whatever decodes is the witness program of what it decodes to. |
| `Wally.KeysOfFlatten` | src/apps/btc/btc_common.c:48-56 | Splitting the working array's first `N * 33` bytes into 33-byte keys gives back the keys that were copied in. |
| `Wally.MultisigScriptDecodes` | src/apps/btc/btc_common.c:53-57 | The multisig script decodes back to its threshold and its keys, in order. |
| `Wally.MultisigScriptInjective` | src/apps/btc/btc_common.c:53-57 | Different thresholds or key lists never give the same script. |
| `Wally.WitnessProgramFromBytes` | src/apps/btc/btc_common.c:103-113 | Accepts a 20- or 32-byte hash and reports `length + 2`. If that fits, it writes `00 <length> <hash>`. |
| `Wally.Sha256` | src/apps/btc/btc_common.c:96 | Succeeds exactly when the output length is 32 and the primitive succeeds, and then writes the digest of the first `written` script bytes. On failure it writes nothing. |
| `Wally.Hash160` | src/apps/btc/btc_common.c:116 | Succeeds exactly when the output length is 20 and the primitive succeeds, and then writes the digest. On failure it writes nothing. |
| `Wally.CopyInto` | src/apps/btc/btc_common.c:48-49 | The `memcpy` into the working array: the target range holds the source, and every other byte is unchanged. |

## Left out

- BIP32 unserialization, public child derivation, SHA-256, RIPEMD-160 and
  HASH160 are libwally internals. They are uninterpreted fields of `Libwally`.
  - A `None` result stands for a return other than `WALLY_OK`.
  - Their outputs have the fixed lengths 33, 32 and 20 by type.
  - The rule that hardened indices make public derivation fail lives inside
    `bip32KeyFromParentPath` and is not modelled.
- The internals of `wally_scriptpubkey_multisig_from_bytes` and
  `wally_witness_program_from_bytes` are not part of this model. Reference
  definitions stand in for them.
  - The multisig encoder accepts a whole number of 33-byte keys, 1 to 15 of
    them, with 1 <= M <= N.
  - When the buffer is too short, both encoders report the needed length.
    For the multisig encoder, the comment at src/apps/btc/btc_common.c:64-65
    says so. That they then also write nothing into the buffer is an
    assumption about libwally that the source does not state.
  - The model calls the multisig encoder only with the sorted flag, as the
    source does, and calls the witness-program encoder only with no hashing
    flag.
- `BtcCommon.MultisigPayload` has no case for a failing witness-program call
  (src/apps/btc/btc_common.c:111-113). With a 32-byte hash and a 34-byte
  buffer, the reference encoder always succeeds. `PayloadFromMultisig` still
  tests the return code, as the source does.
- The header `btc_common.h` is not part of this model. It defines:
  - `MULTISIG_P2WSH_MAX_SIGNERS`, taken as 15.
  - `MAX_PK_SCRIPT_SIZE`, taken as 700. By `ScriptFitsScratch`, any value of
    at least 513 (the length of a 15-key script) behaves the same.
  - The numeric values of the script-type enum. The model uses the datatype
    `P2wsh | P2wshP2sh | Unrecognized` instead.
- The witness-script size limits in the TODO at
  src/apps/btc/btc_common.c:88-91 are not enforced by the code, and the model
  does not assume them.
- `PkscriptFromMultisig`: the key-collection loop (lines 36-50) is the
  separate method `CollectCosignerKeys`. Its behaviour is the same, including
  the early return on the first failure. It is split out only to keep the
  proof small.
- `CollectCosignerKeys`, `PkscriptFromMultisig` and `PayloadFromMultisig`
  require at most `MULTISIG_P2WSH_MAX_SIGNERS` cosigners. The C code never
  checks this bound: past 15 cosigners the `memcpy` at
  src/apps/btc/btc_common.c:48-49 would overrun the working array. The model
  makes the bound the caller's obligation, as the multisig account's own
  invariant does.
- The methods require distinct input and output buffers. The source never
  passes overlapping buffers, so aliasing is not modelled.
- `PayloadFromMultisig` requires the output buffer to hold at least the
  payload length of the requested type. The C code writes that many bytes
  without a check.
- The C functions report only a boolean, so the model does too. The error
  kinds a reimplementation might distinguish (malformed key, derivation
  failure, buffer too small, unsupported type, encoding failure) are not
  modelled.
- After a failed P2WSH hash, the code has already set `*output_payload_size`
  to 32 (src/apps/btc/btc_common.c:95-96). The model follows the code here,
  even though a design that never changes outputs on failure is also
  conceivable.
- `src/rust/bitbox02-rust/src/shiftcrypto.bitbox02.backups.rs` is generated
  protobuf message code. Its encoding is done by a library that is not part
  of this model, so the file is not modelled.
