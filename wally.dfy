/**
 * The libwally collaborators the multisig code calls.
 *
 * BIP32 key handling and the hash functions are not modelled: they are the
 * fields of a `Libwally` value passed in, so every property proved below holds
 * whatever they compute. The two script encoders are given reference
 * definitions: the sorted M-of-N script of BIP11 with BIP67 key order, and the
 * version-0 witness program of BIP141.
 */
module Wally {
  import opened Types
  import Bip67

  /** Return code of a libwally call (`WALLY_OK` or an error such as `WALLY_EINVAL`). */
  datatype Status = WallyOk | WallyError

  /** The parts of `struct ext_key` that the multisig code reads. */
  datatype ExtKey = ExtKey(chainCode: Bytes, pubKey: PubKey)

  /**
   * The uninterpreted libwally primitives. A `None` result stands for a call
   * that does not return `WALLY_OK`.
   *  - bip32KeyUnserialize: `bip32_key_unserialize` of a serialized key;
   *  - bip32KeyFromParentPath: `bip32_key_from_parent_path` with
   *    `BIP32_FLAG_KEY_PUBLIC` (public derivation along the given path);
   *  - sha256 / hash160: `wally_sha256` / `wally_hash160` of a byte string.
   */
  datatype Libwally = Libwally(
    bip32KeyUnserialize: SerializedXpub -> Option<ExtKey>,
    bip32KeyFromParentPath: (ExtKey, seq<uint32>) -> Option<ExtKey>,
    sha256: Bytes -> Option<Sha256Digest>,
    hash160: Bytes -> Option<Hash160Digest>)

  const OP_0: byte := 0x00
  const OP_CHECKMULTISIG: byte := 0xae
  /** Largest key count the multisig encoder accepts. */
  const MAX_MULTISIG_KEYS: nat := 15
  /** Length of a P2WSH output script: OP_0, a 32-byte push. */
  const WALLY_SCRIPTPUBKEY_P2WSH_LEN: nat := 34

  /** The small-integer opcode OP_n (OP_1 is 0x51 ... OP_16 is 0x60). */
  function OpN(n: nat): byte
    requires 1 <= n <= 16
  {
    0x50 + n
  }

  // ---------------------------------------------------------------------------
  // Concatenated keys, as the caller lays them out for the encoder

  /** Keys laid out back to back, key `i` at offset `i * 33`. */
  function Flatten(keys: seq<PubKey>): (r: Bytes)
    ensures |r| == EC_PUBLIC_KEY_LEN * |keys|
  {
    if keys == [] then [] else Flatten(keys[..|keys| - 1]) + keys[|keys| - 1]
  }

  /** Splits a byte string into consecutive 33-byte keys. */
  function KeysOf(b: Bytes): (r: seq<PubKey>)
    requires |b| % EC_PUBLIC_KEY_LEN == 0
    ensures |r| * EC_PUBLIC_KEY_LEN == |b|
  {
    if b == [] then [] else KeysOf(b[..|b| - EC_PUBLIC_KEY_LEN]) + [b[|b| - EC_PUBLIC_KEY_LEN..]]
  }

  /** `n` keys laid out back to back take a whole number of key lengths. */
  lemma KeyBytesLen(n: nat)
    ensures (n * EC_PUBLIC_KEY_LEN) % EC_PUBLIC_KEY_LEN == 0
    ensures (n * EC_PUBLIC_KEY_LEN) / EC_PUBLIC_KEY_LEN == n
  {
  }

  /** Key `i` of `n` starts at `i * 33` and ends within the first `n * 33` bytes. */
  lemma KeyOffset(i: nat, n: nat)
    requires i < n
    ensures (i + 1) * EC_PUBLIC_KEY_LEN == i * EC_PUBLIC_KEY_LEN + EC_PUBLIC_KEY_LEN
    ensures i * EC_PUBLIC_KEY_LEN + EC_PUBLIC_KEY_LEN <= n * EC_PUBLIC_KEY_LEN
  {
  }

  /** Appending a key appends its bytes. */
  lemma FlattenSnoc(keys: seq<PubKey>, key: PubKey)
    ensures Flatten(keys + [key]) == Flatten(keys) + key
  {
    assert (keys + [key])[..|keys|] == keys;
  }

  lemma {:induction false} KeysOfFlatten(keys: seq<PubKey>)
    ensures KeysOf(Flatten(keys)) == keys
    decreases |keys|
  {
    if keys != [] {
      var init := keys[..|keys| - 1];
      var f := Flatten(keys);
      assert f[..|f| - EC_PUBLIC_KEY_LEN] == Flatten(init);
      assert f[|f| - EC_PUBLIC_KEY_LEN..] == keys[|keys| - 1];
      KeysOfFlatten(init);
    }
  }

  // ---------------------------------------------------------------------------
  // The multisig script: OP_m <push key_1> ... <push key_n> OP_n OP_CHECKMULTISIG

  /** Each key as a 33-byte push: the length byte followed by the key. */
  function KeyPushes(keys: seq<PubKey>): (r: Bytes)
    ensures |r| == (EC_PUBLIC_KEY_LEN + 1) * |keys|
  {
    if keys == [] then [] else [EC_PUBLIC_KEY_LEN as byte] + keys[0] + KeyPushes(keys[1..])
  }

  /** Length of an M-of-N multisig script with `n` compressed keys. */
  function MultisigScriptLen(n: nat): nat
  {
    3 + (EC_PUBLIC_KEY_LEN + 1) * n
  }

  /** What the encoder accepts: at least one key, at most 15, and 1 <= M <= N. */
  predicate MultisigEncodable(n: nat, m: nat)
  {
    1 <= m <= n <= MAX_MULTISIG_KEYS
  }

  /**
   * The M-of-N script: OP_m, one push per key in the given
   * order, OP_n, OP_CHECKMULTISIG.
   */
  function MultisigScript(m: nat, keys: seq<PubKey>): (s: Bytes)
    requires 1 <= m <= |keys| <= 16
    ensures |s| == MultisigScriptLen(|keys|)
  {
    [OpN(m)] + KeyPushes(keys) + [OpN(|keys|), OP_CHECKMULTISIG]
  }

  /** The script opens with OP_m and closes with OP_n OP_CHECKMULTISIG. */
  lemma MultisigScriptFrame(m: nat, keys: seq<PubKey>)
    requires 1 <= m <= |keys| <= 16
    ensures var s := MultisigScript(m, keys);
            s[0] == OpN(m) && s[|s| - 2] == OpN(|keys|) && s[|s| - 1] == OP_CHECKMULTISIG
  {
  }

  /** Reads back `n` key pushes that make up the whole of `s`. */
  function DecodeKeyPushes(s: Bytes, n: nat): Option<seq<PubKey>>
    decreases n
  {
    if n == 0 then (if s == [] then Some([]) else None)
    else if |s| < EC_PUBLIC_KEY_LEN + 1 || s[0] != EC_PUBLIC_KEY_LEN then None
    else match DecodeKeyPushes(s[EC_PUBLIC_KEY_LEN + 1..], n - 1)
      case None => None
      case Some(rest) =>
        var key: PubKey := s[1..EC_PUBLIC_KEY_LEN + 1];
        Some([key] + rest)
  }

  /** Reads back the threshold and the keys of a multisig script. */
  function DecodeMultisigScript(s: Bytes): Option<(nat, seq<PubKey>)>
  {
    if |s| < 3 || s[|s| - 1] != OP_CHECKMULTISIG then None
    else
      var m: int := s[0] as int - 0x50;
      var n: int := s[|s| - 2] as int - 0x50;
      if !(1 <= m <= n <= 16) then None
      else match DecodeKeyPushes(s[1..|s| - 2], n)
        case None => None
        case Some(keys) => Some((m, keys))
  }

  lemma {:induction false} KeyPushesDecode(keys: seq<PubKey>)
    ensures DecodeKeyPushes(KeyPushes(keys), |keys|) == Some(keys)
    decreases |keys|
  {
    if keys != [] {
      var s := KeyPushes(keys);
      assert s[EC_PUBLIC_KEY_LEN + 1..] == KeyPushes(keys[1..]);
      assert s[1..EC_PUBLIC_KEY_LEN + 1] == keys[0];
      KeyPushesDecode(keys[1..]);
      assert keys == [keys[0]] + keys[1..];
    }
  }

  /** The multisig script carries its threshold and its keys, in order. */
  lemma MultisigScriptDecodes(m: nat, keys: seq<PubKey>)
    requires 1 <= m <= |keys| <= 16
    ensures DecodeMultisigScript(MultisigScript(m, keys)) == Some((m, keys))
  {
    var s := MultisigScript(m, keys);
    assert s[1..|s| - 2] == KeyPushes(keys);
    KeyPushesDecode(keys);
  }

  /** Push `i` is the length byte 33 followed by key `i`. */
  lemma {:induction false} KeyPushesAt(keys: seq<PubKey>, i: nat)
    requires i < |keys|
    ensures var at := (EC_PUBLIC_KEY_LEN + 1) * i;
            KeyPushes(keys)[at] == EC_PUBLIC_KEY_LEN &&
            KeyPushes(keys)[at + 1..at + 1 + EC_PUBLIC_KEY_LEN] == keys[i]
    decreases i
  {
    var s := KeyPushes(keys);
    if i > 0 {
      KeyPushesAt(keys[1..], i - 1);
      var at := (EC_PUBLIC_KEY_LEN + 1) * i;
      assert s[EC_PUBLIC_KEY_LEN + 1..] == KeyPushes(keys[1..]);
      assert s[at + 1..at + 1 + EC_PUBLIC_KEY_LEN] ==
             KeyPushes(keys[1..])[at - EC_PUBLIC_KEY_LEN..at - EC_PUBLIC_KEY_LEN + EC_PUBLIC_KEY_LEN];
    } else {
      assert s[1..1 + EC_PUBLIC_KEY_LEN] == keys[0];
    }
  }

  /** In the multisig script, key `i` is pushed at offset `1 + 34 * i`. */
  lemma MultisigScriptKeyAt(m: nat, keys: seq<PubKey>, i: nat)
    requires 1 <= m <= |keys| <= 16
    requires i < |keys|
    ensures var s := MultisigScript(m, keys);
            var at := 1 + (EC_PUBLIC_KEY_LEN + 1) * i;
            s[at] == EC_PUBLIC_KEY_LEN && s[at + 1..at + 1 + EC_PUBLIC_KEY_LEN] == keys[i]
  {
    var s := MultisigScript(m, keys);
    var at := (EC_PUBLIC_KEY_LEN + 1) * i;
    KeyPushesAt(keys, i);
    assert s[1..1 + |KeyPushes(keys)|] == KeyPushes(keys);
    assert s[1 + at + 1..1 + at + 1 + EC_PUBLIC_KEY_LEN] ==
           KeyPushes(keys)[at + 1..at + 1 + EC_PUBLIC_KEY_LEN];
  }

  /** Different thresholds or key lists never give the same script. */
  lemma MultisigScriptInjective(m1: nat, keys1: seq<PubKey>, m2: nat, keys2: seq<PubKey>)
    requires 1 <= m1 <= |keys1| <= 16 && 1 <= m2 <= |keys2| <= 16
    requires MultisigScript(m1, keys1) == MultisigScript(m2, keys2)
    ensures m1 == m2 && keys1 == keys2
  {
    MultisigScriptDecodes(m1, keys1);
    MultisigScriptDecodes(m2, keys2);
  }

  /** The BIP141 version-0 witness program: OP_0 followed by a push of the program bytes. */
  function WitnessProgramV0(program: Bytes): (s: Bytes)
    requires |program| == HASH160_LEN || |program| == SHA256_LEN
    ensures |s| == |program| + 2
    ensures s[0] == OP_0 && s[1] == |program| && s[2..] == program
  {
    [OP_0, |program| as byte] + program
  }

  /** Reads back the program of a version-0 witness program, or no result. */
  function DecodeWitnessProgramV0(s: Bytes): Option<Bytes>
  {
    if |s| < 2 || s[0] != OP_0 || s[1] as int != |s| - 2 then None
    else if |s| - 2 != HASH160_LEN && |s| - 2 != SHA256_LEN then None
    else Some(s[2..])
  }

  /** The witness program carries its program back. */
  lemma WitnessProgramV0Decodes(program: Bytes)
    requires |program| == HASH160_LEN || |program| == SHA256_LEN
    ensures DecodeWitnessProgramV0(WitnessProgramV0(program)) == Some(program)
  {
  }

  /** Only a well-formed witness program decodes, and it is the encoding of what it decodes to. */
  lemma WitnessProgramV0DecodeSound(s: Bytes)
    requires DecodeWitnessProgramV0(s).Some?
    ensures WitnessProgramV0(DecodeWitnessProgramV0(s).value) == s
  {
    assert s == [s[0], s[1]] + s[2..];
  }

  // ---------------------------------------------------------------------------
  // The calls, over caller buffers

  /** `memcpy(&dst[at], src, |src|)`. */
  method CopyInto(dst: array<byte>, at: nat, src: Bytes)
    requires at + |src| <= dst.Length
    modifies dst
    ensures dst[at..at + |src|] == src
    ensures dst[..at] == old(dst[..at]) && dst[at + |src|..] == old(dst[at + |src|..])
  {
    for i := 0 to |src|
      invariant forall j | 0 <= j < i :: dst[at + j] == src[j]
      invariant forall j | 0 <= j < dst.Length && !(at <= j < at + i) :: dst[j] == old(dst[j])
    {
      dst[at + i] := src[i];
    }
  }

  /**
   * `wally_scriptpubkey_multisig_from_bytes` with `WALLY_SCRIPT_MULTISIG_SORTED`:
   * the first `bytesLen` bytes of `bytes` are the keys; the script lists them in
   * BIP67 order. When the script does not fit in `len` bytes the call still
   * succeeds, writes nothing and reports the length it needs in `written`.
   */
  method ScriptpubkeyMultisigFromBytes(bytes: array<byte>, bytesLen: nat, threshold: uint32,
                                       bytesOut: array<byte>, len: nat)
    returns (ret: Status, written: nat)
    requires bytesLen <= bytes.Length && len <= bytesOut.Length
    requires bytes != bytesOut
    modifies bytesOut
    ensures ret == WallyOk <==>
              bytesLen % EC_PUBLIC_KEY_LEN == 0 &&
              MultisigEncodable(bytesLen / EC_PUBLIC_KEY_LEN, threshold)
    ensures ret == WallyOk ==> written == MultisigScriptLen(bytesLen / EC_PUBLIC_KEY_LEN)
    ensures ret == WallyOk && written <= len ==>
              bytesOut[..written] == MultisigScript(threshold, Bip67.SortKeys(KeysOf(bytes[..bytesLen])))
    ensures !(ret == WallyOk && written <= len) ==> bytesOut[..] == old(bytesOut[..])
    ensures bytesOut[len..] == old(bytesOut[len..])
  {
    if bytesLen % EC_PUBLIC_KEY_LEN != 0 ||
       !MultisigEncodable(bytesLen / EC_PUBLIC_KEY_LEN, threshold) {
      return WallyError, 0;
    }
    var n := bytesLen / EC_PUBLIC_KEY_LEN;
    written := MultisigScriptLen(n);
    ret := WallyOk;
    if len < written {
      return;
    }
    var keys := KeysOf(bytes[..bytesLen]);
    assert |keys| == n;
    var script := MultisigScript(threshold, Bip67.SortKeys(keys));
    ghost var before := bytesOut[..];
    CopyInto(bytesOut, 0, script);
    assert bytesOut[..written] == script;
    assert bytes[..bytesLen] == old(bytes[..bytesLen]);
    assert bytesOut[len..] == bytesOut[written..][len - written..];
    assert old(bytesOut[len..]) == before[written..][len - written..];
  }

  /**
   * `wally_witness_program_from_bytes` with no hashing flag: builds the
   * version-0 program around a 20- or 32-byte hash. When it does not fit in
   * `len` bytes the call writes nothing and reports the length it needs.
   */
  method WitnessProgramFromBytes(bytes: array<byte>, bytesLen: nat, bytesOut: array<byte>, len: nat)
    returns (ret: Status, written: nat)
    requires bytesLen <= bytes.Length && len <= bytesOut.Length
    requires bytes != bytesOut
    modifies bytesOut
    ensures ret == WallyOk <==> bytesLen == HASH160_LEN || bytesLen == SHA256_LEN
    ensures ret == WallyOk ==> written == bytesLen + 2
    ensures ret == WallyOk && written <= len ==>
              bytesOut[..written] == WitnessProgramV0(bytes[..bytesLen])
    ensures !(ret == WallyOk && written <= len) ==> bytesOut[..] == old(bytesOut[..])
    ensures bytesOut[len..] == old(bytesOut[len..])
  {
    if bytesLen != HASH160_LEN && bytesLen != SHA256_LEN {
      return WallyError, 0;
    }
    ret, written := WallyOk, bytesLen + 2;
    if len < written {
      return;
    }
    CopyInto(bytesOut, 0, WitnessProgramV0(bytes[..bytesLen]));
    assert bytesOut[len..] == bytesOut[written..][len - written..];
  }

  /** `wally_sha256`: the output length must be exactly 32. */
  method Sha256(lib: Libwally, bytes: array<byte>, bytesLen: nat, bytesOut: array<byte>, len: nat)
    returns (ret: Status)
    requires bytesLen <= bytes.Length && len <= bytesOut.Length
    requires bytes != bytesOut
    modifies bytesOut
    ensures ret == WallyOk <==> len == SHA256_LEN && lib.sha256(bytes[..bytesLen]).Some?
    ensures ret == WallyOk ==> bytesOut[..SHA256_LEN] == lib.sha256(bytes[..bytesLen]).value
    ensures ret != WallyOk ==> bytesOut[..] == old(bytesOut[..])
    ensures bytesOut[len..] == old(bytesOut[len..])
  {
    var digest := lib.sha256(bytes[..bytesLen]);
    if len != SHA256_LEN || digest.None? {
      return WallyError;
    }
    CopyInto(bytesOut, 0, digest.value);
    ret := WallyOk;
  }

  /** `wally_hash160`: the output length must be exactly 20. */
  method Hash160(lib: Libwally, bytes: array<byte>, bytesLen: nat, bytesOut: array<byte>, len: nat)
    returns (ret: Status)
    requires bytesLen <= bytes.Length && len <= bytesOut.Length
    requires bytes != bytesOut
    modifies bytesOut
    ensures ret == WallyOk <==> len == HASH160_LEN && lib.hash160(bytes[..bytesLen]).Some?
    ensures ret == WallyOk ==> bytesOut[..HASH160_LEN] == lib.hash160(bytes[..bytesLen]).value
    ensures ret != WallyOk ==> bytesOut[..] == old(bytesOut[..])
    ensures bytesOut[len..] == old(bytesOut[len..])
  {
    var digest := lib.hash160(bytes[..bytesLen]);
    if len != HASH160_LEN || digest.None? {
      return WallyError;
    }
    CopyInto(bytesOut, 0, digest.value);
    ret := WallyOk;
  }
}
