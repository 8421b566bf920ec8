/**
 * Multisig scripts and address payloads for a BitBox02 multisig account.
 *
 * A multisig account is a threshold M and the serialized xpubs of its N
 * cosigners. For a receive or change address, every cosigner key is derived
 * publicly along (change, address), the derived keys go into a sorted M-of-N
 * multisig script, and the address payload is a hash of that script: SHA-256
 * for P2WSH, or HASH160 of the P2WSH output script for P2WSH nested in P2SH.
 */
module BtcCommon {
  import opened Types
  import opened Wally
  import Bip67

  /** Size of the key working array: at most this many cosigners. */
  const MULTISIG_P2WSH_MAX_SIGNERS: nat := 15
  /** Size of the script scratch buffer of the payload computation. */
  const MAX_PK_SCRIPT_SIZE: nat := 700

  /** `multisig_t`: the threshold and the cosigner xpubs in stored order. */
  datatype Multisig = Multisig(threshold: uint32, xpubs: seq<SerializedXpub>)

  /** `multisig_script_type_t`; `Unrecognized` is any other value of the tag. */
  datatype ScriptType = P2wsh | P2wshP2sh | Unrecognized

  /** Length of the payload each script type produces. */
  function PayloadLen(scriptType: ScriptType): nat
  {
    match scriptType
    case P2wsh => SHA256_LEN
    case P2wshP2sh => HASH160_LEN
    case Unrecognized => 0
  }

  // ---------------------------------------------------------------------------
  // Specification

  /** The key of one cosigner at (change, address): unserialize, then derive publicly. */
  function DeriveCosigner(lib: Libwally, xpub: SerializedXpub, change: uint32, address: uint32)
    : (r: Option<PubKey>)
    ensures r.Some? <==>
              lib.bip32KeyUnserialize(xpub).Some? &&
              lib.bip32KeyFromParentPath(lib.bip32KeyUnserialize(xpub).value, [change, address]).Some?
    ensures r.Some? ==>
              r.value == lib.bip32KeyFromParentPath(lib.bip32KeyUnserialize(xpub).value, [change, address]).value.pubKey
  {
    match lib.bip32KeyUnserialize(xpub)
    case None => None
    case Some(key) =>
      match lib.bip32KeyFromParentPath(key, [change, address])
      case None => None
      case Some(derived) => Some(derived.pubKey)
  }

  /** The keys of all cosigners, in stored order; no result if any one fails. */
  function DeriveCosigners(lib: Libwally, xpubs: seq<SerializedXpub>, change: uint32, address: uint32)
    : (r: Option<seq<PubKey>>)
    ensures r.Some? <==> forall i | 0 <= i < |xpubs| :: DeriveCosigner(lib, xpubs[i], change, address).Some?
    ensures r.Some? ==> |r.value| == |xpubs|
    ensures r.Some? ==>
              forall i | 0 <= i < |xpubs| :: DeriveCosigner(lib, xpubs[i], change, address) == Some(r.value[i])
  {
    if xpubs == [] then Some([])
    else
      var init := xpubs[..|xpubs| - 1];
      match DeriveCosigners(lib, init, change, address)
      case None => None
      case Some(keys) =>
        match DeriveCosigner(lib, xpubs[|xpubs| - 1], change, address)
        case None => None
        case Some(key) => Some(keys + [key])
  }

  /**
   * The script `btc_common_pkscript_from_multisig` produces into a buffer of
   * `capacity` bytes: the sorted multisig script of the derived keys, or no
   * result.
   */
  function PkScript(lib: Libwally, multisig: Multisig, change: uint32, address: uint32, capacity: nat)
    : (r: Option<Bytes>)
    ensures r.Some? <==>
              DeriveCosigners(lib, multisig.xpubs, change, address).Some? &&
              MultisigEncodable(|multisig.xpubs|, multisig.threshold) &&
              MultisigScriptLen(|multisig.xpubs|) <= capacity
    ensures r.Some? ==> |r.value| <= capacity
  {
    match DeriveCosigners(lib, multisig.xpubs, change, address)
    case None => None
    case Some(keys) =>
      if !MultisigEncodable(|keys|, multisig.threshold) then None
      else
        var script := MultisigScript(multisig.threshold, Bip67.SortKeys(keys));
        if |script| > capacity then None else Some(script)
  }

  /** The address payload `btc_common_payload_from_multisig` produces, or no result. */
  function MultisigPayload(lib: Libwally, multisig: Multisig, scriptType: ScriptType,
                           change: uint32, address: uint32): (r: Option<Bytes>)
    ensures r.Some? ==> |r.value| == PayloadLen(scriptType) && !scriptType.Unrecognized?
    ensures r.Some? ==> PkScript(lib, multisig, change, address, MAX_PK_SCRIPT_SIZE).Some?
  {
    match PkScript(lib, multisig, change, address, MAX_PK_SCRIPT_SIZE)
    case None => None
    case Some(script) =>
      match scriptType
      case P2wsh =>
        (match lib.sha256(script)
         case None => None
         case Some(h) => Some(h))
      case P2wshP2sh =>
        (match lib.sha256(script)
         case None => None
         case Some(h) =>
           match lib.hash160(WitnessProgramV0(h))
           case None => None
           case Some(payload) => Some(payload))
      case Unrecognized => None
  }

  /** If any cosigner key cannot be unserialized or derived, there is no script. */
  lemma CosignerFailureFails(lib: Libwally, multisig: Multisig, i: nat, change: uint32, address: uint32,
                             capacity: nat)
    requires i < |multisig.xpubs|
    requires DeriveCosigner(lib, multisig.xpubs[i], change, address).None?
    ensures DeriveCosigners(lib, multisig.xpubs, change, address).None?
    ensures PkScript(lib, multisig, change, address, capacity).None?
  {
  }

  /** One round of the key-collection loop: the bytes collected so far are the flattened keys. */
  lemma CollectStep(keys: seq<PubKey>, key: PubKey, index: nat, before: Bytes, after: Bytes)
    requires |keys| == index
    requires (index + 1) * EC_PUBLIC_KEY_LEN <= |before| == |after|
    requires before[..index * EC_PUBLIC_KEY_LEN] == Flatten(keys)
    requires after[..index * EC_PUBLIC_KEY_LEN] == before[..index * EC_PUBLIC_KEY_LEN]
    requires after[index * EC_PUBLIC_KEY_LEN..index * EC_PUBLIC_KEY_LEN + EC_PUBLIC_KEY_LEN] == key
    ensures after[..(index + 1) * EC_PUBLIC_KEY_LEN] == Flatten(keys + [key])
  {
    FlattenSnoc(keys, key);
    KeyOffset(index, index + 1);
    assert after[..(index + 1) * EC_PUBLIC_KEY_LEN] ==
             after[..index * EC_PUBLIC_KEY_LEN] +
             after[index * EC_PUBLIC_KEY_LEN..index * EC_PUBLIC_KEY_LEN + EC_PUBLIC_KEY_LEN];
  }

  // ---------------------------------------------------------------------------
  // The two entry points

  /**
   * The key-collection loop of `btc_common_pkscript_from_multisig`: derives
   * every cosigner key in stored order and copies key `i` to
   * `pubkeys[i * 33 .. i * 33 + 33]`, stopping at the first failure.
   */
  method CollectCosignerKeys(lib: Libwally, xpubs: seq<SerializedXpub>, keypathChange: uint32,
                             keypathAddress: uint32, pubkeys: array<byte>)
    returns (ok: bool)
    requires |xpubs| <= MULTISIG_P2WSH_MAX_SIGNERS
    requires pubkeys.Length == MULTISIG_P2WSH_MAX_SIGNERS * EC_PUBLIC_KEY_LEN
    modifies pubkeys
    ensures ok <==> DeriveCosigners(lib, xpubs, keypathChange, keypathAddress).Some?
    ensures ok ==>
              pubkeys[..|xpubs| * EC_PUBLIC_KEY_LEN] ==
                Flatten(DeriveCosigners(lib, xpubs, keypathChange, keypathAddress).value)
  {
    ghost var keys: seq<PubKey> := [];
    for index := 0 to |xpubs|
      invariant |keys| == index
      invariant forall j | 0 <= j < index :: DeriveCosigner(lib, xpubs[j], keypathChange, keypathAddress) == Some(keys[j])
      invariant pubkeys[..index * EC_PUBLIC_KEY_LEN] == Flatten(keys)
    {
      var xpub := lib.bip32KeyUnserialize(xpubs[index]);
      if xpub.None? {
        assert DeriveCosigner(lib, xpubs[index], keypathChange, keypathAddress).None?;
        return false;
      }
      var derivedCosignerXpub := lib.bip32KeyFromParentPath(xpub.value, [keypathChange, keypathAddress]);
      if derivedCosignerXpub.None? {
        assert DeriveCosigner(lib, xpubs[index], keypathChange, keypathAddress).None?;
        return false;
      }
      var key := derivedCosignerXpub.value.pubKey;
      ghost var pubkeysBefore := pubkeys[..];
      KeyOffset(index, MULTISIG_P2WSH_MAX_SIGNERS);
      CopyInto(pubkeys, index * EC_PUBLIC_KEY_LEN, key);
      CollectStep(keys, key, index, pubkeysBefore, pubkeys[..]);
      keys := keys + [key];
    }
    assert DeriveCosigners(lib, xpubs, keypathChange, keypathAddress).Some?;
    assert DeriveCosigners(lib, xpubs, keypathChange, keypathAddress).value == keys;
    return true;
  }

  /**
   * `btc_common_pkscript_from_multisig`: `scriptOutSize` is the capacity passed
   * in through `*script_out_size`, `newScriptOutSize` its value afterwards.
   */
  method PkscriptFromMultisig(lib: Libwally, multisig: Multisig, keypathChange: uint32,
                              keypathAddress: uint32, scriptOut: array<byte>, scriptOutSize: nat)
    returns (ok: bool, newScriptOutSize: nat)
    requires |multisig.xpubs| <= MULTISIG_P2WSH_MAX_SIGNERS
    requires scriptOutSize <= scriptOut.Length
    modifies scriptOut
    ensures ok <==> PkScript(lib, multisig, keypathChange, keypathAddress, scriptOutSize).Some?
    ensures ok ==>
              var script := PkScript(lib, multisig, keypathChange, keypathAddress, scriptOutSize).value;
              newScriptOutSize == |script| && scriptOut[..newScriptOutSize] == script
    ensures !ok ==> newScriptOutSize == scriptOutSize
    ensures !ok ==> scriptOut[..] == old(scriptOut[..])
    ensures scriptOut[scriptOutSize..] == old(scriptOut[scriptOutSize..])
  {
    var pubkeys := new byte[MULTISIG_P2WSH_MAX_SIGNERS * EC_PUBLIC_KEY_LEN](_ => 0);
    var xpubs := multisig.xpubs;
    var derived := CollectCosignerKeys(lib, xpubs, keypathChange, keypathAddress, pubkeys);
    if !derived {
      return false, scriptOutSize;
    }
    ghost var keys := DeriveCosigners(lib, xpubs, keypathChange, keypathAddress).value;
    KeysOfFlatten(keys);
    var pubkeysLen := |xpubs| * EC_PUBLIC_KEY_LEN;
    KeyBytesLen(|xpubs|);
    assert KeysOf(pubkeys[..pubkeysLen]) == keys;

    var ret, written := ScriptpubkeyMultisigFromBytes(
      pubkeys, pubkeysLen, multisig.threshold, scriptOut, scriptOutSize);
    if ret != WallyOk {
      return false, scriptOutSize;
    }
    if written > scriptOutSize {
      // The encoder reports the length it needs when the buffer is too short.
      return false, scriptOutSize;
    }
    assert PkScript(lib, multisig, keypathChange, keypathAddress, scriptOutSize) ==
           Some(MultisigScript(multisig.threshold, Bip67.SortKeys(keys)));
    return true, written;
  }

  /**
   * `btc_common_payload_from_multisig`: `outputPayloadSize` is the value of
   * `*output_payload_size` before the call, `newOutputPayloadSize` after it.
   */
  method PayloadFromMultisig(lib: Libwally, multisig: Multisig, scriptType: ScriptType,
                             keypathChange: uint32, keypathAddress: uint32,
                             outputPayload: array<byte>, outputPayloadSize: nat)
    returns (ok: bool, newOutputPayloadSize: nat)
    requires |multisig.xpubs| <= MULTISIG_P2WSH_MAX_SIGNERS
    requires PayloadLen(scriptType) <= outputPayload.Length
    modifies outputPayload
    ensures ok <==> MultisigPayload(lib, multisig, scriptType, keypathChange, keypathAddress).Some?
    ensures ok ==>
              newOutputPayloadSize == PayloadLen(scriptType) &&
              outputPayload[..newOutputPayloadSize] ==
                MultisigPayload(lib, multisig, scriptType, keypathChange, keypathAddress).value
    ensures (PkScript(lib, multisig, keypathChange, keypathAddress, MAX_PK_SCRIPT_SIZE).None? ||
             scriptType.Unrecognized?) ==>
              newOutputPayloadSize == outputPayloadSize && outputPayload[..] == old(outputPayload[..])
    ensures (PkScript(lib, multisig, keypathChange, keypathAddress, MAX_PK_SCRIPT_SIZE).Some? &&
             scriptType.P2wsh?) ==> newOutputPayloadSize == SHA256_LEN
    ensures (PkScript(lib, multisig, keypathChange, keypathAddress, MAX_PK_SCRIPT_SIZE).Some? &&
             scriptType.P2wshP2sh?) ==>
              var script := PkScript(lib, multisig, keypathChange, keypathAddress, MAX_PK_SCRIPT_SIZE).value;
              newOutputPayloadSize == if lib.sha256(script).Some? then HASH160_LEN else outputPayloadSize
    ensures !ok ==> outputPayload[..] == old(outputPayload[..])
    ensures outputPayload[PayloadLen(scriptType)..] == old(outputPayload[PayloadLen(scriptType)..])
  {
    var script := new byte[MAX_PK_SCRIPT_SIZE](_ => 0);
    var built, written := PkscriptFromMultisig(
      lib, multisig, keypathChange, keypathAddress, script, script.Length);
    if !built {
      return false, outputPayloadSize;
    }
    assert script[..written] == PkScript(lib, multisig, keypathChange, keypathAddress, MAX_PK_SCRIPT_SIZE).value;

    match scriptType {
      case P2wsh =>
        newOutputPayloadSize := SHA256_LEN;
        var ret := Sha256(lib, script, written, outputPayload, SHA256_LEN);
        ok := ret == WallyOk;
      case P2wshP2sh =>
        // The hash of the witness script, as used in a P2WSH output.
        var scriptSha256 := new byte[SHA256_LEN](_ => 0);
        var ret := Sha256(lib, script, written, scriptSha256, scriptSha256.Length);
        if ret != WallyOk {
          return false, outputPayloadSize;
        }
        var p2wshPkscript := new byte[WALLY_SCRIPTPUBKEY_P2WSH_LEN](_ => 0);
        ret, written := WitnessProgramFromBytes(
          scriptSha256, scriptSha256.Length, p2wshPkscript, p2wshPkscript.Length);
        if ret != WallyOk {
          return false, outputPayloadSize;
        }
        assert scriptSha256[..] == scriptSha256[..SHA256_LEN];
        // The P2SH payload is the HASH160 of the P2WSH output script.
        newOutputPayloadSize := HASH160_LEN;
        ret := Hash160(lib, p2wshPkscript, written, outputPayload, HASH160_LEN);
        ok := ret == WallyOk;
      case Unrecognized =>
        return false, outputPayloadSize;
    }
  }

  // ---------------------------------------------------------------------------
  // Properties of the specification

  /** Deriving the cosigners of a reordered account succeeds exactly when it does for the original. */
  lemma DeriveCosignersSomeOfPermutation(lib: Libwally, xs: seq<SerializedXpub>, ys: seq<SerializedXpub>,
                                         change: uint32, address: uint32)
    requires multiset(xs) == multiset(ys)
    requires DeriveCosigners(lib, xs, change, address).Some?
    ensures DeriveCosigners(lib, ys, change, address).Some?
  {
    forall j | 0 <= j < |ys| ensures DeriveCosigner(lib, ys[j], change, address).Some? {
      assert ys[j] in multiset(xs);
      var i :| 0 <= i < |xs| && xs[i] == ys[j];
    }
  }

  /** `f` applied to every element of `xs`. */
  function MapSeq<A, B>(f: A -> B, xs: seq<A>): (r: seq<B>)
    ensures |r| == |xs| && forall i | 0 <= i < |xs| :: r[i] == f(xs[i])
  {
    seq(|xs|, i requires 0 <= i < |xs| => f(xs[i]))
  }

  lemma MapSeqConcat<A, B>(f: A -> B, xs: seq<A>, ys: seq<A>)
    ensures MapSeq(f, xs + ys) == MapSeq(f, xs) + MapSeq(f, ys)
  {
  }

  /** Mapping a reordered sequence gives a reordering of the mapped sequence. */
  lemma {:induction false} MapSeqPermutation<A, B>(f: A -> B, xs: seq<A>, ys: seq<A>)
    requires multiset(xs) == multiset(ys)
    ensures multiset(MapSeq(f, xs)) == multiset(MapSeq(f, ys))
    decreases |xs|
  {
    if xs == [] {
      assert |ys| == |multiset(ys)| == 0;
    } else {
      var x := xs[0];
      assert x in multiset(ys);
      var j :| 0 <= j < |ys| && ys[j] == x;
      var ys' := ys[..j] + ys[j + 1..];
      assert xs == [x] + xs[1..];
      assert ys == ys[..j] + [x] + ys[j + 1..];
      assert multiset(xs[1..]) == multiset(xs) - multiset{x};
      assert multiset(ys') == multiset(ys) - multiset{x};
      MapSeqPermutation(f, xs[1..], ys');
      MapSeqConcat(f, [x], xs[1..]);
      MapSeqConcat(f, ys[..j] + [x], ys[j + 1..]);
      MapSeqConcat(f, ys[..j], [x]);
      MapSeqConcat(f, ys[..j], ys[j + 1..]);
    }
  }

  /** The derived keys, when all derivations succeed, as a map over the xpubs. */
  lemma DeriveCosignersIsMap(lib: Libwally, xs: seq<SerializedXpub>, change: uint32, address: uint32)
    requires DeriveCosigners(lib, xs, change, address).Some?
    ensures DeriveCosigners(lib, xs, change, address).value == MapSeq(CosignerKeyOrZero(lib, change, address), xs)
  {
  }

  /** The key of a cosigner, with a placeholder where derivation fails. */
  function CosignerKeyOrZero(lib: Libwally, change: uint32, address: uint32): SerializedXpub -> PubKey
  {
    xpub =>
      match DeriveCosigner(lib, xpub, change, address)
      case Some(key) => key
      case None => seq(EC_PUBLIC_KEY_LEN, _ => 0)
  }

  /** Reordering the cosigners reorders their derived keys and nothing else. */
  lemma DeriveCosignersPermutation(lib: Libwally, xs: seq<SerializedXpub>,
                                   ys: seq<SerializedXpub>, change: uint32, address: uint32)
    requires multiset(xs) == multiset(ys)
    requires DeriveCosigners(lib, xs, change, address).Some?
    ensures DeriveCosigners(lib, ys, change, address).Some?
    ensures multiset(DeriveCosigners(lib, xs, change, address).value) ==
            multiset(DeriveCosigners(lib, ys, change, address).value)
  {
    DeriveCosignersSomeOfPermutation(lib, xs, ys, change, address);
    DeriveCosignersIsMap(lib, xs, change, address);
    DeriveCosignersIsMap(lib, ys, change, address);
    MapSeqPermutation(CosignerKeyOrZero(lib, change, address), xs, ys);
  }

  /**
   * BIP67 interoperability: two accounts with the same threshold and the same
   * cosigner xpubs, stored in any order, give byte-identical scripts.
   */
  lemma PkScriptPermutationInvariant(lib: Libwally, m1: Multisig, m2: Multisig,
                                     change: uint32, address: uint32, capacity: nat)
    requires m1.threshold == m2.threshold
    requires multiset(m1.xpubs) == multiset(m2.xpubs)
    ensures PkScript(lib, m1, change, address, capacity) == PkScript(lib, m2, change, address, capacity)
  {
    assert |m1.xpubs| == |multiset(m1.xpubs)| == |m2.xpubs|;
    if DeriveCosigners(lib, m2.xpubs, change, address).Some? {
      DeriveCosignersSomeOfPermutation(lib, m2.xpubs, m1.xpubs, change, address);
    }
    if DeriveCosigners(lib, m1.xpubs, change, address).Some? {
      DeriveCosignersPermutation(lib, m1.xpubs, m2.xpubs, change, address);
      Bip67.SortKeysPermutationInvariant(
        DeriveCosigners(lib, m1.xpubs, change, address).value,
        DeriveCosigners(lib, m2.xpubs, change, address).value);
    }
  }

  /** The same for the address payloads, for every script type. */
  lemma PayloadPermutationInvariant(lib: Libwally, m1: Multisig, m2: Multisig, scriptType: ScriptType,
                                    change: uint32, address: uint32)
    requires m1.threshold == m2.threshold
    requires multiset(m1.xpubs) == multiset(m2.xpubs)
    ensures MultisigPayload(lib, m1, scriptType, change, address) ==
            MultisigPayload(lib, m2, scriptType, change, address)
  {
    PkScriptPermutationInvariant(lib, m1, m2, change, address, MAX_PK_SCRIPT_SIZE);
  }

  /**
   * The script is the threshold-of-N multisig over exactly the derived
   * cosigner keys, listed in BIP67 order.
   */
  lemma PkScriptDecodes(lib: Libwally, multisig: Multisig, change: uint32, address: uint32, capacity: nat)
    requires PkScript(lib, multisig, change, address, capacity).Some?
    ensures DecodeMultisigScript(PkScript(lib, multisig, change, address, capacity).value).Some?
    ensures var (m, keys) := DecodeMultisigScript(PkScript(lib, multisig, change, address, capacity).value).value;
            m == multisig.threshold && Bip67.Sorted(keys) &&
            multiset(keys) == multiset(DeriveCosigners(lib, multisig.xpubs, change, address).value)
  {
    var keys := DeriveCosigners(lib, multisig.xpubs, change, address).value;
    MultisigScriptDecodes(multisig.threshold, Bip67.SortKeys(keys));
  }

  /**
   * The capacity only decides whether the script is returned, never what it
   * is; one byte less than its length is refused.
   */
  lemma PkScriptCapacity(lib: Libwally, multisig: Multisig, change: uint32, address: uint32,
                         capacity: nat, otherCapacity: nat)
    requires PkScript(lib, multisig, change, address, capacity).Some?
    ensures var script := PkScript(lib, multisig, change, address, capacity).value;
            PkScript(lib, multisig, change, address, otherCapacity) ==
              if otherCapacity < |script| then None else Some(script)
  {
  }

  /**
   * Every script of at most MULTISIG_P2WSH_MAX_SIGNERS keys fits the scratch
   * buffer of the payload computation: building it there fails only for a
   * derivation error or a threshold outside 1..N.
   */
  lemma ScriptFitsScratch(lib: Libwally, multisig: Multisig, change: uint32, address: uint32)
    requires |multisig.xpubs| <= MULTISIG_P2WSH_MAX_SIGNERS
    ensures PkScript(lib, multisig, change, address, MAX_PK_SCRIPT_SIZE).Some? <==>
              DeriveCosigners(lib, multisig.xpubs, change, address).Some? &&
              1 <= multisig.threshold <= |multisig.xpubs|
  {
  }
}
