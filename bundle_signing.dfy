/** `completeBundleSigning` of `src/utils/moonbuy.ts`: each encoded transaction of a
    bundle is decoded, signed by exactly those caller-supplied wallets whose public key
    occurs among the transaction's static account keys, and encoded again. Wallets are
    referred to by their position in the caller's list, which is the object identity that
    `signers.includes` compares. */
module BundleSigning {
  import opened Js

  /** The foreign transaction library, kept opaque: `Tx` is a decoded transaction and `K`
      a keypair. A failing operation stands for the exception the library throws. */
  datatype Codec<!Tx, !K> = Codec(
    decode: string -> Result<Tx>,        // VersionedTransaction.deserialize(bs58.decode(s))
    accountKeys: Tx -> seq<string>,      // message.staticAccountKeys, each .toBase58()
    publicKey: K -> string,              // keypair.publicKey.toBase58()
    sign: (Tx, seq<K>) -> Result<Tx>,    // transaction.sign(signers)
    encode: Tx -> string)                // bs58.encode(transaction.serialize())

  /** A bundle as the backend sent it; `None` when `transactions` is missing or not an array. */
  datatype RawBundle = RawBundle(transactions: Option<seq<string>>)

  datatype Bundle = Bundle(transactions: seq<string>)

  /** `walletKeypairs.find(kp => kp.publicKey.toBase58() === key)`: the first wallet whose key it is. */
  function FindWallet(walletKeys: seq<string>, key: string): (r: Option<nat>)
    ensures r.Some? ==> r.value < |walletKeys| && walletKeys[r.value] == key
    ensures r.Some? ==> forall j :: 0 <= j < r.value ==> walletKeys[j] != key
    ensures r.None? <==> key !in walletKeys
    decreases |walletKeys|
  {
    if walletKeys == [] then None
    else if walletKeys[0] == key then Some(0)
    else match FindWallet(walletKeys[1..], key)
      case None => None
      case Some(j) => Some(j + 1)
  }

  /** One step of the signer loop: add the matching wallet unless it is already a signer. */
  function AddSigner(signers: seq<nat>, found: Option<nat>): (r: seq<nat>)
  {
    if found.Some? && found.value !in signers then signers + [found.value] else signers
  }

  /** The signers of a transaction with the given account keys, as the loop over
      `staticAccountKeys` collects them. */
  function Signers(walletKeys: seq<string>, accountKeys: seq<string>): (signers: seq<nat>)
    decreases |accountKeys|
  {
    if accountKeys == [] then []
    else
      var n := |accountKeys| - 1;
      AddSigner(Signers(walletKeys, accountKeys[..n]), FindWallet(walletKeys, accountKeys[n]))
  }

  /** The loop of `completeBundleSigning` that collects a transaction's signers. */
  method SelectSigners(walletKeys: seq<string>, accountKeys: seq<string>) returns (signers: seq<nat>)
    ensures signers == Signers(walletKeys, accountKeys)
    ensures forall p :: 0 <= p < |signers| ==> signers[p] < |walletKeys| && walletKeys[signers[p]] in accountKeys
    ensures forall p, q :: 0 <= p < q < |signers| ==> signers[p] != signers[q]
  {
    signers := [];
    for i := 0 to |accountKeys|
      invariant signers == Signers(walletKeys, accountKeys[..i])
    {
      assert accountKeys[..i + 1][..i] == accountKeys[..i];
      var matching := FindWallet(walletKeys, accountKeys[i]);
      if matching.Some? && matching.value !in signers {
        signers := signers + [matching.value];
      }
    }
    assert accountKeys[..|accountKeys|] == accountKeys;
    SignersSound(walletKeys, accountKeys);
  }

  /** Position of the first occurrence of `x` in `s`. */
  function FirstIndex(s: seq<string>, x: string): (i: nat)
    requires x in s
    ensures i < |s| && s[i] == x && forall j :: 0 <= j < i ==> s[j] != x
  {
    if s[0] == x then 0 else 1 + FirstIndex(s[1..], x)
  }

  lemma FirstIndexOfPrefix(s: seq<string>, n: nat, x: string)
    requires n <= |s| && x in s[..n]
    ensures x in s && FirstIndex(s, x) == FirstIndex(s[..n], x)
  {
    var i := FirstIndex(s[..n], x);
    assert s[i] == x;
    forall j | 0 <= j < i ensures s[j] != x {
      assert s[..n][j] == s[j];
    }
  }

  /** Each signer is a supplied wallet whose key occurs among the account keys, and the
      first wallet holding that key. */
  ghost predicate SoundSigners(walletKeys: seq<string>, accountKeys: seq<string>, r: seq<nat>)
  {
    forall p :: 0 <= p < |r| ==>
      r[p] < |walletKeys| && walletKeys[r[p]] in accountKeys && FindWallet(walletKeys, walletKeys[r[p]]) == Some(r[p])
  }

  ghost predicate NoDuplicates(r: seq<nat>)
  {
    forall p, q :: 0 <= p < q < |r| ==> r[p] != r[q]
  }

  /** Every account key held by some wallet brings the first such wallet in. */
  ghost predicate CompleteSigners(walletKeys: seq<string>, accountKeys: seq<string>, r: seq<nat>)
  {
    forall k :: k in accountKeys && k in walletKeys ==> FindWallet(walletKeys, k).value in r
  }

  /** Signers come in the order in which their keys first occur among the account keys. */
  ghost predicate OrderedSigners(walletKeys: seq<string>, accountKeys: seq<string>, r: seq<nat>)
    requires SoundSigners(walletKeys, accountKeys, r)
  {
    forall p, q :: 0 <= p < q < |r| ==>
      FirstIndex(accountKeys, walletKeys[r[p]]) < FirstIndex(accountKeys, walletKeys[r[q]])
  }

  lemma {:induction false} SignersSound(walletKeys: seq<string>, accountKeys: seq<string>)
    ensures SoundSigners(walletKeys, accountKeys, Signers(walletKeys, accountKeys))
    ensures NoDuplicates(Signers(walletKeys, accountKeys))
    decreases |accountKeys|
  {
    if accountKeys != [] {
      var n := |accountKeys| - 1;
      SignersSound(walletKeys, accountKeys[..n]);
      assert forall x :: x in accountKeys[..n] ==> x in accountKeys;
    }
  }

  lemma {:induction false} SignersComplete(walletKeys: seq<string>, accountKeys: seq<string>)
    ensures CompleteSigners(walletKeys, accountKeys, Signers(walletKeys, accountKeys))
    decreases |accountKeys|
  {
    if accountKeys != [] {
      var n := |accountKeys| - 1;
      SignersComplete(walletKeys, accountKeys[..n]);
      var r0 := Signers(walletKeys, accountKeys[..n]);
      var r := Signers(walletKeys, accountKeys);
      assert forall x :: x in r0 ==> x in r;
      assert accountKeys == accountKeys[..n] + [accountKeys[n]];
    }
  }

  lemma {:induction false} SignersOrdered(walletKeys: seq<string>, accountKeys: seq<string>)
    ensures SoundSigners(walletKeys, accountKeys, Signers(walletKeys, accountKeys))
    ensures OrderedSigners(walletKeys, accountKeys, Signers(walletKeys, accountKeys))
    decreases |accountKeys|
  {
    SignersSound(walletKeys, accountKeys);
    if accountKeys != [] {
      var n := |accountKeys| - 1;
      var pre := accountKeys[..n];
      var key := accountKeys[n];
      SignersOrdered(walletKeys, pre);
      SignersComplete(walletKeys, pre);
      var r0 := Signers(walletKeys, pre);
      var r := Signers(walletKeys, accountKeys);
      forall p | 0 <= p < |r0|
        ensures FirstIndex(accountKeys, walletKeys[r0[p]]) == FirstIndex(pre, walletKeys[r0[p]]) < n
      {
        FirstIndexOfPrefix(accountKeys, n, walletKeys[r0[p]]);
      }
      var found := FindWallet(walletKeys, key);
      if found.Some? && found.value !in r0 {
        assert r == r0 + [found.value];
        // the key did not occur before, or its first wallet would already be a signer
        assert key !in pre;
        assert FirstIndex(accountKeys, key) == n;
      } else {
        assert r == r0;
      }
    }
  }

  /** What the selected signers are: each is a supplied wallet whose key occurs among the
      account keys and the first wallet holding that key; none is repeated; every wallet
      that is first to hold some account key is included; and they are ordered by where
      their keys first occur among the account keys. */
  lemma SignersCharacterized(walletKeys: seq<string>, accountKeys: seq<string>)
    ensures SoundSigners(walletKeys, accountKeys, Signers(walletKeys, accountKeys))
    ensures NoDuplicates(Signers(walletKeys, accountKeys))
    ensures CompleteSigners(walletKeys, accountKeys, Signers(walletKeys, accountKeys))
    ensures OrderedSigners(walletKeys, accountKeys, Signers(walletKeys, accountKeys))
  {
    SignersSound(walletKeys, accountKeys);
    SignersComplete(walletKeys, accountKeys);
    SignersOrdered(walletKeys, accountKeys);
  }

  /** If two wallets share a key, only the first of them can be a signer. */
  lemma FirstOfSharedKey(walletKeys: seq<string>, accountKeys: seq<string>, i: nat, j: nat)
    requires i < j < |walletKeys| && walletKeys[i] == walletKeys[j]
    ensures j !in Signers(walletKeys, accountKeys)
  {
    SignersSound(walletKeys, accountKeys);
    assert FindWallet(walletKeys, walletKeys[j]) != Some(j);
  }

  /** The public keys of the wallets, in order. */
  function WalletKeys<Tx, K>(codec: Codec<Tx, K>, keypairs: seq<K>): (ks: seq<string>)
    ensures |ks| == |keypairs| && forall i :: 0 <= i < |ks| ==> ks[i] == codec.publicKey(keypairs[i])
  {
    seq(|keypairs|, i requires 0 <= i < |keypairs| => codec.publicKey(keypairs[i]))
  }

  /** The keypairs at the given positions. */
  function Pick<K>(keypairs: seq<K>, positions: seq<nat>): (ks: seq<K>)
    requires forall p :: 0 <= p < |positions| ==> positions[p] < |keypairs|
    ensures |ks| == |positions| && forall p :: 0 <= p < |ks| ==> ks[p] == keypairs[positions[p]]
  {
    seq(|positions|, p requires 0 <= p < |positions| => keypairs[positions[p]])
  }

  /** Decode, sign with the selected signers, encode: one element of the `map`. */
  function SignTransaction<Tx, K>(codec: Codec<Tx, K>, keypairs: seq<K>, encoded: string): (r: Result<string>)
  {
    match codec.decode(encoded)
    case Err(e) => Err(e)
    case Ok(tx) =>
      var walletKeys := WalletKeys(codec, keypairs);
      var signers := Signers(walletKeys, codec.accountKeys(tx));
      SignersSound(walletKeys, codec.accountKeys(tx));
      match codec.sign(tx, Pick(keypairs, signers))
      case Err(e) => Err(e)
      case Ok(signed) => Ok(codec.encode(signed))
  }

  /** `transactions.map(...)`: left to right, the first exception abandons the rest. */
  function SignAll<Tx, K>(codec: Codec<Tx, K>, keypairs: seq<K>, txs: seq<string>): (r: Result<seq<string>>)
    decreases |txs|
  {
    if txs == [] then Ok([])
    else match SignTransaction(codec, keypairs, txs[0])
      case Err(e) => Err(e)
      case Ok(t) =>
        match SignAll(codec, keypairs, txs[1..])
        case Err(e) => Err(e)
        case Ok(ts) => Ok([t] + ts)
  }

  /** Transaction `i` is the first whose signing fails, with error `e`. */
  ghost predicate FirstFailure<Tx, K>(codec: Codec<Tx, K>, keypairs: seq<K>, txs: seq<string>, i: int, e: string)
  {
    && 0 <= i < |txs|
    && SignTransaction(codec, keypairs, txs[i]) == Err(e)
    && forall j :: 0 <= j < i ==> SignTransaction(codec, keypairs, txs[j]).Ok?
  }

  /** Signing keeps the number and the order of the transactions, and fails exactly when
      one transaction fails, with the error of the first that does. */
  lemma {:induction false} SignAllPreservesOrder<Tx, K>(codec: Codec<Tx, K>, keypairs: seq<K>, txs: seq<string>)
    ensures SignAll(codec, keypairs, txs).Ok? <==>
      forall i :: 0 <= i < |txs| ==> SignTransaction(codec, keypairs, txs[i]).Ok?
    ensures SignAll(codec, keypairs, txs).Ok? ==> |SignAll(codec, keypairs, txs).value| == |txs|
    ensures SignAll(codec, keypairs, txs).Ok? ==> forall i :: 0 <= i < |txs| ==>
      SignTransaction(codec, keypairs, txs[i]) == Ok(SignAll(codec, keypairs, txs).value[i])
    ensures SignAll(codec, keypairs, txs).Err? ==> exists i :: FirstFailure(codec, keypairs, txs, i, SignAll(codec, keypairs, txs).message)
    decreases |txs|
  {
    if txs != [] {
      SignAllPreservesOrder(codec, keypairs, txs[1..]);
      var r := SignAll(codec, keypairs, txs);
      var rest := SignAll(codec, keypairs, txs[1..]);
      assert forall i :: 1 <= i < |txs| ==> txs[i] == txs[1..][i - 1];
      if SignTransaction(codec, keypairs, txs[0]).Ok? && rest.Err? {
        var i :| FirstFailure(codec, keypairs, txs[1..], i, rest.message);
        assert FirstFailure(codec, keypairs, txs, i + 1, r.message);
      } else if SignTransaction(codec, keypairs, txs[0]).Err? {
        assert FirstFailure(codec, keypairs, txs, 0, r.message);
      }
    }
  }

  /** `completeBundleSigning(bundle, walletKeypairs)`: a bundle without a transaction
      array yields an empty bundle instead of an error. */
  function CompleteBundleSigning<Tx, K>(codec: Codec<Tx, K>, keypairs: seq<K>, bundle: RawBundle): (r: Result<Bundle>)
    ensures bundle.transactions.None? ==> r == Ok(Bundle([]))
    ensures bundle.transactions.Some? && r.Ok? ==> |r.value.transactions| == |bundle.transactions.value|
    ensures bundle.transactions.Some? && r.Ok? ==> forall i :: 0 <= i < |r.value.transactions| ==>
      SignTransaction(codec, keypairs, bundle.transactions.value[i]) == Ok(r.value.transactions[i])
    ensures bundle.transactions.Some? ==>
      (r.Ok? <==> forall i :: 0 <= i < |bundle.transactions.value| ==>
                    SignTransaction(codec, keypairs, bundle.transactions.value[i]).Ok?)
    ensures bundle.transactions.Some? && r.Err? ==>
      exists i :: FirstFailure(codec, keypairs, bundle.transactions.value, i, r.message)
  {
    match bundle.transactions
    case None => Ok(Bundle([]))
    case Some(txs) =>
      SignAllPreservesOrder(codec, keypairs, txs);
      match SignAll(codec, keypairs, txs)
      case Err(e) => Err(e)
      case Ok(signed) => Ok(Bundle(signed))
  }

  /** Bundle `i` is the first whose signing fails, with error `e`. */
  ghost predicate FirstBadBundle<Tx, K>(codec: Codec<Tx, K>, keypairs: seq<K>, bundles: seq<RawBundle>, i: int, e: string)
  {
    && 0 <= i < |bundles|
    && CompleteBundleSigning(codec, keypairs, bundles[i]) == Err(e)
    && forall j :: 0 <= j < i ==> CompleteBundleSigning(codec, keypairs, bundles[j]).Ok?
  }

  /** `partiallyPreparedBundles.map(bundle => completeBundleSigning(bundle, walletKeypairs))`:
      left to right, the first exception abandons the rest. */
  function SignBundles<Tx, K>(codec: Codec<Tx, K>, keypairs: seq<K>, bundles: seq<RawBundle>): (r: Result<seq<Bundle>>)
    ensures r.Ok? <==> forall i :: 0 <= i < |bundles| ==> CompleteBundleSigning(codec, keypairs, bundles[i]).Ok?
    ensures r.Ok? ==> |r.value| == |bundles|
    ensures r.Ok? ==> forall i :: 0 <= i < |bundles| ==> CompleteBundleSigning(codec, keypairs, bundles[i]) == Ok(r.value[i])
    ensures r.Err? ==> exists i :: FirstBadBundle(codec, keypairs, bundles, i, r.message)
    decreases |bundles|
  {
    if bundles == [] then Ok([])
    else match CompleteBundleSigning(codec, keypairs, bundles[0])
      case Err(e) =>
        assert FirstBadBundle(codec, keypairs, bundles, 0, e);
        Err(e)
      case Ok(b) =>
        match SignBundles(codec, keypairs, bundles[1..])
        case Err(e) =>
          assert exists i :: FirstBadBundle(codec, keypairs, bundles, i, e) by {
            var j :| FirstBadBundle(codec, keypairs, bundles[1..], j, e);
            assert forall k :: 0 <= k < |bundles| - 1 ==> bundles[1..][k] == bundles[k + 1];
            assert FirstBadBundle(codec, keypairs, bundles, j + 1, e);
          }
          Err(e)
        case Ok(bs) =>
          assert forall i :: 1 <= i < |bundles| ==> bundles[i] == bundles[1..][i - 1];
          Ok([b] + bs)
  }
}
