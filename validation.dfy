/** `validateMoonBuyInputs` of `src/utils/moonbuy.ts`: the checks a moon buy must pass
    before it is executed, in their fixed order, each with its own message. */
module Validation {
  import opened Js
  import opened MoonBuy

  datatype Validity = Valid | Invalid(error: string)

  /** `walletBalances.get(address) || 0`: a missing, zero or NaN balance counts as 0. */
  function Balance(balances: map<string, Number>, address: string): (b: Number)
    ensures !b.NaN?
    ensures address in balances && Truthy(balances[address]) ==> b == balances[address]
    ensures !(address in balances && Truthy(balances[address])) ==> b == Finite(0.0)
  {
    if address in balances && Truthy(balances[address]) then balances[address] else Finite(0.0)
  }

  /** Rejected by `isNaN(solAmount) || solAmount <= 0`. */
  predicate SolAmountOk(sol: Number)
  {
    !sol.NaN? && !LessOrEqual(sol, Finite(0.0))
  }

  /** Both the address and the private key are non-empty. */
  predicate WalletDataOk(w: Wallet)
  {
    w.address != "" && w.privateKey != ""
  }

  /** The wallet's balance is not below the amount each wallet spends. */
  predicate Funded(w: Wallet, sol: Number, balances: map<string, Number>)
  {
    !Less(Balance(balances, w.address), sol)
  }

  function InsufficientBalance(address: string): (message: string)
  {
    "Wallet " + Substring(address, 6) + "... has insufficient balance"
  }

  /** What is wrong with one wallet, if anything: its data first, then its balance. */
  function WalletError(w: Wallet, sol: Number, balances: map<string, Number>): (e: Option<string>)
    ensures e.None? <==> WalletDataOk(w) && Funded(w, sol, balances)
    ensures !WalletDataOk(w) ==> e == Some("Invalid wallet data")
    ensures WalletDataOk(w) && !Funded(w, sol, balances) ==> e == Some(InsufficientBalance(w.address))
  {
    if !WalletDataOk(w) then Some("Invalid wallet data")
    else if !Funded(w, sol, balances) then Some(InsufficientBalance(w.address))
    else None
  }

  /** The error of the first wallet (from `i` on) that fails. */
  function FirstWalletError(wallets: seq<Wallet>, sol: Number, balances: map<string, Number>, i: nat): (e: Option<string>)
    requires i <= |wallets|
    decreases |wallets| - i
  {
    if i == |wallets| then None
    else if WalletError(wallets[i], sol, balances).Some? then WalletError(wallets[i], sol, balances)
    else FirstWalletError(wallets, sol, balances, i + 1)
  }

  /** The verdict, with the checks in the order the source makes them. */
  function Verdict(wallets: seq<Wallet>, token: TokenConfig, balances: map<string, Number>): (v: Validity)
  {
    if token.tokenAddress == "" then Invalid("Invalid token address")
    else if !SolAmountOk(token.solAmount) then Invalid("Invalid SOL amount")
    else if |wallets| == 0 then Invalid("No wallets provided")
    else
      match FirstWalletError(wallets, token.solAmount, balances, 0)
      case Some(e) => Invalid(e)
      case None => Valid
  }

  method ValidateMoonBuyInputs(wallets: seq<Wallet>, token: TokenConfig, balances: map<string, Number>)
    returns (v: Validity)
    ensures v == Verdict(wallets, token, balances)
  {
    if token.tokenAddress == "" {
      return Invalid("Invalid token address");
    }
    if token.solAmount.NaN? || LessOrEqual(token.solAmount, Finite(0.0)) {
      return Invalid("Invalid SOL amount");
    }
    if |wallets| == 0 {
      return Invalid("No wallets provided");
    }
    var i := 0;
    while i < |wallets|
      invariant 0 <= i <= |wallets|
      invariant FirstWalletError(wallets, token.solAmount, balances, 0)
             == FirstWalletError(wallets, token.solAmount, balances, i)
      decreases |wallets| - i
    {
      var w := wallets[i];
      if w.address == "" || w.privateKey == "" {
        return Invalid("Invalid wallet data");
      }
      var balance := Balance(balances, w.address);
      if Less(balance, token.solAmount) {
        return Invalid(InsufficientBalance(w.address));
      }
      i := i + 1;
    }
    return Valid;
  }

  /** Wallet `k` is the first from `i` on that fails. */
  ghost predicate FirstBadWallet(wallets: seq<Wallet>, sol: Number, balances: map<string, Number>, i: int, k: int)
  {
    && 0 <= i <= k < |wallets|
    && WalletError(wallets[k], sol, balances).Some?
    && forall j :: i <= j < k ==> WalletError(wallets[j], sol, balances).None?
  }

  /** No wallet from `i` on fails exactly when there is no error, and an error is the
      error of the first wallet that fails. */
  lemma {:induction false} FirstWalletErrorIsFirst(wallets: seq<Wallet>, sol: Number, balances: map<string, Number>, i: nat)
    requires i <= |wallets|
    ensures FirstWalletError(wallets, sol, balances, i).None? <==>
      forall j :: i <= j < |wallets| ==> WalletError(wallets[j], sol, balances).None?
    ensures FirstWalletError(wallets, sol, balances, i).Some? ==>
      exists k :: FirstBadWallet(wallets, sol, balances, i, k)
        && FirstWalletError(wallets, sol, balances, i) == WalletError(wallets[k], sol, balances)
    decreases |wallets| - i
  {
    if i < |wallets| {
      FirstWalletErrorIsFirst(wallets, sol, balances, i + 1);
      if WalletError(wallets[i], sol, balances).Some? {
        assert FirstBadWallet(wallets, sol, balances, i, i);
      } else if FirstWalletError(wallets, sol, balances, i + 1).Some? {
        var k :| FirstBadWallet(wallets, sol, balances, i + 1, k)
          && FirstWalletError(wallets, sol, balances, i + 1) == WalletError(wallets[k], sol, balances);
        assert FirstBadWallet(wallets, sol, balances, i, k);
      }
    }
  }

  /** The inputs are valid exactly when the token address is set, the amount is a
      positive number, there is a wallet, and every wallet has its address and key and
      at least the amount as balance. */
  lemma ValidIff(wallets: seq<Wallet>, token: TokenConfig, balances: map<string, Number>)
    ensures Verdict(wallets, token, balances) == Valid <==>
      && token.tokenAddress != ""
      && SolAmountOk(token.solAmount)
      && |wallets| > 0
      && forall j :: 0 <= j < |wallets| ==> WalletDataOk(wallets[j]) && Funded(wallets[j], token.solAmount, balances)
  {
    FirstWalletErrorIsFirst(wallets, token.solAmount, balances, 0);
  }

  /** The first failing check decides the message: the token address, then the amount,
      then the wallet list, then the wallets in order. */
  lemma InvalidReportsFirstFailure(wallets: seq<Wallet>, token: TokenConfig, balances: map<string, Number>, k: int)
    requires token.tokenAddress != "" && SolAmountOk(token.solAmount)
    requires FirstBadWallet(wallets, token.solAmount, balances, 0, k)
    ensures Verdict(wallets, token, balances) == Invalid(WalletError(wallets[k], token.solAmount, balances).value)
  {
    FirstWalletErrorIsFirst(wallets, token.solAmount, balances, 0);
    var e := FirstWalletError(wallets, token.solAmount, balances, 0);
    var k' :| FirstBadWallet(wallets, token.solAmount, balances, 0, k') && e == WalletError(wallets[k'], token.solAmount, balances);
    assert k' == k;
  }

  /** A valid moon buy spends a positive amount that every wallet's balance covers. */
  lemma ValidMeansFunded(wallets: seq<Wallet>, token: TokenConfig, balances: map<string, Number>)
    requires Verdict(wallets, token, balances) == Valid
    ensures Less(Finite(0.0), token.solAmount)
    ensures forall j :: 0 <= j < |wallets| ==> LessOrEqual(token.solAmount, Balance(balances, wallets[j].address))
  {
    ValidIff(wallets, token, balances);
  }
}
