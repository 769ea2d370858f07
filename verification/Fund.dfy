/** internal/wallet/fund.go: one key pays every wallet in turn. */
module Fund {
  import opened Prelude
  import opened Nonces
  import opened TxEngine

  datatype ConfirmError = Reverted | Unconfirmed | Interrupted

  datatype FundError =
    | InvalidFunderKey
    | FetchNonce
    | PriceTransfer
    | SignTransfer
    | SendTransfer
    | ConfirmTransfer(reason: ConfirmError)

  datatype FundResult = FundResult(address: Address, txHash: Hash, err: Option<FundError>)

  /** The adapter's answers for one wallet, in the order it may ask; the last are those to polling
      for the receipt. */
  datatype FundScript = FundScript(
    nonce: Option<nat>,
    fees: Option<Fees>,
    signOk: bool,
    submit: SubmitAnswer,
    polls: seq<Poll>)

  const TRANSFER_GAS := 21000

  /** Half a second, in nanoseconds. */
  const POLL_INTERVAL: nat := 500_000_000

  // ----- Polling for the receipt ---------------------------------------------------------------

  /** What polling for a funding transfer comes to: here any receipt but one of status 0 is good. */
  function Awaited(polls: seq<Poll>, timeout: nat): Option<ConfirmError> {
    if polls == [] then Some(Unconfirmed)
    else if polls[0].receipt.Some? then
      if polls[0].receipt.value.status == 0 then Some(Reverted) else None
    else if timeout < polls[0].at then Some(Unconfirmed)
    else if polls[0].cancelled then Some(Interrupted)
    else Awaited(polls[1..], timeout)
  }

  /** Funding and Send poll alike: on the same answers the one reports what the other's outcome
      says. */
  lemma {:induction false} AwaitedAsConfirmed(sent: Outcome, polls: seq<Poll>, timeout: nat)
    ensures var (out, err) := Confirmation(sent, polls, timeout);
      Awaited(polls, timeout) ==
        if err == Some(Cancelled) then Some(Interrupted)
        else if err.Some? then Some(Unconfirmed)
        else if out.reverted then Some(Reverted)
        else None
  {
    if polls != [] && !Decisive(polls[0], timeout) {
      AwaitedAsConfirmed(sent, polls[1..], timeout);
    }
  }

  method WaitForReceipt(polls: seq<Poll>, timeout: nat) returns (err: Option<ConfirmError>, rounds: nat)
    requires CoversTimeout(polls, timeout, POLL_INTERVAL)
    ensures err == Awaited(polls, timeout)
    ensures 1 <= rounds <= timeout / 500_000_000 + 2 && rounds <= |polls|
    ensures forall i :: 0 <= i < rounds - 1 ==> !Decisive(polls[i], timeout)
    ensures Decisive(polls[rounds - 1], timeout)
    ensures err.None? <==> polls[rounds - 1].receipt.Some? && polls[rounds - 1].receipt.value.status != 0
    ensures err == Some(Reverted) <==> polls[rounds - 1].receipt.Some? && polls[rounds - 1].receipt.value.status == 0
    ensures err == Some(Unconfirmed) <==> polls[rounds - 1].receipt.None? && timeout < polls[rounds - 1].at
  {
    DeadlineReached(polls, timeout, POLL_INTERVAL);
    rounds := 0;
    while true
      invariant rounds <= timeout / POLL_INTERVAL + 1
      invariant Awaited(polls, timeout) == Awaited(polls[rounds..], timeout)
      invariant forall i :: 0 <= i < rounds ==> !Decisive(polls[i], timeout)
      decreases |polls| - rounds
    {
      var poll := polls[rounds];
      rounds := rounds + 1;
      if poll.receipt.Some? {
        return if poll.receipt.value.status == 0 then Some(Reverted) else None, rounds;
      }
      if timeout < poll.at {
        return Some(Unconfirmed), rounds;
      }
      if poll.cancelled {
        return Some(Interrupted), rounds;
      }
    }
  }

  // ----- Funding -------------------------------------------------------------------------------

  /** The chain is asked for the funder's nonce until it answers once; what it would answer later,
      when others may have used the key, makes no difference. */
  function FirstNonce(scripts: seq<FundScript>, n: nat): Option<nat>
    requires n <= |scripts|
  {
    if n == 0 then None
    else
      var before := FirstNonce(scripts, n - 1);
      if before.Some? then before else scripts[n - 1].nonce
  }

  predicate NonceKnown(scripts: seq<FundScript>, i: nat)
    requires i < |scripts|
  {
    FirstNonce(scripts, i + 1).Some?
  }

  predicate AnswersFirst(scripts: seq<FundScript>, i: nat)
    requires i < |scripts|
  {
    scripts[i].nonce.Some? && forall j :: 0 <= j < i ==> scripts[j].nonce.None?
  }

  /** That is the answer of the first wallet whose answer is not an error. */
  lemma {:induction false} FirstNonceIs(scripts: seq<FundScript>, n: nat)
    requires n <= |scripts|
    ensures FirstNonce(scripts, n).None? ==> forall i :: 0 <= i < n ==> scripts[i].nonce.None?
    ensures FirstNonce(scripts, n).Some? ==>
      exists i :: 0 <= i < n && AnswersFirst(scripts, i) && FirstNonce(scripts, n) == scripts[i].nonce
  {
    if n > 0 {
      FirstNonceIs(scripts, n - 1);
      assert FirstNonce(scripts, n - 1).None? ==> (scripts[n - 1].nonce.Some? <==> AnswersFirst(scripts, n - 1));
    }
  }

  predicate Paid(scripts: seq<FundScript>, i: nat)
    requires i < |scripts|
  {
    NonceKnown(scripts, i) && scripts[i].fees.Some? && scripts[i].signOk && scripts[i].submit.Accepted?
  }

  function PaidIndices(scripts: seq<FundScript>, n: nat): (paid: seq<nat>)
    requires n <= |scripts|
    ensures forall k :: 0 <= k < |paid| ==> paid[k] < n && Paid(scripts, paid[k])
  {
    if n == 0 then []
    else PaidIndices(scripts, n - 1) + if Paid(scripts, n - 1) then [n - 1] else []
  }

  /** Every wallet that can be paid is paid once, in wallet order. */
  lemma {:induction false} PaidInOrder(scripts: seq<FundScript>, n: nat)
    requires n <= |scripts|
    ensures var paid := PaidIndices(scripts, n);
      && (forall k, l :: 0 <= k < l < |paid| ==> paid[k] < paid[l])
      && (forall i :: 0 <= i < n ==> (i in paid <==> Paid(scripts, i)))
  {
    if n > 0 {
      PaidInOrder(scripts, n - 1);
      var before := PaidIndices(scripts, n - 1);
      assert n - 1 !in before;
      if Paid(scripts, n - 1) {
        assert PaidIndices(scripts, n) == before + [n - 1];
      } else {
        assert PaidIndices(scripts, n) == before;
      }
    }
  }

  function Transfer(from: Address, to: Address, amount: nat, nonce: nat, fees: Fees): Tx {
    Tx(from, Payload(Some(to), amount, []), nonce, TRANSFER_GAS, fees)
  }

  function Failure(scripts: seq<FundScript>, timeout: nat, i: nat): Option<FundError>
    requires i < |scripts|
  {
    var s := scripts[i];
    if !NonceKnown(scripts, i) then Some(FetchNonce)
    else if s.fees.None? then Some(PriceTransfer)
    else if !s.signOk then Some(SignTransfer)
    else if s.submit.Rejected? then Some(SendTransfer)
    else ConfirmFailure(Awaited(s.polls, timeout))
  }

  function ConfirmFailure(err: Option<ConfirmError>): Option<FundError> {
    if err.Some? then Some(ConfirmTransfer(err.value)) else None
  }

  function NoKey(wallet: Address): FundResult {
    FundResult(wallet, ZERO_HASH, Some(InvalidFunderKey))
  }

  function Receipted(wallets: seq<Address>, scripts: seq<FundScript>, timeout: nat, i: nat): FundResult
    requires i < |scripts| == |wallets|
  {
    FundResult(wallets[i], if Paid(scripts, i) then scripts[i].submit.hash else ZERO_HASH, Failure(scripts, timeout, i))
  }

  /** The transfers broadcast for the first n wallets. */
  function Transfers(from: Address, wallets: seq<Address>, amount: nat, scripts: seq<FundScript>, n: nat): seq<Tx>
    requires n <= |scripts| == |wallets|
  {
    if n == 0 then []
    else
      var before := Transfers(from, wallets, amount, scripts, n - 1);
      if Paid(scripts, n - 1) then
        var nonce := FirstNonce(scripts, n).value + |before|;
        before + [Transfer(from, wallets[n - 1], amount, nonce, scripts[n - 1].fees.value)]
      else before
  }

  /** The k-th transfer goes from the funder to the k-th wallet that could be paid, with the amount
      asked for, the gas of a plain transfer and the fees suggested for it, and carries the k-th
      nonce from the first one on: no gap and no repeat. */
  lemma {:induction false} TransfersAreConsecutive(from: Address, wallets: seq<Address>, amount: nat,
                                                   scripts: seq<FundScript>, n: nat)
    requires n <= |scripts| == |wallets|
    ensures var sent := Transfers(from, wallets, amount, scripts, n);
      var paid := PaidIndices(scripts, n);
      && |sent| == |paid|
      && (sent != [] ==> FirstNonce(scripts, n).Some?)
      && forall k :: 0 <= k < |sent| ==>
        && sent[k].from == from
        && sent[k].payload.to == Some(wallets[paid[k]])
        && sent[k].payload.value == amount && sent[k].payload.data == []
        && sent[k].nonce == FirstNonce(scripts, n).value + k
        && sent[k].gasLimit == 21000
        && sent[k].fees == scripts[paid[k]].fees.value
  {
    if n > 0 {
      TransfersAreConsecutive(from, wallets, amount, scripts, n - 1);
    }
  }

  /** A result names its wallet, carries the hash of its transfer or none, and reports the first
      step that failed; without an error the wallet was paid and the transfer is confirmed. */
  lemma ReceiptSays(wallets: seq<Address>, scripts: seq<FundScript>, timeout: nat, i: nat)
    requires i < |scripts| == |wallets|
    ensures var r, s := Receipted(wallets, scripts, timeout, i), scripts[i];
      var fetched := exists j :: 0 <= j <= i && scripts[j].nonce.Some?;
      var paid := fetched && s.fees.Some? && s.signOk && s.submit.Accepted?;
      && r.address == wallets[i]
      && r.txHash == (if paid then s.submit.hash else 0)
      && (r.err == Some(FetchNonce) <==> !fetched)
      && (r.err == Some(PriceTransfer) <==> fetched && s.fees.None?)
      && (r.err == Some(SignTransfer) <==> fetched && s.fees.Some? && !s.signOk)
      && (r.err == Some(SendTransfer) <==> fetched && s.fees.Some? && s.signOk && s.submit.Rejected?)
      && (paid && Awaited(s.polls, timeout).None? ==> r.err == None)
      && (paid && Awaited(s.polls, timeout).Some? ==>
          r.err == Some(ConfirmTransfer(Awaited(s.polls, timeout).value)))
  {
    FirstNonceIs(scripts, i + 1);
  }

  /** One result per wallet in order, whatever fails where, and the transfers that could be made. */
  method FundWallets(adapter: Adapter, funder: Option<Address>, wallets: seq<Address>, amount: nat,
                     timeout: nat, scripts: seq<FundScript>)
    returns (results: seq<FundResult>)
    requires |scripts| == |wallets|
    requires forall i :: 0 <= i < |scripts| ==> CoversTimeout(scripts[i].polls, timeout, POLL_INTERVAL)
    modifies adapter
    ensures |results| == |wallets|
    ensures forall i :: 0 <= i < |wallets| ==>
      results[i] == if funder.Some? then Receipted(wallets, scripts, timeout, i)
                    else FundResult(wallets[i], 0, Some(InvalidFunderKey))
    ensures adapter.broadcasts == old(adapter.broadcasts) +
      if funder.Some?
      then Transfers(funder.value, wallets, amount, scripts, |wallets|)
      else []
  {
    if funder.None? {
      results := [];
      for i := 0 to |wallets|
        invariant |results| == i && forall j :: 0 <= j < i ==> results[j] == NoKey(wallets[j])
      {
        results := results + [NoKey(wallets[i])];
      }
      return;
    }
    var from := funder.value;
    var nonces := new NonceManager();
    results := [];
    for i := 0 to |wallets|
      invariant |results| == i
      invariant forall j :: 0 <= j < i ==> results[j] == Receipted(wallets, scripts, timeout, j)
      invariant adapter.broadcasts == old(adapter.broadcasts) + Transfers(from, wallets, amount, scripts, i)
      invariant nonces.Entry(from) ==
        if FirstNonce(scripts, i).Some?
        then Some(FirstNonce(scripts, i).value + |Transfers(from, wallets, amount, scripts, i)|) else None
      invariant nonces.Entry(from).None? ==> Transfers(from, wallets, amount, scripts, i) == []
    {
      var got := nonces.Next(from, scripts[i].nonce);
      if got.None? {
        results := results + [FundResult(wallets[i], ZERO_HASH, Some(FetchNonce))];
      } else {
        var result := PayOne(adapter, nonces, from, wallets[i], amount, got.value, timeout, scripts[i]);
        results := results + [result];
      }
    }
  }

  /** One transfer with the nonce just allocated: kept if it is broadcast, given back if not. */
  method PayOne(adapter: Adapter, nonces: NonceManager, from: Address, to: Address, amount: nat, nonce: nat,
                timeout: nat, s: FundScript)
    returns (result: FundResult)
    requires nonces.Entry(from) == Some(nonce + 1)
    requires CoversTimeout(s.polls, timeout, POLL_INTERVAL)
    modifies adapter, nonces
    ensures
      if s.fees.Some? && s.signOk && s.submit.Accepted? then
        && adapter.broadcasts == old(adapter.broadcasts) + [Transfer(from, to, amount, nonce, s.fees.value)]
        && nonces.Entry(from) == Some(nonce + 1)
        && result == FundResult(to, s.submit.hash, ConfirmFailure(Awaited(s.polls, timeout)))
      else
        && adapter.broadcasts == old(adapter.broadcasts) && adapter.chains == old(adapter.chains)
        && nonces.Entry(from) == Some(nonce)
        && result == FundResult(to, ZERO_HASH, Some(
             if s.fees.None? then PriceTransfer else if !s.signOk then SignTransfer else SendTransfer))
  {
    if s.fees.None? {
      nonces.Release(from, nonce);
      return FundResult(to, ZERO_HASH, Some(PriceTransfer));
    }
    if !s.signOk {
      nonces.Release(from, nonce);
      return FundResult(to, ZERO_HASH, Some(SignTransfer));
    }
    var signed := Transfer(from, to, amount, nonce, s.fees.value);
    var hash := adapter.SendRawTransaction(signed, s.submit);
    if hash.None? {
      nonces.Release(from, nonce);
      return FundResult(to, ZERO_HASH, Some(SendTransfer));
    }
    var err, rounds := WaitForReceipt(s.polls, timeout);
    result := FundResult(to, hash.value, ConfirmFailure(err));
  }
}
