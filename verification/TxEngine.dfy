/** internal/txengine/engine.go: build, sign, submit and confirm one transaction. */
module TxEngine {
  import opened Prelude
  import opened Chains
  import opened Nonces

  type Hash = nat

  const ZERO_HASH: Hash := 0

  datatype Fees = Fees(tipCap: nat, feeCap: nat)

  datatype Config = Config(dryRun: bool, maxGasPriceGwei: real, confirmTimeout: nat, pollInterval: nat)

  /** What the caller asks for: recipient, value and call data. */
  datatype Payload = Payload(to: Option<Address>, value: nat, data: seq<nat>)

  /** A signed transaction as it goes to the node. */
  datatype Tx = Tx(from: Address, payload: Payload, nonce: nat, gasLimit: nat, fees: Fees)

  datatype Receipt = Receipt(status: nat, gasUsed: nat)

  /** The node's answer to a submission, and how long an accepted one took. */
  datatype SubmitAnswer = Accepted(hash: Hash, took: nat) | Rejected(message: string)

  /** The adapter's answers to one Send, in the order it may ask; false or None is an error. */
  datatype Script = Script(
    nonceOk: bool,
    fees: Option<Fees>,
    estimate: Option<nat>,
    signOk: bool,
    submit: SubmitAnswer,
    resyncOk: bool)

  datatype SendError =
    | AllocateNonce
    | SuggestFees
    | EstimateGas
    | SignTx
    | Submit(message: string)
    | NotConfirmed
    | Cancelled

  datatype Outcome = Outcome(
    hash: Hash,
    waited: bool,
    success: bool,
    reverted: bool,
    gasUsed: nat,
    submitLatency: nat,
    confirmLatency: nat)

  const NO_OUTCOME := Outcome(ZERO_HASH, false, false, false, 0, 0, 0)

  const TOO_LOW := "nonce too low"
  const TOO_HIGH := "nonce too high"

  predicate IsNonceError(message: string) {
    Contains(message, TOO_LOW) || Contains(message, TOO_HIGH)
  }

  /** The texts of a node's complaint about a nonce. */
  lemma NonceErrorTexts(message: string)
    ensures IsNonceError(message)
       <==> exists i :: 0 <= i <= |message| && ("nonce too low" <= message[i..] || "nonce too high" <= message[i..])
  {
    OccursAsPrefix(message, "nonce too low");
    OccursAsPrefix(message, "nonce too high");
  }

  // ----- Gas price ---------------------------------------------------------------------------

  const WEI_PER_GWEI := 1_000_000_000.0

  predicate WithinLimit(wei: nat, gwei: real) {
    wei as real <= gwei * WEI_PER_GWEI
  }

  /** The part of a wei that the limit may leave over is dropped. */
  function GweiToWei(gwei: real): (wei: nat)
    requires gwei > 0.0
    ensures wei as real <= gwei * 1_000_000_000.0 < wei as real + 1.0
    ensures WithinLimit(wei, gwei) && !WithinLimit(wei + 1, gwei)
  {
    (gwei * WEI_PER_GWEI).Floor
  }

  function ClampGasPrice(fees: Fees, maxGwei: real): Fees
    requires maxGwei > 0.0
  {
    var maxWei := GweiToWei(maxGwei);
    if fees.feeCap <= maxWei then fees
    else Fees(if fees.tipCap > maxWei then maxWei else fees.tipCap, maxWei)
  }

  /** The fee cap signed is the largest one within both the suggestion and the limit, and
      neither cap is ever raised. The result meets the rule of EIP-1559, section
      "Specification", that a tip may not exceed the fee cap, exactly when the suggestion did or
      the limit was enforced. */
  lemma ClampRespectsLimit(fees: Fees, maxGwei: real)
    requires maxGwei > 0.0
    ensures var r := ClampGasPrice(fees, maxGwei);
      && r.feeCap <= fees.feeCap && WithinLimit(r.feeCap, maxGwei)
      && (forall wei: nat :: wei <= fees.feeCap && WithinLimit(wei, maxGwei) ==> wei <= r.feeCap)
      && r.tipCap <= fees.tipCap
      && (r.tipCap < fees.tipCap ==> r.tipCap == r.feeCap)
      && (r.tipCap <= r.feeCap <==> fees.tipCap <= fees.feeCap || !WithinLimit(fees.feeCap, maxGwei))
  {
  }

  // ----- Polling for the receipt ---------------------------------------------------------------

  /** One round of the loop: what the node answered, how long after the start that was, and
      whether the context was found cancelled in the pause after it. */
  datatype Poll = Poll(receipt: Option<Receipt>, at: nat, cancelled: bool)

  predicate Decisive(p: Poll, timeout: nat) {
    p.receipt.Some? || timeout < p.at || p.cancelled
  }

  /** The pause puts at least an interval between two rounds, and the list reaches past the
      deadline. */
  ghost predicate CoversTimeout(polls: seq<Poll>, timeout: nat, interval: nat) {
    && 0 < interval
    && timeout / interval + 1 < |polls|
    && (forall i :: 0 <= i < |polls| - 1 ==> polls[i].at + interval <= polls[i + 1].at)
  }

  lemma {:induction false} TimePasses(polls: seq<Poll>, timeout: nat, interval: nat, i: nat)
    requires CoversTimeout(polls, timeout, interval) && i < |polls|
    ensures i * interval <= polls[i].at
  {
    if i > 0 {
      TimePasses(polls, timeout, interval, i - 1);
      assert polls[i - 1].at + interval <= polls[i - 1 + 1].at;
      assert i * interval == (i - 1) * interval + interval;
    }
  }

  lemma DeadlineReached(polls: seq<Poll>, timeout: nat, interval: nat)
    requires CoversTimeout(polls, timeout, interval)
    ensures Decisive(polls[timeout / interval + 1], timeout)
  {
    var k := timeout / interval + 1;
    TimePasses(polls, timeout, interval, k);
    assert timeout < k * interval;
  }

  function Confirmed(out: Outcome, r: Receipt, at: nat): Outcome {
    out.(waited := true, gasUsed := r.gasUsed, success := r.status == 1, reverted := r.status == 0,
         confirmLatency := at)
  }

  /** What polling reports, round by round: a receipt decides before the deadline, and the
      deadline before a cancellation. */
  function Confirmation(sent: Outcome, polls: seq<Poll>, timeout: nat): (Outcome, Option<SendError>) {
    if polls == [] then (sent.(waited := true), Some(NotConfirmed))
    else if polls[0].receipt.Some? then (Confirmed(sent, polls[0].receipt.value, polls[0].at), None)
    else if timeout < polls[0].at then (sent.(waited := true), Some(NotConfirmed))
    else if polls[0].cancelled then (sent.(waited := true), Some(Cancelled))
    else Confirmation(sent, polls[1..], timeout)
  }

  /** The loop ends in the first round that decides, after at most timeout/interval + 2 calls. It
      reports a receipt exactly when one came in that round, and keeps the hash in every case. */
  method WaitForConfirmation(sent: Outcome, polls: seq<Poll>, timeout: nat, interval: nat)
    returns (out: Outcome, err: Option<SendError>, rounds: nat)
    requires CoversTimeout(polls, timeout, interval)
    ensures (out, err) == Confirmation(sent, polls, timeout)
    ensures 1 <= rounds <= timeout / interval + 2 && rounds <= |polls|
    ensures forall i :: 0 <= i < rounds - 1 ==> !Decisive(polls[i], timeout)
    ensures Decisive(polls[rounds - 1], timeout)
    ensures err.None? <==> polls[rounds - 1].receipt.Some?
    ensures err.None? ==> out.success == (polls[rounds - 1].receipt.value.status == 1)
    ensures err.None? ==> out.reverted == (polls[rounds - 1].receipt.value.status == 0)
    ensures err.None? ==> out.gasUsed == polls[rounds - 1].receipt.value.gasUsed
    ensures err.None? ==> out.confirmLatency == polls[rounds - 1].at
    ensures err == Some(NotConfirmed) <==> polls[rounds - 1].receipt.None? && timeout < polls[rounds - 1].at
    ensures err == Some(Cancelled) <==> polls[rounds - 1].receipt.None? && polls[rounds - 1].at <= timeout
    ensures err.Some? ==> out == sent.(waited := true)
    ensures out.hash == sent.hash && out.submitLatency == sent.submitLatency && out.waited
  {
    DeadlineReached(polls, timeout, interval);
    out := sent.(waited := true);
    rounds := 0;
    while true
      invariant rounds <= timeout / interval + 1
      invariant out == sent.(waited := true)
      invariant Confirmation(sent, polls, timeout) == Confirmation(sent, polls[rounds..], timeout)
      invariant forall i :: 0 <= i < rounds ==> !Decisive(polls[i], timeout)
      decreases |polls| - rounds
    {
      var poll := polls[rounds];
      rounds := rounds + 1;
      if poll.receipt.Some? {
        out := Confirmed(sent, poll.receipt.value, poll.at);
        return out, None, rounds;
      }
      if timeout < poll.at {
        return out, Some(NotConfirmed), rounds;
      }
      if poll.cancelled {
        return out, Some(Cancelled), rounds;
      }
    }
  }

  // ----- Send ------------------------------------------------------------------------------------

  /** The account as Send sees it: the tracked nonce and the chain. */
  datatype Account = Account(next: Option<nat>, chain: Chain)

  function NonceOf(a: Account): nat {
    Allocated(a.next, Pending(a.chain))
  }

  /** How far a Send gets. */
  datatype Fate =
    | NoNonce
    | Abandoned(error: SendError)
    | DryRun
    | Broadcast(hash: Hash, took: nat)
    | Refused(message: string)

  /** The transaction a Send submits, or the first step that fails. A zero gas limit asks for an
      estimate, which gets a fifth of headroom. */
  function Prepared(config: Config, from: Address, a: Account, payload: Payload, gasLimit: nat, s: Script)
    : Result<Tx, SendError>
  {
    if a.next.None? && !s.nonceOk then Err(AllocateNonce)
    else if s.fees.None? then Err(SuggestFees)
    else if gasLimit == 0 && s.estimate.None? then Err(EstimateGas)
    else if !s.signOk then Err(SignTx)
    else
      Ok(Tx(from, payload, NonceOf(a),
            if gasLimit == 0 then s.estimate.value + s.estimate.value / 5 else gasLimit,
            if config.maxGasPriceGwei > 0.0 then ClampGasPrice(s.fees.value, config.maxGasPriceGwei) else s.fees.value))
  }

  function FateOf(config: Config, prepared: Result<Tx, SendError>, answer: SubmitAnswer): Fate {
    match prepared
    case Err(AllocateNonce) => NoNonce
    case Err(e) => Abandoned(e)
    case Ok(_) =>
      if config.dryRun then DryRun
      else match answer
        case Accepted(hash, took) => Broadcast(hash, took)
        case Rejected(message) => Refused(message)
  }

  /** A prepared transaction is what was asked for, under the nonce allocated to it, and with a gas
      limit of the caller's or of an estimate plus at most a fifth. */
  lemma PreparedAsAsked(config: Config, from: Address, a: Account, payload: Payload, gasLimit: nat, s: Script)
    ensures var p := Prepared(config, from, a, payload, gasLimit, s);
      && (p.Ok? <==> (a.next.Some? || s.nonceOk) && s.fees.Some? && (gasLimit > 0 || s.estimate.Some?) && s.signOk)
      && (p.Ok? ==>
        && p.value.from == from && p.value.payload == payload && p.value.nonce == NonceOf(a)
        && (gasLimit > 0 ==> p.value.gasLimit == gasLimit)
        && (gasLimit == 0 ==> 5 * p.value.gasLimit <= 6 * s.estimate.value < 5 * p.value.gasLimit + 5))
  {
  }

  /** It carries the fees the node suggested, untouched unless a limit is configured and they exceed
      it; then the fee cap is the largest one within the limit, and the tip is lowered to it only if
      it was above. */
  lemma PreparedFees(config: Config, from: Address, a: Account, payload: Payload, gasLimit: nat, s: Script)
    requires Prepared(config, from, a, payload, gasLimit, s).Ok?
    ensures var r := Prepared(config, from, a, payload, gasLimit, s).value.fees;
      var offer, limit := s.fees.value, config.maxGasPriceGwei;
      if limit <= 0.0 || WithinLimit(offer.feeCap, limit) then r == offer
      else
        && r.feeCap < offer.feeCap && WithinLimit(r.feeCap, limit) && !WithinLimit(r.feeCap + 1, limit)
        && r.tipCap == Min(offer.tipCap, r.feeCap)
  {
  }

  /** The error names the first step that fails, in the order nonce, fees, gas, signature. */
  lemma PreparedFailsFirst(config: Config, from: Address, a: Account, payload: Payload, gasLimit: nat, s: Script)
    ensures var p := Prepared(config, from, a, payload, gasLimit, s);
      var nonceOk, feesOk, gasOk := a.next.Some? || s.nonceOk, s.fees.Some?, gasLimit > 0 || s.estimate.Some?;
      && (p == Err(AllocateNonce) <==> !nonceOk)
      && (p == Err(SuggestFees) <==> nonceOk && !feesOk)
      && (p == Err(EstimateGas) <==> nonceOk && feesOk && !gasOk)
      && (p == Err(SignTx) <==> nonceOk && feesOk && gasOk && !s.signOk)
  {
  }

  /** What a Send that runs alone leaves behind. */
  function Settle(a: Account, fate: Fate, resyncOk: bool): Account {
    match fate
    case NoNonce => a
    case Abandoned(_) => a.(next := Some(NonceOf(a)))
    case DryRun => a.(next := Some(NonceOf(a)))
    case Broadcast(_, _) => Account(Some(NonceOf(a) + 1), Use(a.chain, NonceOf(a)))
    case Refused(message) =>
      a.(next := Some(if IsNonceError(message) && resyncOk then Pending(a.chain) else NonceOf(a)))
  }

  /** What a Send reports. */
  function Reported(fate: Fate): (Outcome, Option<SendError>) {
    match fate
    case NoNonce => (NO_OUTCOME, Some(AllocateNonce))
    case Abandoned(e) => (NO_OUTCOME, Some(e))
    case DryRun => (NO_OUTCOME.(success := true), None)
    case Broadcast(hash, took) => (NO_OUTCOME.(hash := hash, submitLatency := took), None)
    case Refused(message) => (NO_OUTCOME, Some(Submit(message)))
  }

  /** A Send without an error and outside a dry run is exactly one that used its nonce up; every
      other one leaves the chain as it was and, if it got a nonce, makes it or the chain's own
      pending one the next to be issued. A dry run never reaches the node. */
  lemma ReportMatchesChain(config: Config, prepared: Result<Tx, SendError>, s: Script, a: Account)
    ensures var fate := FateOf(config, prepared, s.submit);
      var (out, err) := Reported(fate);
      var b := Settle(a, fate, s.resyncOk);
      && (err.None? && !config.dryRun <==> fate.Broadcast?)
      && (fate.Broadcast? ==> b.chain == Use(a.chain, NonceOf(a)) && b.next == Some(NonceOf(a) + 1))
      && (!fate.Broadcast? ==> b.chain == a.chain && out.hash == ZERO_HASH)
      && (!fate.Broadcast? && !fate.NoNonce? ==> NonceOf(b) == NonceOf(a) || NonceOf(b) == Pending(a.chain))
      && (config.dryRun ==> !fate.Broadcast? && (err.None? <==> prepared.Ok?))
  {
  }

  /** What the caller is told, short of a confirmation: the failed step's error or the node's message
      with an empty outcome; a dry run's success, without a hash; or the hash the node gave and how
      long it took, with nothing said about success. */
  lemma ReportSays(config: Config, prepared: Result<Tx, SendError>, answer: SubmitAnswer)
    ensures var (out, err) := Reported(FateOf(config, prepared, answer));
      && (prepared.Err? ==> err == Some(prepared.error))
      && (prepared.Ok? && !config.dryRun && answer.Rejected? ==> err == Some(Submit(answer.message)))
      && (err.None? <==> prepared.Ok? && (config.dryRun || answer.Accepted?))
      && (err.Some? ==> !out.success && out.hash == 0 && out.submitLatency == 0)
      && (err.None? && config.dryRun ==> out.success && out.hash == 0 && out.submitLatency == 0)
      && (err.None? && !config.dryRun ==>
          !out.success && out.hash == answer.hash && out.submitLatency == answer.took)
      && !out.waited && !out.reverted && out.gasUsed == 0 && out.confirmLatency == 0
  {
  }

  /** The node: its view of every account, and what it has accepted from this program. */
  class Adapter {
    var chains: map<Address, Chain>
    var broadcasts: seq<Tx>

    constructor (chains: map<Address, Chain>)
      ensures this.chains == chains && broadcasts == []
    {
      this.chains := chains;
      broadcasts := [];
    }

    function ChainOf(addr: Address): Chain
      reads this
    {
      if addr in chains then chains[addr] else Chain(0, {})
    }

    method NonceAt(addr: Address, ok: bool) returns (nonce: Option<nat>)
      ensures nonce.Some? <==> ok
      ensures nonce.Some? ==>
        && !Taken(ChainOf(addr), nonce.value)
        && (forall m :: 0 <= m < nonce.value ==> Taken(ChainOf(addr), m))
    {
      return if ok then Some(Pending(ChainOf(addr))) else None;
    }

    method SendRawTransaction(tx: Tx, answer: SubmitAnswer) returns (hash: Option<Hash>)
      modifies this
      ensures hash == if answer.Accepted? then Some(answer.hash) else None
      ensures answer.Rejected? ==> chains == old(chains) && broadcasts == old(broadcasts)
      ensures answer.Accepted? ==>
        chains == old(chains)[tx.from := Use(old(ChainOf(tx.from)), tx.nonce)] &&
        broadcasts == old(broadcasts) + [tx]
    {
      match answer
      case Accepted(h, _) =>
        chains := chains[tx.from := Use(ChainOf(tx.from), tx.nonce)];
        broadcasts := broadcasts + [tx];
        return Some(h);
      case Rejected(_) =>
        return None;
    }
  }

  class Engine {
    const adapter: Adapter
    const nonces: NonceManager
    const config: Config

    constructor (adapter: Adapter, nonces: NonceManager, config: Config)
      ensures this.adapter == adapter && this.nonces == nonces && this.config == config
    {
      this.adapter := adapter;
      this.nonces := nonces;
      this.config := config;
    }

    ghost function View(addr: Address): Account
      reads nonces, adapter
    {
      Account(nonces.Entry(addr), adapter.ChainOf(addr))
    }

    /** Everything before the submission: allocate, price, estimate and sign. A failure gives the
        nonce back; success leaves it allocated to the transaction. */
    method Prepare(from: Address, payload: Payload, gasLimit: nat, s: Script)
      returns (tx: Result<Tx, SendError>)
      modifies nonces
      ensures forall a :: a != from ==> nonces.Entry(a) == old(nonces.Entry(a))
      ensures tx == Prepared(config, from, old(View(from)), payload, gasLimit, s)
      ensures nonces.Entry(from) ==
        match tx
        case Ok(_) => Some(NonceOf(old(View(from))) + 1)
        case Err(AllocateNonce) => None
        case Err(_) => Some(NonceOf(old(View(from))))
    {
      var onChain := adapter.NonceAt(from, s.nonceOk);
      assert onChain.Some? ==> onChain.value == Pending(adapter.ChainOf(from));
      var got := nonces.Next(from, onChain);
      if got.None? {
        return Err(AllocateNonce);
      }
      var nonce := got.value;

      if s.fees.None? {
        nonces.Release(from, nonce);
        return Err(SuggestFees);
      }
      var fees := s.fees.value;
      if config.maxGasPriceGwei > 0.0 {
        fees := ClampGasPrice(fees, config.maxGasPriceGwei);
      }

      var limit := gasLimit;
      if limit == 0 {
        if s.estimate.None? {
          nonces.Release(from, nonce);
          return Err(EstimateGas);
        }
        limit := s.estimate.value + s.estimate.value / 5;
      }

      if !s.signOk {
        nonces.Release(from, nonce);
        return Err(SignTx);
      }
      return Ok(Tx(from, payload, nonce, limit, fees));
    }

    /** The submission and, if the node refuses it, what becomes of the nonce. */
    method Submission(tx: Tx, s: Script) returns (hash: Option<Hash>)
      modifies nonces, adapter
      ensures hash == if s.submit.Accepted? then Some(s.submit.hash) else None
      ensures forall a :: a != tx.from ==> View(a) == old(View(a))
      ensures adapter.ChainOf(tx.from) ==
        if hash.Some? then Use(old(adapter.ChainOf(tx.from)), tx.nonce) else old(adapter.ChainOf(tx.from))
      ensures adapter.broadcasts == old(adapter.broadcasts) + if hash.Some? then [tx] else []
      ensures nonces.Entry(tx.from) ==
        if hash.Some? then old(nonces.Entry(tx.from))
        else if IsNonceError(s.submit.message) && s.resyncOk then Some(Pending(old(adapter.ChainOf(tx.from))))
        else AfterRelease(old(nonces.Entry(tx.from)), tx.nonce)
    {
      hash := adapter.SendRawTransaction(tx, s.submit);
      if hash.None? {
        nonces.Release(tx.from, tx.nonce);
        if IsNonceError(s.submit.message) {
          var onChain := adapter.NonceAt(tx.from, s.resyncOk);
          var ok := nonces.Resync(tx.from, onChain);
        }
      }
    }

    /** The report, the account, the other accounts and the transaction that reached the node
        are all fixed by how far the Send got. */
    method Send(from: Address, payload: Payload, gasLimit: nat, s: Script, wait: bool, polls: seq<Poll>)
      returns (out: Outcome, err: Option<SendError>)
      requires wait ==> CoversTimeout(polls, config.confirmTimeout, config.pollInterval)
      modifies nonces, adapter
      ensures var prepared := Prepared(config, from, old(View(from)), payload, gasLimit, s);
        var fate := FateOf(config, prepared, s.submit);
        && (out, err) == (if fate.Broadcast? && wait
                          then Confirmation(Reported(fate).0, polls, config.confirmTimeout)
                          else Reported(fate))
        && View(from) == Settle(old(View(from)), fate, s.resyncOk)
        && (forall a :: a != from ==> View(a) == old(View(a)))
        && adapter.broadcasts == old(adapter.broadcasts) +
             if fate.Broadcast? then [prepared.value] else []
    {
      var prepared := Prepare(from, payload, gasLimit, s);
      if prepared.Err? {
        return NO_OUTCOME, Some(prepared.error);
      }
      var tx := prepared.value;

      if config.dryRun {
        nonces.Release(from, tx.nonce);
        return NO_OUTCOME.(success := true), None;
      }

      var hash := Submission(tx, s);
      if hash.None? {
        return NO_OUTCOME, Some(Submit(s.submit.message));
      }
      out := NO_OUTCOME.(hash := hash.value, submitLatency := s.submit.took);
      if !wait {
        return out, None;
      }
      var rounds;
      out, err, rounds := WaitForConfirmation(out, polls, config.confirmTimeout, config.pollInterval);
    }
  }
}
