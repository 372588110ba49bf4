/**
 * The rent handler: a renter pays a provider for a GPU offer, one percent of the
 * price is withheld as a fee, and one row is appended to the `a2a_jobs` log.
 */
module Transfers {
  import opened Wrappers
  import opened Ledger
  import opened Catalog

  /** One row of `a2a_jobs` (the SERIAL id and timestamp are not modelled). */
  datatype Job = Job(from: string, to: string, fee: int, amount: int)

  /** The decoded JSON body of a rent call; every field is chosen by the client. */
  datatype RentRequest = RentRequest(renter: string, providerId: string, providerWallet: string)

  /** "INSUFFICIENT CREDITS" (zero balance) and "INSUFFICIENT FUNDS FOR GPU". */
  datatype RentError = InsufficientCredits | InsufficientFunds

  /** The reply of a rent, together with the tables after it. */
  datatype RentResult = RentResult(outcome: Result<Job, RentError>, agents: Ledger, jobs: seq<Job>)

  /**
   * The owner's cut: `price / 100` with big.Int's Div, which is Euclidean
   * division exactly like Dafny's `/`.
   */
  function Fee(price: int): (fee: int)
    ensures 100 * fee <= price < 100 * fee + 100
    ensures price >= 0 ==> 0 <= fee <= price
  {
    price / 100
  }

  /** What the provider is paid: the price less the fee. */
  function Net(price: int): (n: int)
    ensures n == price - Fee(price)
    ensures price >= 0 ==> 0 <= n <= price
  {
    price - Fee(price)
  }

  /** For any non-negative price the split is into two non-negative parts. */
  lemma FeeSplit(price: int)
    requires price >= 0
    ensures Fee(price) + Net(price) == price
    ensures 0 <= Fee(price) <= price && 0 <= Net(price) <= price
    ensures Net(price) >= 99 * Fee(price)
  {
  }

  /** The worked example: a price of 1,000,000 pays 10,000 fee and 990,000 net. */
  lemma FeeExample()
    ensures Fee(1000000) == 10000 && Net(1000000) == 990000
  {
  }

  /**
   * One rent, run sequentially against the tables. The renter's balance is read
   * (0 when unknown) and a zero balance is rejected; the price is read (0 for an
   * unknown provider id, which is not an error); a balance below the price is
   * rejected. Otherwise the renter is debited the price, the client-supplied
   * provider wallet is upsert-credited the net, and one job row is appended. The
   * fee is credited to nobody.
   */
  function Rent(agents: Ledger, offers: seq<Offer>, jobs: seq<Job>, req: RentRequest): (r: RentResult)
    ensures r.outcome == Failure(InsufficientCredits) <==> Balance(agents, req.renter) == 0
    ensures r.outcome.Failure? <==>
              Balance(agents, req.renter) == 0 || Balance(agents, req.renter) < PriceOf(offers, req.providerId)
    ensures r.outcome.Failure? ==> r.agents == agents && r.jobs == jobs
    ensures r.outcome.Success? ==>
              var price := PriceOf(offers, req.providerId);
              && r.outcome.value == Job(req.renter, req.providerWallet, Fee(price), price)
              && r.jobs == jobs + [r.outcome.value]
              && req.renter in agents
              && r.agents.Keys == agents.Keys + {req.providerWallet}
              && (req.renter != req.providerWallet ==>
                    && Balance(r.agents, req.renter) == Balance(agents, req.renter) - price
                    && Balance(r.agents, req.providerWallet) == Balance(agents, req.providerWallet) + price - Fee(price))
              && (req.renter == req.providerWallet ==>
                    Balance(r.agents, req.renter) == Balance(agents, req.renter) - Fee(price))
              && (forall w :: w != req.renter && w != req.providerWallet ==> Balance(r.agents, w) == Balance(agents, w))
  {
    var renterBal := Balance(agents, req.renter);
    if renterBal == 0 then RentResult(Failure(InsufficientCredits), agents, jobs)
    else
      var price := PriceOf(offers, req.providerId);
      if renterBal < price then RentResult(Failure(InsufficientFunds), agents, jobs)
      else
        var fee := Fee(price);
        var debited := Debit(agents, req.renter, price);
        var paid := Credit(debited, req.providerWallet, price - fee);
        var job := Job(req.renter, req.providerWallet, fee, price);
        RentResult(Success(job), paid, jobs + [job])
  }

  /** Total fees recorded in the job log (`COALESCE(SUM(fee_wei), 0)`). */
  function SumFees(jobs: seq<Job>): (total: int)
    ensures |jobs| == 0 ==> total == 0
    ensures (forall i :: 0 <= i < |jobs| ==> jobs[i].fee >= 0) ==> total >= 0
    ensures (forall i :: 0 <= i < |jobs| ==> jobs[i].fee >= 0) ==> forall i :: 0 <= i < |jobs| ==> jobs[i].fee <= total
  {
    if |jobs| == 0 then 0 else jobs[0].fee + SumFees(jobs[1..])
  }

  /** Appending a job adds its fee to the recorded revenue. */
  lemma {:induction false} SumFeesAppend(jobs: seq<Job>, j: Job)
    ensures SumFees(jobs + [j]) == SumFees(jobs) + j.fee
  {
    if |jobs| > 0 {
      assert (jobs + [j])[1..] == jobs[1..] + [j];
      SumFeesAppend(jobs[1..], j);
    }
  }

  /** Fees 1, 2 and 3 sum to 6. */
  lemma SumFeesExample(a: string, b: string)
    ensures SumFees([Job(a, b, 1, 100), Job(a, b, 2, 200), Job(a, b, 3, 300)]) == 6
  {
    var js := [Job(a, b, 1, 100), Job(a, b, 2, 200), Job(a, b, 3, 300)];
    assert js[1..][1..][1..] == [];
    assert SumFees(js[1..][1..]) == 3;
    assert SumFees(js[1..]) == 5;
  }

  /**
   * Conservation: a successful rent removes exactly the fee from the sum of all
   * balances, since no wallet (the owner's included) receives it; the fee
   * reappears only in the job log. A rejected rent changes neither.
   */
  lemma RentConservation(agents: Ledger, offers: seq<Offer>, jobs: seq<Job>, req: RentRequest)
    ensures var r := Rent(agents, offers, jobs, req);
            && (r.outcome.Success? ==> Total(r.agents) == Total(agents) - r.outcome.value.fee)
            && Total(r.agents) + SumFees(r.jobs) == Total(agents) + SumFees(jobs)
  {
    var r := Rent(agents, offers, jobs, req);
    if r.outcome.Success? {
      var price := PriceOf(offers, req.providerId);
      var debited := Debit(agents, req.renter, price);
      TotalDebit(agents, req.renter, price);
      TotalCredit(debited, req.providerWallet, price - Fee(price));
      assert r.agents == Credit(debited, req.providerWallet, price - Fee(price));
      SumFeesAppend(jobs, r.outcome.value);
    }
  }

  /**
   * Non-negativity: when every balance and every listed price is non-negative,
   * a rent leaves every balance non-negative.
   */
  lemma RentKeepsNonNegative(agents: Ledger, offers: seq<Offer>, jobs: seq<Job>, req: RentRequest)
    requires NonNegative(agents)
    requires PricesNonNegative(offers)
    ensures NonNegative(Rent(agents, offers, jobs, req).agents)
  {
  }

  /** A renter with no row reads as balance 0 and is refused with nothing changed. */
  lemma UnknownRenterRejected(agents: Ledger, offers: seq<Offer>, jobs: seq<Job>, req: RentRequest)
    requires req.renter !in agents
    ensures var r := Rent(agents, offers, jobs, req);
            r.outcome == Failure(InsufficientCredits) && r.agents == agents && r.jobs == jobs
  {
  }

  /** An unknown provider id costs nothing: the rent succeeds for any renter with credit. */
  lemma UnknownProviderIsFree(agents: Ledger, offers: seq<Offer>, jobs: seq<Job>, req: RentRequest)
    requires forall i :: 0 <= i < |offers| ==> offers[i].nodeId != req.providerId
    requires Balance(agents, req.renter) > 0
    ensures var r := Rent(agents, offers, jobs, req);
            && r.outcome == Success(Job(req.renter, req.providerWallet, 0, 0))
            && forall w :: Balance(r.agents, w) == Balance(agents, w)
  {
  }
}
