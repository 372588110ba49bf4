/**
 * Read-side queries: the balance lookup, the provider listing, the admin
 * overview and the admin list of recent transfers.
 */
module Reports {
  import opened Ledger
  import opened Catalog
  import opened Transfers

  /** The admin overview: number of agent rows, online providers, recorded fees. */
  datatype Overview = Overview(agents: nat, nodes: nat, revenue: int)

  /** Three independent counts over the tables. */
  function GetOverview(agents: Ledger, offers: seq<Offer>, jobs: seq<Job>): (r: Overview)
    ensures r.agents == |agents.Keys|
    ensures r.nodes <= |offers|
    ensures (forall i :: 0 <= i < |offers| ==> offers[i].status != Online) ==> r.nodes == 0
    ensures (forall i :: 0 <= i < |offers| ==> offers[i].status == Online) ==> r.nodes == |offers|
    ensures r.revenue == SumFees(jobs)
    ensures |jobs| == 0 ==> r.revenue == 0
  {
    var online := OnlineOffers(offers);
    assert |online| > 0 ==> online[0] in offers;
    assert (forall i :: 0 <= i < |offers| ==> offers[i].status == Online) ==> online == offers by {
      if forall i :: 0 <= i < |offers| ==> offers[i].status == Online {
        OnlineOffersAllOnline(offers);
      }
    }
    Overview(|agents|, |online|, SumFees(jobs))
  }

  /** A successful rent raises the overview's revenue by exactly its fee. */
  lemma RentRaisesRevenue(agents: Ledger, offers: seq<Offer>, jobs: seq<Job>, req: RentRequest)
    ensures var r := Rent(agents, offers, jobs, req);
            r.outcome.Success? ==>
              GetOverview(r.agents, offers, r.jobs).revenue == GetOverview(agents, offers, jobs).revenue + r.outcome.value.fee
  {
    var r := Rent(agents, offers, jobs, req);
    if r.outcome.Success? {
      SumFeesAppend(jobs, r.outcome.value);
    }
  }

  /** After three transfers with fees 1, 2 and 3 the overview reports revenue 6. */
  lemma OverviewRevenueExample(agents: Ledger, offers: seq<Offer>, a: string, b: string)
    ensures GetOverview(agents, offers, [Job(a, b, 1, 100), Job(a, b, 2, 200), Job(a, b, 3, 300)]).revenue == 6
  {
    SumFeesExample(a, b);
  }

  /** The `n` most recent jobs, newest first. */
  function Newest(jobs: seq<Job>, n: nat): (r: seq<Job>)
    ensures |r| == if |jobs| < n then |jobs| else n
    ensures forall i :: 0 <= i < |r| ==> r[i] == jobs[|jobs| - 1 - i]
  {
    if n == 0 || |jobs| == 0 then []
    else [jobs[|jobs| - 1]] + Newest(jobs[..|jobs| - 1], n - 1)
  }

  const RecentLimit: nat := 20

  /** `SELECT ... FROM a2a_jobs ORDER BY id DESC LIMIT 20`: at most twenty jobs, newest first. */
  function Recent(jobs: seq<Job>): (r: seq<Job>)
    ensures |r| == if |jobs| < RecentLimit then |jobs| else RecentLimit
    ensures forall i :: 0 <= i < |r| ==> r[i] == jobs[|jobs| - 1 - i]
  {
    Newest(jobs, RecentLimit)
  }

  /** The recent list is the newest-first reversal of the log's last twenty rows. */
  lemma RecentIsReversedTail(jobs: seq<Job>)
    ensures |jobs| <= RecentLimit ==> |Recent(jobs)| == |jobs|
    ensures forall i :: 0 <= i < |Recent(jobs)| ==> Recent(jobs)[i] in jobs[|jobs| - |Recent(jobs)|..]
  {
  }

  /** The job a successful rent appends heads the recent list. */
  lemma RentHeadsRecent(agents: Ledger, offers: seq<Offer>, jobs: seq<Job>, req: RentRequest)
    ensures var r := Rent(agents, offers, jobs, req);
            r.outcome.Success? ==> Recent(r.jobs)[0] == r.outcome.value
  {
  }
}
