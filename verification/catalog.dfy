/**
 * The `providers` table: GPU offers that renters pay for. The model keeps the
 * rows in insertion order; the SERIAL id column is not modelled.
 */
module Catalog {
  import opened Wrappers

  /** One row of `providers`. `status` is free text; only "ONLINE" is listed. */
  datatype Offer = Offer(nodeId: string, wallet: string, gpuModel: string, status: string, price: int)

  const Online: string := "ONLINE"

  /** The three offers inserted on first start. */
  const SeedOffers: seq<Offer> := [
    Offer("NODE_ALPHA", "0xProvider1...", "NVIDIA A100", Online, 10000000000000000),
    Offer("NODE_BRAVO", "0xProvider2...", "RTX 3090", Online, 5000000000000000),
    Offer("NODE_CHARLIE", "0xProvider3...", "H100", Online, 20000000000000000)
  ]

  /** Seeding: insert the three offers only when the table is empty. */
  function Seed(offers: seq<Offer>): (r: seq<Offer>)
    ensures |offers| == 0 ==> r == SeedOffers
    ensures |offers| > 0 ==> r == offers
    ensures |r| > 0
  {
    if |offers| == 0 then SeedOffers else offers
  }

  /** A second seeding run finds the table non-empty and changes nothing. */
  lemma SeedIdempotent(offers: seq<Offer>)
    ensures Seed(Seed(offers)) == Seed(offers)
  {
  }

  /** Every listed price is non-negative. */
  predicate PricesNonNegative(offers: seq<Offer>) {
    forall i :: 0 <= i < |offers| ==> offers[i].price >= 0
  }

  /** Seeding keeps prices non-negative and starts every seeded offer online. */
  lemma SeedKeepsPricesNonNegative(offers: seq<Offer>)
    requires PricesNonNegative(offers)
    ensures PricesNonNegative(Seed(offers))
    ensures |offers| == 0 ==> forall o :: o in Seed(offers) ==> o.status == Online && o.price > 0
  {
  }

  /** The position of the first row whose node id is `id`, if there is one. */
  function Find(offers: seq<Offer>, id: string): (r: Option<nat>)
    ensures r.None? <==> forall i :: 0 <= i < |offers| ==> offers[i].nodeId != id
    ensures r.Some? ==> r.value < |offers| && offers[r.value].nodeId == id
    ensures r.Some? ==> forall j :: 0 <= j < r.value ==> offers[j].nodeId != id
  {
    if |offers| == 0 then None
    else if offers[0].nodeId == id then Some(0)
    else
      match Find(offers[1..], id)
      case None => None
      case Some(k) => Some(k + 1)
  }

  /**
   * `SELECT price_wei FROM providers WHERE node_id = $1` scanned into a
   * zero-initialised variable: the first matching row's price, whatever its
   * status, and 0 when no row matches because the Scan error is ignored.
   */
  function PriceOf(offers: seq<Offer>, id: string): (p: int)
    ensures (forall i :: 0 <= i < |offers| ==> offers[i].nodeId != id) ==> p == 0
    ensures forall i ::
              (0 <= i < |offers| && offers[i].nodeId == id && (forall j :: 0 <= j < i ==> offers[j].nodeId != id))
              ==> p == offers[i].price
    ensures PricesNonNegative(offers) ==> p >= 0
  {
    match Find(offers, id)
    case None => 0
    case Some(k) => offers[k].price
  }

  /** `SELECT ... FROM providers WHERE status = 'ONLINE'`, in table order. */
  function OnlineOffers(offers: seq<Offer>): (r: seq<Offer>)
    ensures forall o :: o in r <==> o in offers && o.status == Online
    ensures |r| <= |offers|
  {
    if |offers| == 0 then []
    else if offers[0].status == Online then [offers[0]] + OnlineOffers(offers[1..])
    else OnlineOffers(offers[1..])
  }

  /** Listing distributes over appended rows, so it keeps the table's order. */
  lemma {:induction false} OnlineOffersAppend(a: seq<Offer>, b: seq<Offer>)
    ensures OnlineOffers(a + b) == OnlineOffers(a) + OnlineOffers(b)
  {
    if |a| == 0 {
      assert a + b == b;
    } else {
      assert (a + b)[1..] == a[1..] + b;
      OnlineOffersAppend(a[1..], b);
    }
  }

  /** A table whose every row is online is listed whole, in order. */
  lemma {:induction false} OnlineOffersAllOnline(offers: seq<Offer>)
    requires forall i :: 0 <= i < |offers| ==> offers[i].status == Online
    ensures OnlineOffers(offers) == offers
  {
    if |offers| > 0 {
      OnlineOffersAllOnline(offers[1..]);
    }
  }

  /** All three seeded offers are listed. */
  lemma SeedAllOnline()
    ensures OnlineOffers(SeedOffers) == SeedOffers
  {
  }
}
