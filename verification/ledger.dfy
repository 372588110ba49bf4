/**
 * The `agents` table as an in-memory map from wallet to balance, with the two
 * writes the program issues against it: the upsert-credit used for deposits and
 * provider payouts, and the conditional debit used by a rent.
 */
module Ledger {

  /** wallet -> balance (the `agents` table; the `banned` column is never read). */
  type Ledger = map<string, int>

  /**
   * `SELECT balance FROM agents WHERE wallet = $1` scanned into a zero-initialised
   * variable: a wallet with no row reads as 0 because the Scan error is ignored.
   */
  function Balance(l: Ledger, w: string): (b: int)
    ensures w in l ==> b == l[w]
    ensures w !in l ==> b == 0
  {
    if w in l then l[w] else 0
  }

  /**
   * `INSERT INTO agents (wallet, balance) VALUES ($1, $2)
   *  ON CONFLICT (wallet) DO UPDATE SET balance = agents.balance + $2`.
   * No idempotency token: applying the same credit twice adds it twice.
   */
  function Credit(l: Ledger, w: string, amount: int): (r: Ledger)
    ensures r.Keys == l.Keys + {w}
    ensures Balance(r, w) == Balance(l, w) + amount
    ensures forall v :: v != w ==> Balance(r, v) == Balance(l, v)
  {
    l[w := Balance(l, w) + amount]
  }

  /**
   * `UPDATE agents SET balance = balance - $1 WHERE wallet = $2`: a wallet without
   * a row matches nothing and no row is created.
   */
  function Debit(l: Ledger, w: string, amount: int): (r: Ledger)
    ensures r.Keys == l.Keys
    ensures w in l ==> Balance(r, w) == Balance(l, w) - amount
    ensures w !in l ==> r == l
    ensures forall v :: v != w ==> Balance(r, v) == Balance(l, v)
  {
    if w in l then l[w := l[w] - amount] else l
  }

  /** Every balance in the table is non-negative. */
  predicate NonNegative(l: Ledger) {
    forall w :: w in l ==> l[w] >= 0
  }

  /** Some wallet of a non-empty ledger. */
  ghost function Pick(l: Ledger): (w: string)
    requires l != map[]
    ensures w in l
  {
    var w :| w in l; w
  }

  /** The sum of all balances: the amount of credit in circulation. */
  ghost function Total(l: Ledger): int
    decreases |l|
  {
    if l == map[] then 0
    else
      var w := Pick(l);
      assert |l - {w}| < |l| by { RemoveShrinks(l, w); }
      l[w] + Total(l - {w})
  }

  lemma RemoveShrinks(l: Ledger, w: string)
    requires w in l
    ensures |l - {w}| == |l| - 1
  {
  }

  /** Total may be computed by taking any wallet out first. */
  lemma {:induction false} TotalRemove(l: Ledger, w: string)
    requires w in l
    ensures Total(l) == l[w] + Total(l - {w})
    decreases |l|
  {
    var p := Pick(l);
    if p != w {
      RemoveShrinks(l, p);
      RemoveShrinks(l, w);
      TotalRemove(l - {p}, w);
      TotalRemove(l - {w}, p);
      assert l - {p} - {w} == l - {w} - {p};
    }
  }

  /** Overwriting one balance changes the total by the difference. */
  lemma TotalUpdate(l: Ledger, w: string, v: int)
    ensures Total(l[w := v]) == Total(l) - Balance(l, w) + v
  {
    var m := l[w := v];
    TotalRemove(m, w);
    assert m - {w} == l - {w};
    if w in l {
      TotalRemove(l, w);
    } else {
      assert l - {w} == l;
    }
  }

  /** A credit adds exactly its amount to the sum of all balances. */
  lemma TotalCredit(l: Ledger, w: string, amount: int)
    ensures Total(Credit(l, w, amount)) == Total(l) + amount
  {
    TotalUpdate(l, w, Balance(l, w) + amount);
  }

  /** A debit of an existing wallet removes exactly its amount from the sum. */
  lemma TotalDebit(l: Ledger, w: string, amount: int)
    ensures w in l ==> Total(Debit(l, w, amount)) == Total(l) - amount
    ensures w !in l ==> Total(Debit(l, w, amount)) == Total(l)
  {
    if w in l {
      assert Debit(l, w, amount) == l[w := l[w] - amount];
      TotalUpdate(l, w, l[w] - amount);
    } else {
      assert Debit(l, w, amount) == l;
    }
  }

  /** A non-negative credit keeps every balance non-negative. */
  lemma CreditKeepsNonNegative(l: Ledger, w: string, amount: int)
    requires NonNegative(l)
    requires amount >= 0
    ensures NonNegative(Credit(l, w, amount))
  {
  }

  /** There is no deduplication: the same deposit credited twice counts twice. */
  lemma CreditTwiceAddsTwice(l: Ledger, w: string, amount: int)
    ensures Balance(Credit(Credit(l, w, amount), w, amount), w) == Balance(l, w) + 2 * amount
  {
  }
}
