/**
 * The background chain watcher: each cycle reads the chain head, walks the
 * blocks after its in-memory cursor in ascending order, upsert-credits every
 * positive transfer addressed to the owner wallet to its sender, and advances
 * the cursor block by block. The chain client is abstracted as the head height
 * (None for a nil header) and a total function from height to transactions.
 */
module Watcher {
  import opened Wrappers
  import opened Ledger

  /** A chain transaction: `To()` may be nil; `to` is the hex rendering compared to the owner. */
  datatype Tx = Tx(to: Option<string>, sender: string, value: int, hash: string)

  /** The watcher's state: the `agents` table and the `lastBlock` variable. */
  datatype Watch = Watch(agents: Ledger, cursor: int)

  /** The scan filter: a non-nil destination equal to the owner wallet and a strictly positive value. */
  predicate IsDeposit(tx: Tx, owner: string) {
    tx.to.Some? && tx.to.value == owner && tx.value > 0
  }

  /** Reference sum: the value `w` sent to the owner wallet in `txs`, over qualifying transactions only. */
  function DepositsFrom(txs: seq<Tx>, owner: string, w: string): int {
    if |txs| == 0 then 0
    else
      var last := txs[|txs| - 1];
      DepositsFrom(txs[..|txs| - 1], owner, w) + (if IsDeposit(last, owner) && last.sender == w then last.value else 0)
  }

  /** Reference set: the senders of qualifying transactions in `txs`. */
  function Senders(txs: seq<Tx>, owner: string): set<string> {
    if |txs| == 0 then {}
    else
      var last := txs[|txs| - 1];
      Senders(txs[..|txs| - 1], owner) + (if IsDeposit(last, owner) then {last.sender} else {})
  }

  /** Reference sum: everything sent to the owner wallet in `txs`. */
  function DepositTotal(txs: seq<Tx>, owner: string): int {
    if |txs| == 0 then 0
    else
      var last := txs[|txs| - 1];
      DepositTotal(txs[..|txs| - 1], owner) + (if IsDeposit(last, owner) then last.value else 0)
  }

  /** Only the qualifying transactions of `txs`, in order. */
  function Deposits(txs: seq<Tx>, owner: string): (r: seq<Tx>)
    ensures forall tx :: tx in r <==> tx in txs && IsDeposit(tx, owner)
  {
    if |txs| == 0 then []
    else
      var last := txs[|txs| - 1];
      Deposits(txs[..|txs| - 1], owner) + (if IsDeposit(last, owner) then [last] else [])
  }

  /**
   * The inner loop over one block's transactions, in order: each qualifying
   * transaction upsert-credits its value to its sender, every other one is
   * skipped. Wallets that sent nothing qualifying keep their balance and row.
   */
  function ScanBlock(l: Ledger, txs: seq<Tx>, owner: string): (r: Ledger)
    ensures r.Keys == l.Keys + Senders(txs, owner)
    ensures forall w :: Balance(r, w) == Balance(l, w) + DepositsFrom(txs, owner, w)
  {
    if |txs| == 0 then l
    else
      var last := txs[|txs| - 1];
      var before := ScanBlock(l, txs[..|txs| - 1], owner);
      if IsDeposit(last, owner) then Credit(before, last.sender, last.value) else before
  }

  /** Transactions that do not qualify have no effect at all on the ledger. */
  lemma {:induction false} ScanIgnoresNonDeposits(l: Ledger, txs: seq<Tx>, owner: string)
    ensures ScanBlock(l, txs, owner) == ScanBlock(l, Deposits(txs, owner), owner)
  {
    if |txs| > 0 {
      var last := txs[|txs| - 1];
      var init := txs[..|txs| - 1];
      ScanIgnoresNonDeposits(l, init, owner);
      var before := ScanBlock(l, init, owner);
      if IsDeposit(last, owner) {
        var d := Deposits(init, owner) + [last];
        assert Deposits(txs, owner) == d;
        assert d[..|d| - 1] == Deposits(init, owner);
        assert ScanBlock(l, d, owner) == Credit(before, last.sender, last.value);
        assert ScanBlock(l, txs, owner) == Credit(before, last.sender, last.value);
      } else {
        assert Deposits(txs, owner) == Deposits(init, owner) + [];
        assert Deposits(init, owner) + [] == Deposits(init, owner);
        assert ScanBlock(l, txs, owner) == before;
      }
    }
  }

  /** A block scan adds exactly the block's qualifying value to the sum of all balances. */
  lemma {:induction false} ScanBlockTotal(l: Ledger, txs: seq<Tx>, owner: string)
    ensures Total(ScanBlock(l, txs, owner)) == Total(l) + DepositTotal(txs, owner)
  {
    if |txs| > 0 {
      var last := txs[|txs| - 1];
      ScanBlockTotal(l, txs[..|txs| - 1], owner);
      if IsDeposit(last, owner) {
        TotalCredit(ScanBlock(l, txs[..|txs| - 1], owner), last.sender, last.value);
      }
    }
  }

  /** Deposits are positive, so a block scan keeps every balance non-negative. */
  lemma {:induction false} ScanBlockKeepsNonNegative(l: Ledger, txs: seq<Tx>, owner: string)
    requires NonNegative(l)
    ensures NonNegative(ScanBlock(l, txs, owner))
  {
    if |txs| > 0 {
      ScanBlockKeepsNonNegative(l, txs[..|txs| - 1], owner);
    }
  }

  /** No deduplication by hash: the same deposit appearing twice is credited twice. */
  lemma DuplicateCreditedTwice(l: Ledger, tx: Tx, owner: string)
    requires IsDeposit(tx, owner)
    ensures Balance(ScanBlock(l, [tx, tx], owner), tx.sender) == Balance(l, tx.sender) + 2 * tx.value
  {
  }

  /** A single transaction changes the ledger if and only if it passes the filter. */
  lemma SingleTxFilter(l: Ledger, tx: Tx, owner: string)
    ensures ScanBlock(l, [tx], owner) != l <==> IsDeposit(tx, owner)
  {
  }

  /** The `for _, tx := range block.Transactions()` loop. */
  method ScanTransactions(l: Ledger, txs: seq<Tx>, owner: string) returns (r: Ledger)
    ensures r == ScanBlock(l, txs, owner)
    ensures forall w :: Balance(r, w) == Balance(l, w) + DepositsFrom(txs, owner, w)
  {
    r := l;
    var i := 0;
    while i < |txs|
      invariant 0 <= i <= |txs|
      invariant r == ScanBlock(l, txs[..i], owner)
    {
      assert txs[..i + 1][..i] == txs[..i];
      var tx := txs[i];
      if tx.to.Some? && tx.to.value == owner && tx.value > 0 {
        r := Credit(r, tx.sender, tx.value);
      }
      i := i + 1;
    }
    assert txs[..i] == txs;
  }

  /** Reference sum of `DepositsFrom` over blocks `lo..hi`. */
  function RangeDepositsFrom(blockAt: int -> seq<Tx>, owner: string, lo: int, hi: int, w: string): int
    decreases hi - lo
  {
    if lo > hi then 0
    else RangeDepositsFrom(blockAt, owner, lo, hi - 1, w) + DepositsFrom(blockAt(hi), owner, w)
  }

  /** Reference sum of `DepositTotal` over blocks `lo..hi`. */
  function RangeDepositTotal(blockAt: int -> seq<Tx>, owner: string, lo: int, hi: int): int
    decreases hi - lo
  {
    if lo > hi then 0
    else RangeDepositTotal(blockAt, owner, lo, hi - 1) + DepositTotal(blockAt(hi), owner)
  }

  /** Reference set: the senders of qualifying transactions in blocks `lo..hi`. */
  function RangeSenders(blockAt: int -> seq<Tx>, owner: string, lo: int, hi: int): set<string>
    decreases hi - lo
  {
    if lo > hi then {}
    else RangeSenders(blockAt, owner, lo, hi - 1) + Senders(blockAt(hi), owner)
  }

  /** Scanning blocks `lo..hi` in ascending order: every block before `hi` first, then `hi`. */
  function ScanBlocks(l: Ledger, blockAt: int -> seq<Tx>, owner: string, lo: int, hi: int): (r: Ledger)
    ensures r.Keys == l.Keys + RangeSenders(blockAt, owner, lo, hi)
    ensures forall w :: Balance(r, w) == Balance(l, w) + RangeDepositsFrom(blockAt, owner, lo, hi, w)
    decreases hi - lo
  {
    if lo > hi then l
    else ScanBlock(ScanBlocks(l, blockAt, owner, lo, hi - 1), blockAt(hi), owner)
  }

  /** Scanning a range adds exactly the range's qualifying value to the sum of all balances. */
  lemma {:induction false} ScanBlocksTotal(l: Ledger, blockAt: int -> seq<Tx>, owner: string, lo: int, hi: int)
    ensures Total(ScanBlocks(l, blockAt, owner, lo, hi)) == Total(l) + RangeDepositTotal(blockAt, owner, lo, hi)
    decreases hi - lo
  {
    if lo <= hi {
      ScanBlocksTotal(l, blockAt, owner, lo, hi - 1);
      ScanBlockTotal(ScanBlocks(l, blockAt, owner, lo, hi - 1), blockAt(hi), owner);
    }
  }

  lemma {:induction false} ScanBlocksKeepsNonNegative(l: Ledger, blockAt: int -> seq<Tx>, owner: string, lo: int, hi: int)
    requires NonNegative(l)
    ensures NonNegative(ScanBlocks(l, blockAt, owner, lo, hi))
    decreases hi - lo
  {
    if lo <= hi {
      ScanBlocksKeepsNonNegative(l, blockAt, owner, lo, hi - 1);
      ScanBlockKeepsNonNegative(ScanBlocks(l, blockAt, owner, lo, hi - 1), blockAt(hi), owner);
    }
  }

  function Max(a: int, b: int): int {
    if a < b then b else a
  }

  /** The cursor a cycle scans from: a zero cursor is first reset to ten blocks behind the head. */
  function StartCursor(cursor: int, head: nat): (c: int)
    ensures cursor == 0 ==> c == head - 10 && c < head
    ensures cursor != 0 ==> c == cursor
  {
    if cursor == 0 then head - 10 else cursor
  }

  /**
   * One watcher cycle. A nil header changes nothing. Otherwise the blocks from
   * the start cursor + 1 up to the head are scanned in ascending order and the
   * cursor ends at the larger of the start cursor and the head.
   */
  function Cycle(s: Watch, header: Option<nat>, blockAt: int -> seq<Tx>, owner: string): (r: Watch)
    ensures header.None? ==> r == s
    ensures header.Some? ==>
              var start := StartCursor(s.cursor, header.value);
              && r.cursor == Max(start, header.value)
              && r.cursor >= header.value
              && r.agents.Keys == s.agents.Keys + RangeSenders(blockAt, owner, start + 1, header.value)
              && forall w :: Balance(r.agents, w) == Balance(s.agents, w) + RangeDepositsFrom(blockAt, owner, start + 1, header.value, w)
    ensures s.cursor <= r.cursor
  {
    match header
    case None => s
    case Some(head) =>
      var start := StartCursor(s.cursor, head);
      Watch(ScanBlocks(s.agents, blockAt, owner, start + 1, head), Max(start, head))
  }

  /** A cycle whose cursor is already at or past the head credits nothing. */
  lemma CaughtUpIsIdle(s: Watch, head: nat, blockAt: int -> seq<Tx>, owner: string)
    requires s.cursor != 0 && s.cursor >= head
    ensures Cycle(s, Some(head), blockAt, owner) == s
  {
  }

  /**
   * The cursor lives only in memory: after a restart it is 0 again and the
   * next cycle rescans the last ten blocks, crediting their deposits a second time.
   */
  lemma RestartRescansLastTen(agents: Ledger, head: nat, blockAt: int -> seq<Tx>, owner: string)
    ensures var r := Cycle(Watch(agents, 0), Some(head), blockAt, owner);
            && r.cursor == head
            && forall w :: Balance(r.agents, w) == Balance(agents, w) + RangeDepositsFrom(blockAt, owner, head - 9, head, w)
  {
  }

  /**
   * The `for b := lastBlock + 1; b <= current; b++` loop: blocks start+1..current
   * are scanned in ascending order and `lastBlock` follows each block.
   */
  method ScanRange(l: Ledger, blockAt: int -> seq<Tx>, owner: string, start: int, current: int)
    returns (agents: Ledger, lastBlock: int)
    ensures agents == ScanBlocks(l, blockAt, owner, start + 1, current)
    ensures lastBlock == Max(start, current)
  {
    agents := l;
    lastBlock := start;
    var b := start + 1;
    while b <= current
      invariant start + 1 <= b
      invariant b <= current + 1 || b == start + 1
      invariant lastBlock == Max(start, b - 1)
      invariant agents == ScanBlocks(l, blockAt, owner, start + 1, b - 1)
      decreases current - b
    {
      agents := ScanTransactions(agents, blockAt(b), owner);
      assert agents == ScanBlocks(l, blockAt, owner, start + 1, b);
      lastBlock := b;
      b := b + 1;
    }
    if start + 1 > current {
      assert agents == l;
    } else {
      assert b == current + 1;
    }
  }

  /** One iteration of the watcher's polling loop, step by step as the source does it. */
  method Poll(s: Watch, header: Option<nat>, blockAt: int -> seq<Tx>, owner: string) returns (r: Watch)
    ensures r == Cycle(s, header, blockAt, owner)
    ensures header.Some? ==> r.cursor >= header.value
    ensures s.cursor <= r.cursor
  {
    if header.None? {
      return s;
    }
    var current: int := header.value;
    var lastBlock: int := s.cursor;
    if lastBlock == 0 {
      lastBlock := current - 10;
    }
    assert lastBlock == StartCursor(s.cursor, current);
    var agents;
    agents, lastBlock := ScanRange(s.agents, blockAt, owner, lastBlock, current);
    r := Watch(agents, lastBlock);
  }
}
