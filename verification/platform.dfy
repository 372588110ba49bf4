/**
 * The whole service as one sequential state machine over its tables: the
 * `agents` ledger, the `providers` catalog, the `a2a_jobs` log and the
 * watcher's cursor. Each event is one process start (seeding, and a fresh
 * watcher whose cursor is 0 again), one rent call or one watcher cycle;
 * concurrent interleavings are not modelled.
 */
module Platform {
  import opened Wrappers
  import opened Ledger
  import opened Catalog
  import opened Transfers
  import opened Watcher

  datatype State = State(agents: Ledger, providers: seq<Offer>, jobs: seq<Job>, cursor: int)

  datatype Event =
    | Boot      // a process start: seed the catalog, launch a watcher with `lastBlock` = 0
    | RentCall(req: RentRequest)
    | WatchCycle(header: Option<nat>, blockAt: int -> seq<Tx>)

  /** Empty tables and a zero cursor, before start-up seeding. */
  const Initial: State := State(map[], [], [], 0)

  /** The invariants every reachable state keeps. */
  predicate Valid(s: State) {
    && NonNegative(s.agents)
    && PricesNonNegative(s.providers)
    && s.cursor >= 0
  }

  /** One event against the tables; `owner` is the configured receiving wallet. */
  function Step(s: State, owner: string, e: Event): (r: State)
    ensures e.Boot? ==> r.providers == Seed(s.providers)
    ensures e.Boot? ==> r.agents == s.agents && r.jobs == s.jobs && r.cursor == 0
    ensures e.RentCall? ==>
              var out := Rent(s.agents, s.providers, s.jobs, e.req);
              r.agents == out.agents && r.jobs == out.jobs
    ensures e.RentCall? ==> r.providers == s.providers && r.cursor == s.cursor
    ensures e.WatchCycle? ==>
              var w := Cycle(Watch(s.agents, s.cursor), e.header, e.blockAt, owner);
              r.agents == w.agents && r.cursor == w.cursor
    ensures e.WatchCycle? ==> r.providers == s.providers && r.jobs == s.jobs
    ensures |s.jobs| <= |r.jobs| <= |s.jobs| + 1 && r.jobs[..|s.jobs|] == s.jobs
    ensures !e.Boot? ==> s.cursor <= r.cursor
    ensures s.agents.Keys <= r.agents.Keys
  {
    match e
    case Boot => s.(providers := Seed(s.providers), cursor := 0)
    case RentCall(req) =>
      var out := Rent(s.agents, s.providers, s.jobs, req);
      assert s.jobs == out.jobs[..|s.jobs|];
      s.(agents := out.agents, jobs := out.jobs)
    case WatchCycle(header, blockAt) =>
      var w := Cycle(Watch(s.agents, s.cursor), header, blockAt, owner);
      s.(agents := w.agents, cursor := w.cursor)
  }

  lemma InitialValid()
    ensures Valid(Initial)
  {
  }

  /** Every event keeps balances and prices non-negative and the cursor at or above 0. */
  lemma StepKeepsValid(s: State, owner: string, e: Event)
    requires Valid(s)
    ensures Valid(Step(s, owner, e))
  {
    match e
    case Boot =>
      SeedKeepsPricesNonNegative(s.providers);
    case RentCall(req) =>
      RentKeepsNonNegative(s.agents, s.providers, s.jobs, req);
    case WatchCycle(header, blockAt) =>
      if header.Some? {
        var start := StartCursor(s.cursor, header.value);
        ScanBlocksKeepsNonNegative(s.agents, blockAt, owner, start + 1, header.value);
      }
  }

  /** The qualifying value a cycle credits: zero for every other event and for a nil header. */
  function Deposited(s: State, owner: string, e: Event): int {
    match e
    case WatchCycle(Some(head), blockAt) =>
      RangeDepositTotal(blockAt, owner, StartCursor(s.cursor, head) + 1, head)
    case _ => 0
  }

  /**
   * Conservation: balances plus fees recorded in the job log grow by exactly
   * the deposits a step credits, and by nothing else.
   */
  lemma StepConservation(s: State, owner: string, e: Event)
    ensures var r := Step(s, owner, e);
            Total(r.agents) + SumFees(r.jobs) == Total(s.agents) + SumFees(s.jobs) + Deposited(s, owner, e)
  {
    match e
    case Boot =>
    case RentCall(req) =>
      var out := Rent(s.agents, s.providers, s.jobs, req);
      RentConservation(s.agents, s.providers, s.jobs, req);
      assert Step(s, owner, e).agents == out.agents && Step(s, owner, e).jobs == out.jobs;
    case WatchCycle(header, blockAt) =>
      if header.Some? {
        var start := StartCursor(s.cursor, header.value);
        ScanBlocksTotal(s.agents, blockAt, owner, start + 1, header.value);
        assert Step(s, owner, e).agents == ScanBlocks(s.agents, blockAt, owner, start + 1, header.value);
      }
  }

  /** Apply a sequence of events in order. */
  function Run(s: State, owner: string, es: seq<Event>): State
    decreases |es|
  {
    if |es| == 0 then s else Run(Step(s, owner, es[0]), owner, es[1..])
  }

  /** Validity holds after any run from a valid state, in particular from `Initial`. */
  lemma {:induction false} RunKeepsValid(s: State, owner: string, es: seq<Event>)
    requires Valid(s)
    ensures Valid(Run(s, owner, es))
    decreases |es|
  {
    if |es| > 0 {
      StepKeepsValid(s, owner, es[0]);
      RunKeepsValid(Step(s, owner, es[0]), owner, es[1..]);
    }
  }

  /**
   * Over any run the job log only grows at its end and no wallet row
   * disappears; within one process lifetime (a run without a start) the
   * cursor never moves back.
   */
  lemma {:induction false} RunMonotone(s: State, owner: string, es: seq<Event>)
    ensures var r := Run(s, owner, es);
            && |s.jobs| <= |r.jobs| && r.jobs[..|s.jobs|] == s.jobs
            && ((forall i :: 0 <= i < |es| ==> !es[i].Boot?) ==> s.cursor <= r.cursor)
            && s.agents.Keys <= r.agents.Keys
    decreases |es|
  {
    if |es| > 0 {
      var next := Step(s, owner, es[0]);
      RunMonotone(next, owner, es[1..]);
      var r := Run(next, owner, es[1..]);
      assert r.jobs[..|s.jobs|] == r.jobs[..|next.jobs|][..|s.jobs|];
    }
  }

  /**
   * The cursor is not persisted: a watcher cycle, a restart, and a cycle at the
   * same head credit the last ten blocks' deposits twice over.
   */
  lemma RestartRecredits(s: State, owner: string, head: nat, blockAt: int -> seq<Tx>)
    requires s.cursor == 0
    ensures var r := Run(s, owner, [WatchCycle(Some(head), blockAt), Boot, WatchCycle(Some(head), blockAt)]);
            && r.cursor == head
            && forall w :: Balance(r.agents, w) == Balance(s.agents, w) + 2 * RangeDepositsFrom(blockAt, owner, head - 9, head, w)
  {
    var es := [WatchCycle(Some(head), blockAt), Boot, WatchCycle(Some(head), blockAt)];
    var s1 := Step(s, owner, es[0]);
    var s2 := Step(s1, owner, es[1]);
    var s3 := Step(s2, owner, es[2]);
    assert Run(s, owner, es) == Run(s1, owner, es[1..]);
    assert Run(s1, owner, es[1..]) == Run(s2, owner, es[1..][1..]);
    assert Run(s2, owner, es[1..][1..]) == Run(s3, owner, es[1..][1..][1..]);
    assert es[1..][1..][1..] == [];
  }

  /** Whatever the cursor was, a start followed by a cycle at `head` scans blocks head−9..head again. */
  lemma BootThenCycleRescans(s: State, owner: string, head: nat, blockAt: int -> seq<Tx>)
    ensures var r := Step(Step(s, owner, Boot), owner, WatchCycle(Some(head), blockAt));
            && r.cursor == head
            && forall w :: Balance(r.agents, w) == Balance(s.agents, w) + RangeDepositsFrom(blockAt, owner, head - 9, head, w)
  {
  }
}
