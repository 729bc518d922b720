/** The invariants, for every state a queue that started on an empty log can reach. */
module Reachable {
  import opened Codec
  import opened LiveQueue
  import opened Machine
  import opened Agreement
  import opened KeyOrder
  import opened Conservation
  import opened Accounting
  import opened Dedup
  import opened LeaseDiscipline
  import opened Statuses
  import opened Order

  lemma InitialHolds(cfg: Config)
    ensures Inv(cfg, Initial()) && Agrees(Initial())
    ensures ConservationInv(Initial()) && DedupInv(Initial()) && DisciplineInv(Initial()) && SerialInv(Initial())
    ensures Accounted(cfg, Initial().mem) && LogCounted(cfg, Initial().log)
    ensures StatusInv(Initial().mem) && FreshInv(Initial().mem)
  {
    InitialAgrees(cfg);
    hide Inv, Agrees;
    assert multiset(EMPTY.ready) == multiset(EMPTY.index - EMPTY.inflight);
  }

  /** Every in-order run, with any number of restarts: agreement and retry accounting. */
  lemma InOrderStates(cfg: Config, es: seq<Event>)
    requires 0 <= cfg.maxRetries && RunOf(cfg, Initial(), es, InOrder)
    ensures var s := Final(cfg, Initial(), es, InOrder); Inv(cfg, s) && Agrees(s) && Accounted(cfg, s.mem)
  {
    hide Inv, Agrees, ConservationInv, DedupInv, Accounted, RunOf, Final, LogCounted;
    InitialHolds(cfg);
    ReplayRefinesLive(cfg, Initial(), es);
    RetriesAccounted(cfg, Initial(), es);
  }

  /** Every in-order run whose crashes find the writer firm: conservation and deduplication across restarts as well. */
  lemma LastingStates(cfg: Config, es: seq<Event>)
    requires RunOf(cfg, Initial(), es, FirmCrashes)
    ensures RunOf(cfg, Initial(), es, Lasting)
    ensures var s := Final(cfg, Initial(), es, Lasting); Agrees(s) && ConservationInv(s) && DedupInv(s)
  {
    hide Inv, Agrees, ConservationInv, DedupInv, Accounted, RunOf, Final, LogCounted;
    InitialHolds(cfg);
    FirmCrashesLast(cfg, Initial(), es);
    LastingIsInOrder(cfg, Initial(), es);
    ReplayRefinesLive(cfg, Initial(), es);
    RestartsConserve(cfg, Initial(), es);
    BindingsOutliveRestarts(cfg, Initial(), es, []);
  }

  /** Every crash-free run, in order or not: conservation, deduplication, accounting, and when log and memory agree. */
  lemma CrashFreeStates(cfg: Config, es: seq<Event>)
    requires RunOf(cfg, Initial(), es, NoCrash)
    ensures var s := Final(cfg, Initial(), es, NoCrash);
            && ConservationInv(s) && DedupInv(s) && (0 <= cfg.maxRetries ==> Accounted(cfg, s.mem))
            && (Agrees(s) <==> RunOf(cfg, Initial(), es, InOrder))
  {
    hide Inv, Agrees, ConservationInv, DedupInv, RunOf, Final, Accounted, LogCounted;
    InitialHolds(cfg);
    EveryRunConserves(cfg, Initial(), es);
    EnqueueIsAtomic(cfg, Initial(), es, []);
    AgreesIffInOrder(cfg, Initial(), es);
    if 0 <= cfg.maxRetries {
      CrashFreeAccounted(cfg, Initial(), es);
    }
  }

  /**
    * Every disciplined run: the partition, the heap and the statuses, and Dequeue hands out the foremost ready task,
    * exactly when some ready task is due.
    */
  lemma DisciplinedStates(cfg: Config, es: seq<Event>, now: Time)
    requires RunOf(cfg, Initial(), es, Disciplined)
    ensures var m := Final(cfg, Initial(), es, Disciplined).mem;
            && WellFormed(m) && StatusInv(m) && FreshInv(m)
            && (RootDue(m, now) <==> exists id :: id in m.ready && Due(m, id, now))
            && (RootDue(m, now) ==> Foremost(m, m.ready[0]))
  {
    InitialHolds(cfg);
    hide Inv, RunOf, Final, WellFormed, StatusInv, FreshInv, Due;
    DisciplinedRunsStayWellFormed(cfg, Initial(), es);
    StatusesAgree(cfg, Initial(), es);
    RunStaysFresh(cfg, Initial(), es, Disciplined);
    DequeueAgreesWithScan(Final(cfg, Initial(), es, Disciplined).mem, now);
    DequeueTakesForemost(Final(cfg, Initial(), es, Disciplined).mem, now);
  }
}
