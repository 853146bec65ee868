/** What holds in every state the whole system can reach: jobs, schedules and leave together. */
module SystemTheorems {
  import opened JobHistory
  import opened LeaveAccrual
  import opened LeaveLedger
  import LedgerInvariants
  import LedgerTheorems
  import opened JobRuns
  import opened JobInvariants

  /** The positions of the chunks with a status. */
  function With(cs: seq<Chunk>, status: ChunkStatus): set<int> { set i | 0 <= i < |cs| && cs[i].status == status }

  lemma {:induction false} CountIsCardinality(cs: seq<Chunk>, status: ChunkStatus)
    ensures CountStatus(cs, status) == |With(cs, status)|
  {
    if cs != [] {
      var n := |cs| - 1;
      CountIsCardinality(cs[..n], status);
      assert With(cs, status) == if cs[n].status == status then With(cs[..n], status) + {n} else With(cs[..n], status);
    }
  }

  /** The stored status of a run is the one its chunks dictate. */
  predicate TellsTruth(run: Run) {
    var pending, done := |With(run.chunks, ChunkPending)|, |With(run.chunks, ChunkDone)|;
    var failed, cancelled := |With(run.chunks, ChunkFailed)|, |With(run.chunks, ChunkCancelled)|;
    && pending + done + failed + cancelled == run.total
    && (run.finished <==> !IsActive(run.status))
    && match run.status
       case Queued => run.total == 0
       case Running => run.total > 0 && cancelled == 0 && run.done <= done && run.failed <= failed
       case RunCancelled => pending == 0
       case Succeeded => done == run.total == run.done && failed == run.failed == 0
       case Partial => run.done == done > 0 && run.failed == failed > 0 && done + failed == run.total
       case RunFailed => run.done == done == 0 && run.failed == failed == run.total && (run.total == 0 <==> run.error)
  }

  lemma SoundRunTellsTruth(run: Run)
    requires RunOk(run)
    ensures TellsTruth(run)
  {
    hide ChunkOk, CountStatus, SumOutputs;
    CountIsCardinality(run.chunks, ChunkPending);
    CountIsCardinality(run.chunks, ChunkDone);
    CountIsCardinality(run.chunks, ChunkFailed);
    CountIsCardinality(run.chunks, ChunkCancelled);
    CountsAddUp(run.chunks);
    CountZero(run.chunks, ChunkPending);
    CountZero(run.chunks, ChunkCancelled);
  }

  /** After any actions, in any order, every run's status and counters tell the truth about its chunks. */
  lemma RunsTellTruth(actions: seq<Action>, id: RunId)
    ensures var s := Reach(INITIAL, actions); id in s.runs ==> TellsTruth(s.runs[id])
  {
    hide TellsTruth, RunOk;
    AlwaysInv(actions);
    var s := Reach(INITIAL, actions);
    if id in s.runs { SoundRunTellsTruth(s.runs[id]); }
  }

  /** After any actions, of users, schedules and workers, each balance of each tenant agrees with the request
      history, shows at most the weekdays of a year, and has expired no more than was carried over. */
  lemma BalancesAreSound(actions: seq<Action>, t: TenantId, k: Key)
    ensures var l := LedgerOf(Reach(INITIAL, actions), t);
            k in l.store.balances ==>
              var b := l.store.balances[k];
              && b.pending == LedgerInvariants.SumDays(l.requests, k, Pending)
              && b.used == LedgerInvariants.SumDays(l.requests, k, Approved)
              && 0 <= b.used && 0 <= b.pending && b.used + b.pending <= 262
              && 0 <= b.expired <= b.carried
  {
    hide LedgerInvariants.StoreOk, LedgerInvariants.NoOverlap, LedgerInvariants.RequestOk;
    var l := LedgerOf(Reach(INITIAL, actions), t);
    LedgerIsSound(actions, t);
    if k in l.store.balances {
      assert LedgerInvariants.Agrees(l.store, l.requests, k);
      LedgerTheorems.BalanceFitsTheYear(l, k);
      BalanceIsSound(l, k);
    }
  }

  lemma LedgerIsSound(actions: seq<Action>, t: TenantId)
    ensures LedgerInvariants.Inv(LedgerOf(Reach(INITIAL, actions), t))
  {
    hide LedgerInvariants.Inv, RunOk;
    AlwaysInv(actions);
    LedgerInvariants.InitInv();
  }

  lemma BalanceIsSound(l: Ledger, k: Key)
    requires LedgerInvariants.Inv(l) && k in l.store.balances
    ensures 0 <= l.store.balances[k].expired <= l.store.balances[k].carried
  {
    hide LedgerInvariants.NoOverlap, LedgerInvariants.RequestOk, LedgerInvariants.BalancesAgree, HistoryOk;
    assert LedgerInvariants.BalanceOk(l.store.balances[k], k);
  }
}
