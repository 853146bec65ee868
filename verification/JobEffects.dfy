/** What the jobs do to the leave tables: each tenant's ledger is the one its own history of changes leads to,
    and a chunk stands in that history once if it was successful in a real run, and else not at all. */
module JobEffects {
  import opened LeaveAccrual
  import opened LeaveLedger
  import opened JobRuns
  import opened JobInvariants
  import opened JobTheorems

  /** A change of a tenant's leave tables, by a chunk of a run or by the leave service. */
  datatype Entry = ByChunk(run: RunId, no: nat, event: Event) | ByService(event: Event)

  /** The pass over its range that a chunk stands for. */
  function ChunkEvent(run: Run, no: nat): Event
    requires 1 <= no <= |run.chunks|
  {
    RunningJob(run.job, run.asOf, run.chunks[no - 1].range.first, run.chunks[no - 1].range.last)
  }

  /** What an action adds to the history of a tenant: a committed chunk of a real run its pass, a leave event itself. */
  function Added(s: System, a: Action, t: TenantId): seq<Entry> {
    match a
    case Executing(u, id, no) =>
      if u == t && Commits(s, a, id, no) then [ByChunk(id, no, ChunkEvent(s.runs[id], no))] else []
    case Leave(u, event) => if u == t && !event.RunningJob? then [ByService(event)] else []
    case _ => []
  }

  /** The history of a tenant's leave tables. */
  ghost function Trace(actions: seq<Action>, t: TenantId): seq<Entry> {
    if actions == [] then [] else
      var before := actions[..|actions| - 1];
      Trace(before, t) + Added(Reach(INITIAL, before), actions[|actions| - 1], t)
  }

  function Events(trace: seq<Entry>): (es: seq<Event>)
    ensures |es| == |trace|
  {
    if trace == [] then [] else Events(trace[..|trace| - 1]) + [trace[|trace| - 1].event]
  }

  // ---- the ledger is what the history leads to ----

  lemma StepIsAdded(s: System, a: Action, t: TenantId)
    ensures LedgerOf(Advance(s, a), t) == After(LedgerOf(s, t), Events(Added(s, a, t)))
  {
    if Added(s, a, t) == [] {
      NothingAdded(s, a, t);
    } else {
      SomethingAdded(s, a, t);
    }
  }

  lemma NothingAdded(s: System, a: Action, t: TenantId)
    requires Added(s, a, t) == []
    ensures LedgerOf(Advance(s, a), t) == LedgerOf(s, t)
  {
    hide RunChunk, Plan, Next, ChunkTasks, KeyTaken, AnyActive, Finalized, CancelledRun, Retried, Started;
    hide ChunkAttemptFailed, ChunkSucceeded;
  }

  lemma SomethingAdded(s: System, a: Action, t: TenantId)
    requires Added(s, a, t) != []
    ensures LedgerOf(Advance(s, a), t) == Next(LedgerOf(s, t), Added(s, a, t)[0].event) && |Added(s, a, t)| == 1
    ensures After(LedgerOf(s, t), Events(Added(s, a, t))) == Next(LedgerOf(s, t), Added(s, a, t)[0].event)
  {
    hide RunChunk, Submit, Decide, Cancel, Adjust, View, Configure, ChunkSucceeded;
    var added := Added(s, a, t);
    assert added[..0] == [];
    AfterOne(LedgerOf(s, t), added[0].event);
    assert Events(added) == [added[0].event];
  }

  lemma AddsAtMostOne(s: System, a: Action, t: TenantId)
    ensures |Added(s, a, t)| <= 1
  {}

  lemma AfterOne(l: Ledger, e: Event)
    ensures After(l, [e]) == Next(l, e)
  {
    hide Next;
    assert [e][..0] == [];
  }

  lemma {:induction false} AfterConcat(l: Ledger, a: seq<Event>, b: seq<Event>)
    ensures After(l, a + b) == After(After(l, a), b)
  {
    hide Next;
    if b == [] {
      assert a + b == a;
    } else {
      assert (a + b)[..|a + b| - 1] == a + b[..|b| - 1];
      AfterConcat(l, a, b[..|b| - 1]);
    }
  }

  lemma {:induction false} EventsConcat(a: seq<Entry>, b: seq<Entry>)
    ensures Events(a + b) == Events(a) + Events(b)
  {
    if b == [] {
      assert a + b == a;
    } else {
      assert (a + b)[..|a + b| - 1] == a + b[..|b| - 1];
      EventsConcat(a, b[..|b| - 1]);
    }
  }

  /** After any actions, with jobs, users and tasks in any order, a tenant's leave tables are exactly what the
      entries of its history, one after the other, make of empty ones. */
  lemma {:induction false} TraceExplainsLedger(actions: seq<Action>, t: TenantId)
    ensures LedgerOf(Reach(INITIAL, actions), t) == After(EMPTY, Events(Trace(actions, t)))
  {
    hide Advance, Added;
    if actions != [] {
      var before, a := actions[..|actions| - 1], actions[|actions| - 1];
      var s := Reach(INITIAL, before);
      TraceExplainsLedger(before, t);
      StepIsAdded(s, a, t);
      EventsConcat(Trace(before, t), Added(s, a, t));
      AfterConcat(EMPTY, Events(Trace(before, t)), Events(Added(s, a, t)));
    }
  }

  // ---- each chunk once ----

  /** How often a chunk stands in a history. */
  function Occurrences(trace: seq<Entry>, id: RunId, no: nat): nat {
    if trace == [] then 0 else
      var e := trace[|trace| - 1];
      Occurrences(trace[..|trace| - 1], id, no) + (if e.ByChunk? && e.run == id && e.no == no then 1 else 0)
  }

  lemma OneMoreEntry(trace: seq<Entry>, e: Entry, id: RunId, no: nat)
    ensures Occurrences(trace + [e], id, no) ==
            Occurrences(trace, id, no) + (if e.ByChunk? && e.run == id && e.no == no then 1 else 0)
  {
    assert (trace + [e])[..|trace|] == trace;
  }

  predicate InTenant(s: System, id: RunId, t: TenantId) { id in s.runs && s.runs[id].tenant == t }

  lemma AddedCounts(s: System, a: Action, t: TenantId, trace: seq<Entry>, id: RunId, no: nat)
    ensures Occurrences(trace + Added(s, a, t), id, no) ==
            Occurrences(trace, id, no) + (if Commits(s, a, id, no) && InTenant(s, id, t) then 1 else 0)
  {
    hide Occurrences;
    if Added(s, a, t) == [] {
      assert trace + Added(s, a, t) == trace;
    } else {
      OneMoreEntry(trace, Added(s, a, t)[0], id, no);
    }
  }

  lemma TenantStays(s: System, a: Action, id: RunId, no: nat, t: TenantId)
    requires Inv(s) && (IsDone(s, id, no) || Commits(s, a, id, no))
    ensures InTenant(Advance(s, a), id, t) <==> InTenant(s, id, t)
  {
    hide Inv, Advance;
    RunsAreKept(s, a, id);
  }

  /** Exactly one effect under at-least-once delivery: in every reachable state the history of a tenant's leave
      tables holds a chunk of its runs once if the chunk is successful in a real run, and else never. */
  lemma {:induction false} ExactlyOnce(actions: seq<Action>, t: TenantId, id: RunId, no: nat)
    ensures var s := Reach(INITIAL, actions);
            Occurrences(Trace(actions, t), id, no) == if IsDone(s, id, no) && InTenant(s, id, t) then 1 else 0
  {
    hide Advance, Commits, Inv, Added, Occurrences, InTenant, IsDone;
    if actions == [] {
      NoRunsAtFirst(t, id, no);
    } else {
      var before, a := actions[..|actions| - 1], actions[|actions| - 1];
      var s := Reach(INITIAL, before);
      ExactlyOnce(before, t, id, no);
      AlwaysInv(before);
      DoneExactlyByCommit(s, a, id, no);
      AddedCounts(s, a, t, Trace(before, t), id, no);
      if IsDone(s, id, no) || Commits(s, a, id, no) { TenantStays(s, a, id, no, t); }
    }
  }

  lemma NoRunsAtFirst(t: TenantId, id: RunId, no: nat)
    ensures !IsDone(INITIAL, id, no) && Occurrences([], id, no) == 0
  {}

  // ---- and it is the chunk's own pass, reported as it was ----

  /** The entry stands for the chunk as the run has it, and the chunk's output counts what the entry did. */
  ghost predicate EntryRight(s: System, trace: seq<Entry>, i: nat)
    requires i < |trace|
  {
    var e := trace[i];
    e.ByChunk? ==>
      && IsDone(s, e.run, e.no)
      && var run := s.runs[e.run];
      var r := run.chunks[e.no - 1].range;
      && e.event == ChunkEvent(run, e.no)
      && run.chunks[e.no - 1].output ==
         RunChunk(run.job, After(EMPTY, Events(trace[..i])).store, run.asOf, r.first, r.last).1
  }

  lemma DoneChunkStays(s: System, a: Action, id: RunId, no: nat)
    requires Inv(s) && IsDone(s, id, no)
    ensures IsDone(Advance(s, a), id, no)
    ensures Advance(s, a).runs[id].chunks[no - 1] == s.runs[id].chunks[no - 1]
    ensures Advance(s, a).runs[id].job == s.runs[id].job && Advance(s, a).runs[id].asOf == s.runs[id].asOf
  {
    hide Inv, Advance;
    RunsAreKept(s, a, id);
    KeptDone(s.runs[id], Advance(s, a).runs[id], no);
  }

  lemma KeptDone(a: Run, b: Run, no: nat)
    requires RunKept(a, b) && 1 <= no <= |a.chunks| && a.chunks[no - 1].status.ChunkDone?
    ensures no <= |b.chunks| && b.chunks[no - 1] == a.chunks[no - 1] && b.dryRun == a.dryRun
  {}

  lemma OldEntryStays(s: System, a: Action, trace: seq<Entry>, more: seq<Entry>, i: nat)
    requires Inv(s) && i < |trace| && EntryRight(s, trace, i)
    ensures EntryRight(Advance(s, a), trace + more, i)
  {
    hide Inv, Advance, IsDone, RunChunk;
    assert (trace + more)[..i] == trace[..i];
    if trace[i].ByChunk? { DoneChunkStays(s, a, trace[i].run, trace[i].no); }
  }

  lemma CommitShows(s: System, a: Action, id: RunId, no: nat)
    requires Commits(s, a, id, no)
    ensures IsDone(Advance(s, a), id, no)
    ensures var run, run' := s.runs[id], Advance(s, a).runs[id];
            var r := run.chunks[no - 1].range;
            && run'.chunks[no - 1].range == r && run'.job == run.job && run'.asOf == run.asOf
            && run'.chunks[no - 1].output == RunChunk(run.job, StoreOf(s, a.t), run.asOf, r.first, r.last).1
  {
    hide RunChunk, LedgerOf, StoreOf;
  }

  lemma NewEntryIsRight(s: System, a: Action, t: TenantId, trace: seq<Entry>)
    requires LedgerOf(s, t) == After(EMPTY, Events(trace)) && Added(s, a, t) != []
    ensures EntryRight(Advance(s, a), trace + Added(s, a, t), |trace|)
  {
    hide RunChunk, Advance, IsDone, Commits, LedgerOf, Events, LeaveLedger.After;
    if a.Executing? {
      CommitIsEntry(s, a, t);
      hide Added;
      assert (trace + Added(s, a, t))[..|trace|] == trace;
      CommitShows(s, a, a.id, a.no);
    } else {
      assert !Added(s, a, t)[0].ByChunk?;
    }
  }

  lemma CommitIsEntry(s: System, a: Action, t: TenantId)
    requires Added(s, a, t) != [] && a.Executing?
    ensures Commits(s, a, a.id, a.no) && a.t == t && |s.runs[a.id].chunks| >= a.no >= 1
    ensures Added(s, a, t) == [ByChunk(a.id, a.no, ChunkEvent(s.runs[a.id], a.no))]
  {
    hide ChunkEvent;
  }

  /** Each chunk's entry is the pass over its own range for the run's date, made on the tables the history had
      led to by then, and the chunk's stored output counts exactly what it did. */
  lemma {:induction false} EntriesAreRight(actions: seq<Action>, t: TenantId, i: nat)
    requires i < |Trace(actions, t)|
    ensures EntryRight(Reach(INITIAL, actions), Trace(actions, t), i)
  {
    hide Advance, Inv, EntryRight, Added, LedgerOf;
    var before, a := actions[..|actions| - 1], actions[|actions| - 1];
    var s, trace := Reach(INITIAL, before), Trace(before, t);
    AlwaysInv(before);
    if i < |trace| {
      EntriesAreRight(before, t, i);
      OldEntryStays(s, a, trace, Added(s, a, t), i);
    } else {
      TraceExplainsLedger(before, t);
      AddsAtMostOne(s, a, t);
      NewEntryIsRight(s, a, t, trace);
    }
  }
}
