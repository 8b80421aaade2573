/**
 Runs in which calls do not overlap and every clock reading is later than the
 last: the recorded history is the sequence of real status changes, and the
 resolution and closing stamps are read off it.
 */
module CaseAtomic {
  import opened Prelude
  import opened CaseModel
  import opened CaseProtocol
  import opened CaseSafety
  import opened CaseChain

  predicate Begins(step: Step) {
    step.Read? || step.TakeNumber?
  }

  predicate ReadsClock(step: Step) {
    step.GetCheck? || step.UpdateEdit? || step.AssignEdit? || step.Stamp? || step.CreateClock?
  }

  /** A call begins only when none is in flight, and the clock moves between readings. */
  predicate AtomicStep(s: State, step: Step) {
    Enabled(s, step) && (Begins(step) ==> s.pending == map[]) && (ReadsClock(step) ==> step.now > s.clock)
  }

  ghost predicate AtomicRun(s: State, steps: seq<Step>)
    requires Runs(s, steps)
    decreases steps
  {
    steps == [] || (AtomicStep(s, steps[0]) && AtomicRun(Apply(s, steps[0]), steps[1..]))
  }

  /** The time a case last entered a status. */
  function LastEntry(entries: seq<Entry>, status: string): Option<Time> {
    if entries == [] then None
    else
      var last := entries[|entries| - 1];
      if last.to == status then Some(last.performedAt) else LastEntry(entries[..|entries| - 1], status)
  }

  lemma LastEntryAppend(entries: seq<Entry>, e: Entry, status: string)
    ensures LastEntry(entries + [e], status) ==
      if e.to == status then Some(e.performedAt) else LastEntry(entries, status)
  {
    assert (entries + [e])[..|entries|] == entries;
  }

  /** The changes whose history entry was written. */
  function Recorded(changes: seq<Change>): seq<Entry> {
    if changes == [] then []
    else
      var last := changes[|changes| - 1];
      Recorded(changes[..|changes| - 1]) + (if last.recorded then [last.entry] else [])
  }

  lemma RecordedAppend(changes: seq<Change>, c: Change)
    ensures Recorded(changes + [c]) == Recorded(changes) + (if c.recorded then [c.entry] else [])
  {
    assert (changes + [c])[..|changes|] == changes;
  }

  /** Stamps of a stored row as the status changes tell them. */
  ghost predicate StampsTold(s: State, c: Case, id: string) {
    && c.resolvedAt == LastEntry(Moves(s, id), RESOLVED)
    && c.closedAt == LastEntry(Moves(s, id), CLOSED)
  }

  /** What an edit does to the stamps; the same in every interleaving. */
  predicate EditTold(call: Call, base: Case, copy: Case) {
    if call.Transition? then
      && copy.resolvedAt == (if call.to == RESOLVED then Some(copy.updatedAt) else base.resolvedAt)
      && copy.closedAt == (if call.to == CLOSED then Some(copy.updatedAt) else base.closedAt)
    else copy.resolvedAt == base.resolvedAt && copy.closedAt == base.closedAt
  }

  /** In an atomic run a request always holds the row as it is stored. */
  ghost predicate UpToDate(s: State, p: Pending) {
    match p
    case Fetched(_, base) => base.id in s.rows && base == s.rows[base.id]
    case Permitted(_, base) => base.id in s.rows && base == s.rows[base.id]
    case Edited(call, base, copy) =>
      && base.id in s.rows && base == s.rows[base.id] && EditTold(call, base, copy)
      && (call.Transition? ==> copy.updatedAt <= s.clock && Later(s.changes, copy.updatedAt))
    case Stored(_, at) => at == |s.changes| - 1
    case Drafted(copy) => copy.resolvedAt == copy.closedAt == None
    case _ => true
  }

  predicate Later(changes: seq<Change>, now: Time) {
    forall i :: 0 <= i < |changes| ==> changes[i].entry.performedAt < now
  }

  ghost predicate InOrder(changes: seq<Change>) {
    forall i, j :: 0 <= i < j < |changes| ==> changes[i].entry.performedAt < changes[j].entry.performedAt
  }

  ghost predicate Solo(s: State) {
    && (forall r, q :: r in s.pending && q in s.pending ==> r == q)
    && (forall r :: r in s.pending ==> UpToDate(s, s.pending[r]))
  }

  ghost predicate Told(s: State) {
    && s.history == Recorded(s.changes)
    && InOrder(s.changes) && Later(s.changes, s.clock + 1)
    && (forall id :: id in s.rows ==> StampsTold(s, s.rows[id], id))
  }

  /** The acting request, when it is already in flight, satisfies both invariants. */
  ghost predicate ActorFresh(s: State, step: Step) {
    !step.AddTemplate? && step.r in s.pending ==>
      PendingOk(s, s.pending[step.r]) && UpToDate(s, s.pending[step.r])
  }

  lemma OnlyActor(s: State, step: Step)
    requires AtomicStep(s, step) && Solo(s)
    ensures forall r :: r in Apply(s, step).pending ==> step.AddTemplate? || r == step.r
  {
    if !step.AddTemplate? {
      forall r | r in Apply(s, step).pending
        ensures r == step.r
      {
        if r != step.r { OthersKept(s, step, r); }
      }
    }
  }

  lemma EditUpToDate(s: State, step: Step)
    requires AtomicStep(s, step) && Later(s.changes, s.clock + 1)
    requires step.GetCheck? || step.UpdateEdit? || step.AssignEdit? || step.Stamp?
    requires step.r in Apply(s, step).pending && UpToDate(s, s.pending[step.r])
    ensures UpToDate(Apply(s, step), Apply(s, step).pending[step.r])
  {
  }

  lemma ActorUpToDate(s: State, step: Step)
    requires AtomicStep(s, step) && Later(s.changes, s.clock + 1)
    requires !step.AddTemplate? && step.r in Apply(s, step).pending
    requires step.r in s.pending ==> UpToDate(s, s.pending[step.r])
    requires step.Read? ==> s.rows[step.call.id].id == step.call.id
    ensures UpToDate(Apply(s, step), Apply(s, step).pending[step.r])
  {
    if step.GetCheck? || step.UpdateEdit? || step.AssignEdit? || step.Stamp? {
      EditUpToDate(s, step);
    }
  }

  lemma StepKeepsSolo(s: State, step: Step)
    requires Safe(s) && AtomicStep(s, step) && Solo(s) && Later(s.changes, s.clock + 1)
    ensures Solo(Apply(s, step))
  {
    OnlyActor(s, step);
    var t := Apply(s, step);
    forall r | r in t.pending
      ensures UpToDate(t, t.pending[r])
    {
      if !step.AddTemplate? {
        ActorUpToDate(s, step);
      }
    }
  }

  lemma RecordedLast(changes: seq<Change>)
    requires changes != [] && !changes[|changes| - 1].recorded
    ensures var at := |changes| - 1;
      Recorded(changes[at := Change(changes[at].entry, true)]) == Recorded(changes) + [changes[at].entry]
  {
    var at := |changes| - 1;
    assert changes == changes[..at] + [changes[at]];
    assert changes[at := Change(changes[at].entry, true)] == changes[..at] + [Change(changes[at].entry, true)];
    RecordedAppend(changes[..at], changes[at]);
    RecordedAppend(changes[..at], Change(changes[at].entry, true));
  }

  lemma StepKeepsHistory(s: State, step: Step)
    requires AtomicStep(s, step) && ActorFresh(s, step)
    requires s.history == Recorded(s.changes)
    ensures Apply(s, step).history == Recorded(Apply(s, step).changes)
  {
    if step.Record? && step.ok {
      RecordLogsEntry(s, step);
      RecordedLast(s.changes);
    } else if SavesTransition(s, step) {
      SaveLogsChange(s, step);
      RecordedAppend(s.changes, Change(SaveCopy(s, s.pending[step.r]).changed.value, false));
    } else {
      OthersLogNothing(s, step);
    }
  }

  lemma StepKeepsOrder(s: State, step: Step)
    requires AtomicStep(s, step)
    requires step.Save? ==> UpToDate(s, s.pending[step.r])
    requires InOrder(s.changes) && Later(s.changes, s.clock + 1)
    ensures InOrder(Apply(s, step).changes) && Later(Apply(s, step).changes, Apply(s, step).clock + 1)
  {
    if !step.AddTemplate? {
      RowWritten(s, step);
    }
  }

  lemma StepKeepsStamps(s: State, step: Step, id: string)
    requires AtomicStep(s, step) && ActorFresh(s, step) && id in Apply(s, step).rows
    requires if id in s.rows then StampsTold(s, s.rows[id], id) else Moves(s, id) == []
    ensures StampsTold(Apply(s, step), Apply(s, step).rows[id], id)
  {
    MovesAfter(s, step, id);
    if !step.AddTemplate? {
      RowWritten(s, step);
      if step.Save? && step.ok && s.pending[step.r].copy.id == id && s.pending[step.r].call.Transition? {
        var e := SaveCopy(s, s.pending[step.r]).changed.value;
        LastEntryAppend(Moves(s, id), e, RESOLVED);
        LastEntryAppend(Moves(s, id), e, CLOSED);
      }
    }
  }

  lemma StepKeepsTold(s: State, step: Step)
    requires Safe(s) && AtomicStep(s, step) && Solo(s) && Told(s)
    ensures Told(Apply(s, step)) && Solo(Apply(s, step))
  {
    StepKeepsSolo(s, step);
    StepKeepsHistory(s, step);
    StepKeepsOrder(s, step);
    var t := Apply(s, step);
    forall id | id in t.rows
      ensures StampsTold(t, t.rows[id], id)
    {
      if id !in s.rows { NoMovesBeforeInsert(s, id); }
      StepKeepsStamps(s, step, id);
    }
  }

  /** Without overlap no save is stale. */
  lemma AtomicStepNotStale(s: State, step: Step, id: string)
    requires AtomicStep(s, step) && Solo(s)
    requires Safe(s)
    ensures !Stale(s, step, id)
  {
    if step.Save? {
      assert UpToDate(s, s.pending[step.r]) && PendingOk(s, s.pending[step.r]);
    }
  }

  // ---- The real status changes of a run, read off the stored rows alone ----

  /** The (old, new) statuses of the case's row, if the step changes its status. */
  function ChangeAt(s: State, step: Step, id: string): seq<(string, string)>
    requires Enabled(s, step)
  {
    var t := Apply(s, step);
    if id in s.rows && id in t.rows && s.rows[id].status != t.rows[id].status
    then [(s.rows[id].status, t.rows[id].status)] else []
  }

  /** seen, followed by every (old, new) pair of statuses the case's row goes through in the run. */
  function StatusChanges(s: State, steps: seq<Step>, id: string, seen: seq<(string, string)>): seq<(string, string)>
    requires Runs(s, steps)
    decreases steps
  {
    if steps == [] then seen
    else StatusChanges(Apply(s, steps[0]), steps[1..], id, seen + ChangeAt(s, steps[0], id))
  }

  function EndPoints(entries: seq<Entry>): (p: seq<(string, string)>)
    ensures |p| == |entries|
    ensures forall i :: 0 <= i < |p| ==> p[i] == (entries[i].from, entries[i].to)
  {
    seq(|entries|, i requires 0 <= i < |entries| => (entries[i].from, entries[i].to))
  }

  lemma StepLogsChange(s: State, step: Step, id: string)
    requires AtomicStep(s, step) && ActorFresh(s, step)
    ensures
      EndPoints(Moves(Apply(s, step), id)) == EndPoints(Moves(s, id)) + ChangeAt(s, step, id)
  {
    MovesAfter(s, step, id);
    if id in s.rows && id in Apply(s, step).rows {
      StatusAfter(s, step, id);
    }
  }

  /** Everything an atomic step keeps, and what it logs. */
  lemma AtomicStepKeeps(s: State, step: Step, id: string)
    requires Safe(s) && Solo(s) && Told(s) && AtomicStep(s, step)
    ensures Safe(Apply(s, step)) && Solo(Apply(s, step)) && Told(Apply(s, step))
    ensures EndPoints(Moves(Apply(s, step), id)) == EndPoints(Moves(s, id)) + ChangeAt(s, step, id)
    ensures !Stale(s, step, id)
  {
    StepKeepsSafe(s, step);
    StepKeepsTold(s, step);
    StepLogsChange(s, step, id);
    AtomicStepNotStale(s, step, id);
  }

  lemma {:induction false} AtomicRunKeeps(s: State, steps: seq<Step>, id: string)
    requires Safe(s) && Solo(s) && Told(s) && Runs(s, steps) && AtomicRun(s, steps)
    ensures Safe(Run(s, steps)) && Solo(Run(s, steps)) && Told(Run(s, steps))
    ensures NeverStale(s, steps, id)
    decreases steps
  {
    if steps == [] {
    } else {
      AtomicStepKeeps(s, steps[0], id);
      AtomicRunKeeps(Apply(s, steps[0]), steps[1..], id);
    }
  }

  lemma {:induction false} RunLogsChanges(s: State, steps: seq<Step>, id: string)
    requires Safe(s) && Solo(s) && Told(s) && Runs(s, steps) && AtomicRun(s, steps)
    ensures EndPoints(Moves(Run(s, steps), id)) == StatusChanges(s, steps, id, EndPoints(Moves(s, id)))
    decreases steps
  {
    if steps == [] {
    } else {
      AtomicStepKeeps(s, steps[0], id);
      RunLogsChanges(Apply(s, steps[0]), steps[1..], id);
    }
  }

  // ---- Main results ----

  /**
   Atomic calls, any failures: the history table is the list of saved changes
   minus those whose recording failed; the saved changes are the case's real
   status changes, in order; and they chain from "new" to the stored status.
   */
  lemma HistoryIsStatusChanges(s: State, steps: seq<Step>, id: string)
    requires Initial(s) && Runs(s, steps) && AtomicRun(s, steps)
    ensures var t := Run(s, steps);
      && t.history == Recorded(t.changes)
      && EndPoints(Moves(t, id)) == StatusChanges(s, steps, id, [])
      && (id in t.rows ==> ChainTo(Moves(t, id), t.rows[id].status))
  {
    assert Moves(s, id) == [] && EndPoints([]) == [];
    AtomicRunKeeps(s, steps, id);
    RunLogsChanges(s, steps, id);
    ChainIffNoStaleSave(s, steps, id);
    ChainedAtEnd(s, steps, id);
    assert Chained(Run(s, steps), id);
  }

  lemma {:induction false} ChainedAtEnd(s: State, steps: seq<Step>, id: string)
    requires Runs(s, steps) && AlwaysChained(s, steps, id)
    ensures Chained(Run(s, steps), id)
    decreases steps
  {
    if steps == [] {
    } else {
      ChainedAtEnd(Apply(s, steps[0]), steps[1..], id);
    }
  }

  /** Atomic calls, any failures: the stamps are the times of the last change into their status. */
  lemma StampsAreLastChanges(s: State, steps: seq<Step>, id: string)
    requires Initial(s) && Runs(s, steps) && AtomicRun(s, steps) && id in Run(s, steps).rows
    ensures var t := Run(s, steps);
      && t.rows[id].resolvedAt == LastEntry(Moves(t, id), RESOLVED)
      && t.rows[id].closedAt == LastEntry(Moves(t, id), CLOSED)
  {
    AtomicRunKeeps(s, steps, id);
  }

  // ---- What GetTransitionHistory returns ----

  /** A query result ordered by performed_at: some arrangement of the case's rows, times never falling. */
  ghost predicate IsHistoryOf(result: seq<Entry>, table: seq<Entry>, id: string) {
    multiset(result) == multiset(Of(table, id)) && NeverFalling(result)
  }

  ghost predicate Ascending(entries: seq<Entry>) {
    forall i, j :: 0 <= i < j < |entries| ==> entries[i].performedAt < entries[j].performedAt
  }

  lemma {:induction false} OfAscending(entries: seq<Entry>, id: string)
    requires Ascending(entries)
    ensures Ascending(Of(entries, id))
    ensures forall e :: e in Of(entries, id) ==> e in entries
  {
    if entries == [] {
    } else {
      var init, last := entries[..|entries| - 1], entries[|entries| - 1];
      OfAscending(init, id);
      forall e | e in Of(init, id)
        ensures e.performedAt < last.performedAt
      {
        var i :| 0 <= i < |init| && init[i] == e;
        assert entries[i] == e;
      }
    }
  }

  lemma {:induction false} RecordedAscending(changes: seq<Change>)
    requires InOrder(changes)
    ensures Ascending(Recorded(changes))
    ensures forall e :: e in Recorded(changes) ==> exists i :: 0 <= i < |changes| && changes[i].entry == e
  {
    if changes == [] {
    } else {
      var init, last := changes[..|changes| - 1], changes[|changes| - 1];
      RecordedAscending(init);
      forall e | e in Recorded(init)
        ensures e.performedAt < last.entry.performedAt
      {
        var i :| 0 <= i < |init| && init[i].entry == e;
        assert changes[i].entry == e;
      }
      forall e | e in Recorded(changes)
        ensures exists i :: 0 <= i < |changes| && changes[i].entry == e
      {
        if e in Recorded(init) {
          var i :| 0 <= i < |init| && init[i].entry == e;
          assert changes[i].entry == e;
        } else {
          assert changes[|changes| - 1].entry == e;
        }
      }
    }
  }

  ghost predicate NeverFalling(entries: seq<Entry>) {
    forall i, j :: 0 <= i < j < |entries| ==> entries[i].performedAt <= entries[j].performedAt
  }

  lemma LastAgrees(result: seq<Entry>, entries: seq<Entry>)
    requires multiset(result) == multiset(entries) && Ascending(entries) && NeverFalling(result)
    requires entries != [] && |result| == |entries|
    ensures result[|result| - 1] == entries[|entries| - 1]
  {
    var a, b := result[|result| - 1], entries[|entries| - 1];
    assert a in multiset(entries) && b in multiset(result);
    var i :| 0 <= i < |entries| && entries[i] == a;
    var j :| 0 <= j < |result| && result[j] == b;
    assert b.performedAt <= a.performedAt;
  }

  lemma DropSameLast<T>(a: seq<T>, b: seq<T>)
    requires multiset(a) == multiset(b) && a != [] && b != []
    requires a[|a| - 1] == b[|b| - 1]
    ensures multiset(a[..|a| - 1]) == multiset(b[..|b| - 1])
  {
    var x := a[|a| - 1];
    assert a == a[..|a| - 1] + [x] && b == b[..|b| - 1] + [x];
    assert multiset(a[..|a| - 1]) == multiset(a) - multiset{x};
    assert multiset(b[..|b| - 1]) == multiset(b) - multiset{x};
  }

  lemma SameLength<T>(a: seq<T>, b: seq<T>)
    requires multiset(a) == multiset(b)
    ensures |a| == |b|
  {
    assert |a| == |multiset(a)| == |multiset(b)| == |b|;
  }

  /** A strictly ordered list is the only ordered arrangement of its elements. */
  lemma {:induction false} OnlyArrangement(result: seq<Entry>, entries: seq<Entry>)
    requires multiset(result) == multiset(entries) && Ascending(entries) && NeverFalling(result)
    ensures result == entries
  {
    SameLength(result, entries);
    if entries == [] {
    } else {
      LastAgrees(result, entries);
      DropSameLast(result, entries);
      OnlyArrangement(result[..|result| - 1], entries[..|entries| - 1]);
      assert result == result[..|result| - 1] + [result[|result| - 1]];
    }
  }

  /** In atomic runs ordering by time returns the entries in the order they were written. */
  lemma HistoryQueryIsTableOrder(s: State, steps: seq<Step>, id: string, result: seq<Entry>)
    requires Initial(s) && Runs(s, steps) && AtomicRun(s, steps)
    requires IsHistoryOf(result, Run(s, steps).history, id)
    ensures result == Of(Run(s, steps).history, id)
  {
    AtomicRunKeeps(s, steps, id);
    var t := Run(s, steps);
    RecordedAscending(t.changes);
    OfAscending(t.history, id);
    OnlyArrangement(result, Of(t.history, id));
  }
}
