/**
 The recorded history of a case under any interleaving: when the answer of a
 history query is a chain from "new" to the stored status, and when it is not.
 */
module CaseHistory {
  import opened CaseModel
  import opened CaseProtocol
  import opened CaseSafety
  import opened CaseChain
  import opened CaseAtomic

  // ---- What the history table holds, and what it still waits for ----

  /** The saved changes whose entries requests in flight are about to record. */
  ghost function Held(s: State): set<nat> {
    set r | r in s.pending && s.pending[r].Stored? :: s.pending[r].at
  }

  /** The entries still to be recorded, in the order of the saves. */
  function Late(changes: seq<Change>, held: set<nat>): seq<Entry> {
    if changes == [] then []
    else
      var at := |changes| - 1;
      Late(changes[..at], held) +
      (if !changes[at].recorded && at in held then [changes[at].entry] else [])
  }

  /** The history table, once every request in flight has recorded its entry. */
  ghost function Table(s: State): seq<Entry> {
    s.history + Late(s.changes, Held(s))
  }

  /** Whatever a history query may answer is a chain from "new" to the stored status. */
  ghost predicate HistoryChained(s: State, id: string) {
    id in s.rows ==> forall result :: IsHistoryOf(result, Table(s), id) ==> ChainTo(result, s.rows[id].status)
  }

  ghost predicate AlwaysHistoryChained(s: State, steps: seq<Step>, id: string)
    requires Runs(s, steps)
    decreases steps
  {
    HistoryChained(s, id) && (steps == [] || AlwaysHistoryChained(Apply(s, steps[0]), steps[1..], id))
  }

  // ---- What a caller can see go wrong ----

  /** Whether a change of the case was saved at or after a time. */
  ghost predicate ChangedSince(s: State, id: string, time: Time) {
    exists i :: 0 <= i < |Moves(s, id)| && Moves(s, id)[i].performedAt >= time
  }

  /** A save of the case that meets another status than it read, or a transition dated no later than a saved one. */
  ghost predicate OutOfTurn(s: State, step: Step, id: string)
    requires Enabled(s, step)
  {
    && step.Save? && step.ok && s.pending[step.r].copy.id == id && id in s.rows
    && var p := s.pending[step.r];
       s.rows[id].status != p.base.status || (p.call.Transition? && ChangedSince(s, id, p.copy.updatedAt))
  }

  /** The history entry of a saved transition is lost. */
  predicate LosesEntry(s: State, step: Step)
    requires Enabled(s, step)
  {
    (step.Record? && !step.ok) || (step.Die? && s.pending[step.r].Stored?)
  }

  /** The history entry of a saved transition of the case is lost. */
  predicate LosesEntryOf(s: State, step: Step, id: string)
    requires Enabled(s, step)
  {
    LosesEntry(s, step) && s.pending[step.r].entry.caseId == id
  }

  ghost predicate NeverOutOfTurn(s: State, steps: seq<Step>, id: string)
    requires Runs(s, steps)
    decreases steps
  {
    steps == [] || (!OutOfTurn(s, steps[0], id) && NeverOutOfTurn(Apply(s, steps[0]), steps[1..], id))
  }

  ghost predicate NeverLoses(s: State, steps: seq<Step>, id: string)
    requires Runs(s, steps)
    decreases steps
  {
    steps == [] || (!LosesEntryOf(s, steps[0], id) && NeverLoses(Apply(s, steps[0]), steps[1..], id))
  }

  // ---- The table holds the recorded changes, in whatever order ----

  /** One element more stays one element more under a common tail. */
  lemma SumTail<T>(less: seq<T>, more: seq<T>, x: T, tail: seq<T>)
    requires multiset(less) + multiset{x} == multiset(more)
    ensures multiset(less + tail) + multiset{x} == multiset(more + tail)
  {
    assert multiset(less + tail) == multiset(less) + multiset(tail);
    assert multiset(more + tail) == multiset(more) + multiset(tail);
  }

  lemma {:induction false} RecordedAt(changes: seq<Change>, at: nat)
    requires at < |changes| && !changes[at].recorded
    ensures multiset(Recorded(changes[at := Change(changes[at].entry, true)]))
         == multiset(Recorded(changes)) + multiset{changes[at].entry}
  {
    var last := |changes| - 1;
    if at == last {
      RecordedLast(changes);
    } else {
      RecordedAt(changes[..last], at);
      RecordedTail(changes, at);
      SumTail(Recorded(changes[..last]), Recorded(changes[..last][at := Change(changes[at].entry, true)]),
              changes[at].entry, if changes[last].recorded then [changes[last].entry] else []);
    }
  }

  /** Marking an earlier change leaves the last one's part of the table alone. */
  lemma RecordedTail(changes: seq<Change>, at: nat)
    requires at < |changes| - 1
    ensures var last := |changes| - 1;
      var tail := if changes[last].recorded then [changes[last].entry] else [];
      var done := Change(changes[at].entry, true);
      && Recorded(changes) == Recorded(changes[..last]) + tail
      && Recorded(changes[at := done]) == Recorded(changes[..last][at := done]) + tail
  {
    var last := |changes| - 1;
    assert changes[at := Change(changes[at].entry, true)][..last] ==
      changes[..last][at := Change(changes[at].entry, true)];
  }

  ghost predicate TableTold(s: State) {
    multiset(s.history) == multiset(Recorded(s.changes))
  }

  lemma StepKeepsTable(s: State, step: Step)
    requires Enabled(s, step) && ActorKnown(s, step) && TableTold(s)
    ensures TableTold(Apply(s, step))
  {
    if step.Record? && step.ok {
      RecordLogsEntry(s, step);
      assert PendingOk(s, s.pending[step.r]);
      RecordedAt(s.changes, s.pending[step.r].at);
    } else if SavesTransition(s, step) {
      SaveLogsChange(s, step);
      RecordedAppend(s.changes, Change(SaveCopy(s, s.pending[step.r]).changed.value, false));
    } else {
      OthersLogNothing(s, step);
    }
  }

  // ---- The rows of one case ----

  lemma {:induction false} OfCount(entries: seq<Entry>, id: string, e: Entry)
    ensures multiset(Of(entries, id))[e] == if e.caseId == id then multiset(entries)[e] else 0
  {
    if entries == [] {
    } else {
      var init, last := entries[..|entries| - 1], entries[|entries| - 1];
      OfCount(init, id, e);
      assert entries == init + [last];
    }
  }

  lemma SameRows(a: seq<Entry>, b: seq<Entry>, id: string)
    requires multiset(a) == multiset(b)
    ensures multiset(Of(a, id)) == multiset(Of(b, id))
  {
    forall e
      ensures multiset(Of(a, id))[e] == multiset(Of(b, id))[e]
    {
      OfCount(a, id, e);
      OfCount(b, id, e);
    }
  }

  lemma {:induction false} OfConcat(a: seq<Entry>, b: seq<Entry>, id: string)
    ensures Of(a + b, id) == Of(a, id) + Of(b, id)
  {
    if b == [] {
      assert a + b == a;
    } else {
      var init, last := b[..|b| - 1], b[|b| - 1];
      OfConcat(a, init, id);
      assert (a + b)[..|a + b| - 1] == a + init;
    }
  }

  /** No entry of the case is lost: each is recorded, or held by a request. */
  predicate AllKept(changes: seq<Change>, held: set<nat>, id: string) {
    forall i :: 0 <= i < |changes| && changes[i].entry.caseId == id && !changes[i].recorded ==> i in held
  }

  lemma EntriesLast(changes: seq<Change>, id: string)
    requires changes != []
    ensures var at := |changes| - 1;
      Of(Entries(changes), id) ==
        Of(Entries(changes[..at]), id) + (if changes[at].entry.caseId == id then [changes[at].entry] else [])
  {
    assert Entries(changes)[..|changes| - 1] == Entries(changes[..|changes| - 1]);
  }

  lemma RecordedRowsLast(changes: seq<Change>, id: string)
    requires changes != []
    ensures var last := changes[|changes| - 1];
      Of(Recorded(changes), id) == Of(Recorded(changes[..|changes| - 1]), id) +
        (if last.recorded && last.entry.caseId == id then [last.entry] else [])
  {
    var last := changes[|changes| - 1];
    if last.recorded {
      OfAppend(Recorded(changes[..|changes| - 1]), last.entry, id);
    } else {
      assert Recorded(changes) == Recorded(changes[..|changes| - 1]);
    }
  }

  lemma LateRowsLast(changes: seq<Change>, held: set<nat>, id: string)
    requires changes != []
    ensures var at := |changes| - 1;
      Of(Late(changes, held), id) == Of(Late(changes[..at], held), id) +
        (if !changes[at].recorded && at in held && changes[at].entry.caseId == id then [changes[at].entry] else [])
  {
    var at := |changes| - 1;
    if !changes[at].recorded && at in held {
      OfAppend(Late(changes[..at], held), changes[at].entry, id);
    } else {
      assert Late(changes, held) == Late(changes[..at], held);
    }
  }

  lemma {:induction false} KeptRows(changes: seq<Change>, held: set<nat>, id: string)
    requires AllKept(changes, held, id)
    ensures multiset(Of(Recorded(changes), id)) + multiset(Of(Late(changes, held), id))
         == multiset(Of(Entries(changes), id))
  {
    if changes == [] {
    } else {
      KeptRows(changes[..|changes| - 1], held, id);
      EntriesLast(changes, id);
      RecordedRowsLast(changes, id);
      LateRowsLast(changes, held, id);
    }
  }

  lemma {:induction false} LateWithout(changes: seq<Change>, held: set<nat>, at: nat)
    requires at < |changes| && !changes[at].recorded && at in held
    ensures multiset(Late(changes, held - {at})) + multiset{changes[at].entry} == multiset(Late(changes, held))
  {
    var last := |changes| - 1;
    if at == last {
      LateOutside(changes[..last], held, at);
    } else {
      LateWithout(changes[..last], held, at);
      LateLast(changes, held);
      LateLast(changes, held - {at});
      assert last in held <==> last in held - {at};
      SumTail(Late(changes[..last], held - {at}), Late(changes[..last], held), changes[at].entry,
              if !changes[last].recorded && last in held then [changes[last].entry] else []);
    }
  }

  lemma LateLast(changes: seq<Change>, held: set<nat>)
    requires changes != []
    ensures var last := |changes| - 1;
      Late(changes, held) == Late(changes[..last], held) +
        (if !changes[last].recorded && last in held then [changes[last].entry] else [])
  {
  }

  lemma {:induction false} LateOutside(changes: seq<Change>, held: set<nat>, at: nat)
    requires |changes| <= at
    ensures Late(changes, held - {at}) == Late(changes, held)
  {
    if changes == [] {
    } else {
      LateOutside(changes[..|changes| - 1], held, at);
    }
  }

  /** With no entry lost, the rows of a case are its saved changes. */
  lemma RowsAreMoves(s: State, id: string)
    requires TableTold(s) && AllKept(s.changes, Held(s), id)
    ensures multiset(Of(Table(s), id)) == multiset(Moves(s, id))
  {
    SameRows(s.history, Recorded(s.changes), id);
    OfConcat(s.history, Late(s.changes, Held(s)), id);
    KeptRows(s.changes, Held(s), id);
  }

  // ---- Chains that an entry too many or too few breaks ----

  predicate Linked(entries: seq<Entry>) {
    && (entries != [] ==> entries[0].from == NEW)
    && forall i {:trigger entries[i]} :: 0 < i < |entries| ==> entries[i - 1].to == entries[i].from
  }

  function End(entries: seq<Entry>): string {
    if entries == [] then NEW else entries[|entries| - 1].to
  }

  lemma {:induction false} ChainIsLinked(entries: seq<Entry>, status: string)
    ensures ChainTo(entries, status) <==> Linked(entries) && End(entries) == status
  {
    if entries == [] {
    } else {
      var init, last := entries[..|entries| - 1], entries[|entries| - 1];
      ChainIsLinked(init, last.from);
      if init != [] {
        assert End(init) == entries[|entries| - 2].to;
      }
      if Linked(init) && End(init) == last.from {
        forall i | 0 < i < |entries|
          ensures entries[i - 1].to == entries[i].from
        {
          if i < |init| { assert init[i - 1].to == init[i].from; }
        }
      }
      if Linked(entries) {
        forall i | 0 < i < |init|
          ensures init[i - 1].to == init[i].from
        {
          assert entries[i - 1].to == entries[i].from;
        }
      }
    }
  }

  lemma InsertedBreaks(entries: seq<Entry>, e: Entry, j: nat, status: string)
    requires Linked(entries) && j < |entries| && e.from != e.to
    ensures !ChainTo(entries[..j] + [e] + entries[j..], status)
  {
    var longer := entries[..j] + [e] + entries[j..];
    ChainIsLinked(longer, status);
    assert longer[j] == e && longer[j + 1] == entries[j];
    assert j > 0 ==> longer[j - 1] == entries[j - 1];
  }

  lemma RemovedBreaks(entries: seq<Entry>, j: nat)
    requires Linked(entries) && j < |entries| && entries[j].from != entries[j].to
    ensures !ChainTo(entries[..j] + entries[j + 1..], End(entries))
  {
    var shorter := entries[..j] + entries[j + 1..];
    ChainIsLinked(shorter, End(entries));
    assert j > 0 ==> shorter[j - 1] == entries[j - 1] && entries[j - 1].to == entries[j].from;
    assert j < |entries| - 1 ==> shorter[j] == entries[j + 1] && entries[j].to == entries[j + 1].from;
  }

  /** How many entries are earlier than e. */
  lemma {:induction false} FirstNotEarlier(entries: seq<Entry>, e: Entry) returns (j: nat)
    ensures j <= |entries|
    ensures forall i :: 0 <= i < j ==> entries[i].performedAt < e.performedAt
    ensures j < |entries| ==> entries[j].performedAt >= e.performedAt
  {
    j := 0;
    while j < |entries| && entries[j].performedAt < e.performedAt
      invariant j <= |entries|
      invariant forall i :: 0 <= i < j ==> entries[i].performedAt < e.performedAt
    {
      j := j + 1;
    }
  }

  lemma InsertedInOrder(entries: seq<Entry>, e: Entry, j: nat)
    requires Ascending(entries) && j <= |entries|
    requires forall i :: 0 <= i < j ==> entries[i].performedAt < e.performedAt
    requires j < |entries| ==> entries[j].performedAt >= e.performedAt
    ensures NeverFalling(entries[..j] + [e] + entries[j..])
  {
    var longer := entries[..j] + [e] + entries[j..];
    forall i, k | 0 <= i < k < |longer|
      ensures longer[i].performedAt <= longer[k].performedAt
    {
      assert longer[i] == if i < j then entries[i] else if i == j then e else entries[i - 1];
      assert longer[k] == if k < j then entries[k] else if k == j then e else entries[k - 1];
    }
  }

  lemma InsertedElements(entries: seq<Entry>, e: Entry, j: nat)
    requires j <= |entries|
    ensures multiset(entries[..j] + [e] + entries[j..]) == multiset(entries + [e])
  {
    assert entries == entries[..j] + entries[j..];
  }

  /** One more entry that does not continue the chain, or not last: some order by time is no chain. */
  lemma AddedBreaks(entries: seq<Entry>, e: Entry, end: string, status: string) returns (result: seq<Entry>)
    requires Ascending(entries) && ChainTo(entries, end) && e.from != e.to
    requires e.from != end || exists i :: 0 <= i < |entries| && entries[i].performedAt >= e.performedAt
    ensures multiset(result) == multiset(entries + [e]) && NeverFalling(result) && !ChainTo(result, status)
  {
    var j := FirstNotEarlier(entries, e);
    result := entries[..j] + [e] + entries[j..];
    InsertedInOrder(entries, e, j);
    InsertedElements(entries, e, j);
    if j < |entries| {
      ChainIsLinked(entries, end);
      InsertedBreaks(entries, e, j, status);
    } else {
      assert result == entries + [e];
      ChainAppend(entries, e, status);
      ChainEndUnique(entries, end, e.from);
    }
  }

  lemma WithoutOne(entries: seq<Entry>, j: nat)
    requires Ascending(entries) && j < |entries|
    ensures multiset(entries[..j] + entries[j + 1..]) + multiset{entries[j]} == multiset(entries)
    ensures NeverFalling(entries[..j] + entries[j + 1..])
  {
    assert entries == entries[..j] + ([entries[j]] + entries[j + 1..]);
    var shorter := entries[..j] + entries[j + 1..];
    forall i, k | 0 <= i < k < |shorter|
      ensures shorter[i].performedAt <= shorter[k].performedAt
    {
      assert shorter[i] == entries[if i < j then i else i + 1] && shorter[k] == entries[if k < j then k else k + 1];
    }
  }

  /** One entry less: the rest is no chain to the same end. */
  lemma MissingBreaks(entries: seq<Entry>, e: Entry, end: string) returns (result: seq<Entry>)
    requires Ascending(entries) && ChainTo(entries, end) && e in entries && e.from != e.to
    ensures multiset(result) + multiset{e} == multiset(entries) && NeverFalling(result) && !ChainTo(result, end)
  {
    var j :| 0 <= j < |entries| && entries[j] == e;
    result := entries[..j] + entries[j + 1..];
    WithoutOne(entries, j);
    ChainIsLinked(entries, end);
    RemovedBreaks(entries, j);
  }

  // ---- One step of a history that tells everything so far ----

  /** No entry of the case is lost, its saved changes rise in time, and they chain to the stored status. */
  ghost predicate Telling(s: State, id: string) {
    && AllKept(s.changes, Held(s), id) && Ascending(Moves(s, id)) && Chained(s, id)
    && (id !in s.rows ==> Moves(s, id) == [])
  }

  lemma TellingIsChained(s: State, id: string)
    requires TableTold(s) && Telling(s, id)
    ensures HistoryChained(s, id)
    ensures forall result :: IsHistoryOf(result, Table(s), id) ==> result == Moves(s, id)
  {
    RowsAreMoves(s, id);
    forall result | IsHistoryOf(result, Table(s), id)
      ensures result == Moves(s, id)
    {
      OnlyArrangement(result, Moves(s, id));
    }
  }

  lemma OthersStay(s: State, step: Step, r: nat)
    requires Enabled(s, step) && r in s.pending && (step.AddTemplate? || r != step.r)
    ensures r in Apply(s, step).pending && Apply(s, step).pending[r] == s.pending[r]
  {
  }

  /** The claim on a saved change that the step gives up. */
  predicate Releases(s: State, step: Step, i: nat)
    requires Enabled(s, step)
  {
    (step.Record? || step.Die?) && s.pending[step.r].Stored? && s.pending[step.r].at == i
  }

  lemma HeldWasHeld(s: State, step: Step, i: nat)
    requires Enabled(s, step) && RequestsOk(s) && i < |s.changes| && i in Held(Apply(s, step))
    ensures i in Held(s) && !Releases(s, step, i)
  {
    var t := Apply(s, step);
    var r :| r in t.pending && t.pending[r].Stored? && t.pending[r].at == i;
    StepFrame(s, step, r);
    assert r in s.pending && s.pending[r] == t.pending[r];
    assert step.AddTemplate? || r == step.r || step.r !in s.pending || Disjoint(s.pending[r], s.pending[step.r]);
  }

  lemma HeldStaysHeld(s: State, step: Step, i: nat)
    requires Enabled(s, step) && i in Held(s) && !Releases(s, step, i)
    ensures i in Held(Apply(s, step))
  {
    var r :| r in s.pending && s.pending[r].Stored? && s.pending[r].at == i;
    OthersStay(s, step, r);
  }

  /** What a step does to the claims on saved changes. */
  lemma HeldAfter(s: State, step: Step, i: nat)
    requires Enabled(s, step) && RequestsOk(s) && i < |s.changes|
    ensures i in Held(Apply(s, step)) <==> i in Held(s) && !Releases(s, step, i)
  {
    if i in Held(Apply(s, step)) {
      HeldWasHeld(s, step, i);
    } else if i in Held(s) && !Releases(s, step, i) {
      HeldStaysHeld(s, step, i);
    }
  }

  /** A transition that was just saved is held by the request that saved it. */
  lemma SavedIsHeld(s: State, step: Step)
    requires Enabled(s, step) && SavesTransition(s, step)
    ensures |s.changes| in Held(Apply(s, step))
  {
    var t := Apply(s, step);
    assert step.r in t.pending && t.pending[step.r].Stored? && t.pending[step.r].at == |s.changes|;
  }

  lemma ChangesAfterStep(s: State, step: Step)
    requires Enabled(s, step) && ActorKnown(s, step)
    ensures |Apply(s, step).changes| == if SavesTransition(s, step) then |s.changes| + 1 else |s.changes|
    ensures forall i :: 0 <= i < |s.changes| ==>
      && Apply(s, step).changes[i].entry == s.changes[i].entry
      && (Apply(s, step).changes[i].recorded <==>
            s.changes[i].recorded || (step.Record? && step.ok && s.pending[step.r].at == i))
  {
    if step.Record? && step.ok {
      RecordLogsEntry(s, step);
    } else if SavesTransition(s, step) {
      SaveLogsChange(s, step);
    } else {
      OthersLogNothing(s, step);
    }
  }

  lemma StepKeepsEntriesKept(s: State, step: Step, id: string)
    requires Safe(s) && Enabled(s, step) && AllKept(s.changes, Held(s), id) && !LosesEntryOf(s, step, id)
    ensures AllKept(Apply(s, step).changes, Held(Apply(s, step)), id)
  {
    var t := Apply(s, step);
    ChangesAfterStep(s, step);
    forall i | 0 <= i < |t.changes| && t.changes[i].entry.caseId == id && !t.changes[i].recorded
      ensures i in Held(t)
    {
      if i < |s.changes| {
        HeldAfter(s, step, i);
      } else {
        SavedIsHeld(s, step);
      }
    }
  }

  lemma StepKeepsAscending(s: State, step: Step, id: string)
    requires Safe(s) && Enabled(s, step) && Ascending(Moves(s, id)) && !OutOfTurn(s, step, id)
    ensures Ascending(Moves(Apply(s, step), id))
  {
    MovesAfter(s, step, id);
    if step.Save? && s.pending[step.r].copy.id == id {
      assert PendingOk(s, s.pending[step.r]);
    }
  }

  lemma StepKeepsTelling(s: State, step: Step, id: string)
    requires Safe(s) && Enabled(s, step) && Telling(s, id)
    requires !OutOfTurn(s, step, id) && !LosesEntryOf(s, step, id)
    ensures Telling(Apply(s, step), id)
  {
    StepKeepsEntriesKept(s, step, id);
    StepKeepsAscending(s, step, id);
    assert !Stale(s, step, id);
    StepKeepsChain(s, step, id);
    StepKeepsSafe(s, step);
    if id !in Apply(s, step).rows { NoMovesBeforeInsert(Apply(s, step), id); }
  }

  /** What losing an entry leaves: the tables as they were, and one claim less. */
  lemma LossEffect(s: State, step: Step)
    requires Safe(s) && Enabled(s, step) && LosesEntry(s, step)
    ensures var t, p := Apply(s, step), s.pending[step.r];
      && t.history == s.history && t.changes == s.changes && t.rows == s.rows && Held(t) == Held(s) - {p.at}
      && p.at < |s.changes| && s.changes[p.at] == Change(p.entry, false) && p.at in Held(s)
      && p.entry.from != p.entry.to && p.entry.caseId in s.rows
  {
    assert PendingOk(s, s.pending[step.r]);
    HeldWithout(s, step);
  }

  lemma SameWithout<T>(a: seq<T>, b: seq<T>, x: T)
    requires multiset(a) + multiset{x} == multiset(b) + multiset{x}
    ensures multiset(a) == multiset(b)
  {
    assert multiset(a) == (multiset(a) + multiset{x}) - multiset{x};
    assert multiset(b) == (multiset(b) + multiset{x}) - multiset{x};
  }

  lemma LossLeavesGap(s: State, t: State, at: nat, id: string)
    requires TableTold(s) && Telling(s, id) && id in s.rows
    requires t.history == s.history && t.changes == s.changes && t.rows == s.rows && Held(t) == Held(s) - {at}
    requires at < |s.changes| && at in Held(s) && !s.changes[at].recorded
    requires s.changes[at].entry.caseId == id && s.changes[at].entry.from != s.changes[at].entry.to
    ensures !HistoryChained(t, id)
  {
    var e := s.changes[at].entry;
    EntryAmongMoves(s.changes, id, at);
    var result := MissingBreaks(Moves(s, id), e, s.rows[id].status);
    assert IsHistoryOf(result, Table(t), id) by {
      RowsAreMoves(s, id);
      RowsWithout(s, id, at);
      SameWithout(result, Of(Table(t), id), e);
    }
  }

  /** Losing one entry leaves a query that misses a link. */
  lemma LossBreaks(s: State, step: Step, id: string)
    requires Safe(s) && TableTold(s) && Enabled(s, step) && Telling(s, id) && LosesEntryOf(s, step, id)
    ensures !HistoryChained(Apply(s, step), id)
  {
    LossEffect(s, step);
    LossLeavesGap(s, Apply(s, step), s.pending[step.r].at, id);
  }

  lemma HeldWithout(s: State, step: Step)
    requires Enabled(s, step) && RequestsOk(s) && LosesEntry(s, step)
    ensures Held(Apply(s, step)) == Held(s) - {s.pending[step.r].at}
  {
    var t := Apply(s, step);
    forall i | i in Held(s) || i in Held(t)
      ensures i in Held(t) <==> i in Held(s) - {s.pending[step.r].at}
    {
      if i in Held(t) {
        var r :| r in t.pending && t.pending[r].Stored? && t.pending[r].at == i;
        StepFrame(s, step, r);
        assert PendingOk(s, s.pending[r]);
      } else {
        var r :| r in s.pending && s.pending[r].Stored? && s.pending[r].at == i;
        assert PendingOk(s, s.pending[r]);
      }
      HeldAfter(s, step, i);
    }
  }

  lemma RowsWithout(s: State, id: string, at: nat)
    requires at < |s.changes| && !s.changes[at].recorded && at in Held(s) && s.changes[at].entry.caseId == id
    ensures multiset(Of(s.history + Late(s.changes, Held(s) - {at}), id)) + multiset{s.changes[at].entry}
         == multiset(Of(Table(s), id))
  {
    var e, less := s.changes[at].entry, Late(s.changes, Held(s) - {at});
    LateWithout(s.changes, Held(s), at);
    SameRows(s.history + less + [e], Table(s), id);
    OfAppend(s.history + less, e, id);
  }

  lemma {:induction false} EntryAmongMoves(changes: seq<Change>, id: string, at: nat)
    requires at < |changes| && changes[at].entry.caseId == id
    ensures changes[at].entry in Of(Entries(changes), id)
  {
    EntriesLast(changes, id);
    if at == |changes| - 1 {
    } else {
      EntryAmongMoves(changes[..|changes| - 1], id, at);
    }
  }

  lemma OutOfTurnAtTable(s: State, step: Step, id: string)
    requires Safe(s) && TableTold(s) && Enabled(s, step) && Telling(s, id) && OutOfTurn(s, step, id)
    ensures var t, p := Apply(s, step), s.pending[step.r];
      && id in t.rows && multiset(Of(Table(t), id)) == multiset(Moves(t, id))
      && (if p.call.Transition?
          then var e := SaveCopy(s, p).changed.value;
            Moves(t, id) == Moves(s, id) + [e] && e.from == p.base.status && e.from != e.to
          else Moves(t, id) == Moves(s, id) && t.rows[id].status == p.base.status)
  {
    assert PendingOk(s, s.pending[step.r]);
    StepKeepsEntriesKept(s, step, id);
    StepKeepsTable(s, step);
    RowsAreMoves(Apply(s, step), id);
    MovesAfter(s, step, id);
    StatusAfter(s, step, id);
  }

  /** A save out of turn leaves a query whose answer is no chain to the stored status. */
  lemma OutOfTurnBreaks(s: State, step: Step, id: string)
    requires Safe(s) && TableTold(s) && Enabled(s, step) && Telling(s, id) && OutOfTurn(s, step, id)
    ensures !HistoryChained(Apply(s, step), id)
  {
    OutOfTurnAtTable(s, step, id);
    var t, p, end := Apply(s, step), s.pending[step.r], s.rows[id].status;
    if p.call.Transition? {
      var result := AddedBreaks(Moves(s, id), SaveCopy(s, p).changed.value, end, t.rows[id].status);
      assert IsHistoryOf(result, Table(t), id);
    } else {
      assert IsHistoryOf(Moves(s, id), Table(t), id);
      ChainEndUnique(Moves(s, id), end, p.base.status);
    }
  }

  // ---- Main results ----

  lemma {:induction false} HistoryWhileTelling(s: State, steps: seq<Step>, id: string)
    requires Safe(s) && TableTold(s) && Telling(s, id) && Runs(s, steps)
    ensures AlwaysHistoryChained(s, steps, id) <==> NeverOutOfTurn(s, steps, id) && NeverLoses(s, steps, id)
    decreases steps
  {
    TellingIsChained(s, id);
    if steps == [] {
    } else {
      var t := Apply(s, steps[0]);
      StepKeepsSafe(s, steps[0]);
      StepKeepsTable(s, steps[0]);
      if OutOfTurn(s, steps[0], id) {
        OutOfTurnBreaks(s, steps[0], id);
      } else if LosesEntryOf(s, steps[0], id) {
        LossBreaks(s, steps[0], id);
      } else {
        StepKeepsTelling(s, steps[0], id);
        HistoryWhileTelling(t, steps[1..], id);
      }
    }
  }

  lemma InitialTells(s: State, id: string)
    requires Initial(s)
    ensures Safe(s) && TableTold(s) && Telling(s, id)
  {
  }

  /**
   In any interleaving, with any failures: at every moment of the run the history
   of the case, its entries in flight included, is a chain from "new" to the
   stored status in every order by time a query may answer in, if and only if no
   save of the case was out of turn and no entry of it was lost.
   */
  lemma HistoryChainedIffInTurn(s: State, steps: seq<Step>, id: string)
    requires Initial(s) && Runs(s, steps)
    ensures AlwaysHistoryChained(s, steps, id) <==> NeverOutOfTurn(s, steps, id) && NeverLoses(s, steps, id)
  {
    InitialTells(s, id);
    HistoryWhileTelling(s, steps, id);
  }

  // ---- What the chain tells ----

  /** No request is about to record an entry of the case. */
  predicate Settled(s: State, id: string) {
    forall r :: r in s.pending && s.pending[r].Stored? ==> s.pending[r].entry.caseId != id
  }

  lemma {:induction false} NothingLate(changes: seq<Change>, held: set<nat>, id: string)
    requires forall i :: 0 <= i < |changes| && i in held ==> changes[i].entry.caseId != id
    ensures Of(Late(changes, held), id) == []
  {
    if changes == [] {
    } else {
      NothingLate(changes[..|changes| - 1], held, id);
      LateRowsLast(changes, held, id);
    }
  }

  lemma HeldElsewhere(s: State, id: string)
    requires Safe(s) && Settled(s, id)
    ensures forall i :: 0 <= i < |s.changes| && i in Held(s) ==> s.changes[i].entry.caseId != id
  {
    forall i | 0 <= i < |s.changes| && i in Held(s)
      ensures s.changes[i].entry.caseId != id
    {
      var r :| r in s.pending && s.pending[r].Stored? && s.pending[r].at == i;
      assert PendingOk(s, s.pending[r]);
    }
  }

  lemma SettledTable(s: State, id: string)
    requires Safe(s) && Settled(s, id)
    ensures Of(Table(s), id) == Of(s.history, id)
  {
    HeldElsewhere(s, id);
    NothingLate(s.changes, Held(s), id);
    OfConcat(s.history, Late(s.changes, Held(s)), id);
  }

  /** A save that is not stale logs the change it makes. */
  lemma StepLogsRealChange(s: State, step: Step, id: string)
    requires Safe(s) && Enabled(s, step) && !Stale(s, step, id)
    ensures EndPoints(Moves(Apply(s, step), id)) == EndPoints(Moves(s, id)) + ChangeAt(s, step, id)
  {
    MovesAfter(s, step, id);
    if step.Save? && step.ok { assert PendingOk(s, s.pending[step.r]); }
    if id in s.rows && id in Apply(s, step).rows {
      StatusAfter(s, step, id);
    }
  }

  lemma {:induction false} TellingWhileInTurn(s: State, steps: seq<Step>, id: string)
    requires Safe(s) && TableTold(s) && Telling(s, id)
    requires Runs(s, steps) && NeverOutOfTurn(s, steps, id) && NeverLoses(s, steps, id)
    ensures Safe(Run(s, steps)) && TableTold(Run(s, steps)) && Telling(Run(s, steps), id)
    ensures EndPoints(Moves(Run(s, steps), id)) == StatusChanges(s, steps, id, EndPoints(Moves(s, id)))
    decreases steps
  {
    if steps == [] {
    } else {
      StepKeepsSafe(s, steps[0]);
      StepKeepsTable(s, steps[0]);
      StepKeepsTelling(s, steps[0], id);
      assert !Stale(s, steps[0], id);
      StepLogsRealChange(s, steps[0], id);
      TellingWhileInTurn(Apply(s, steps[0]), steps[1..], id);
    }
  }

  /**
   In any interleaving with every save of the case in turn and no entry of it
   lost: once nothing of it is in flight, a history query has one answer, the
   real status changes of the case, and they chain from "new" to its status.
   */
  lemma HistoryInTurnIsStatusChanges(s: State, steps: seq<Step>, id: string, result: seq<Entry>)
    requires Initial(s) && Runs(s, steps) && NeverOutOfTurn(s, steps, id) && NeverLoses(s, steps, id)
    requires Settled(Run(s, steps), id) && IsHistoryOf(result, Run(s, steps).history, id)
    ensures result == Moves(Run(s, steps), id)
    ensures EndPoints(result) == StatusChanges(s, steps, id, [])
    ensures id in Run(s, steps).rows ==> ChainTo(result, Run(s, steps).rows[id].status)
  {
    InitialTells(s, id);
    assert Moves(s, id) == [] && EndPoints([]) == [];
    TellingWhileInTurn(s, steps, id);
    SettledTable(Run(s, steps), id);
    assert IsHistoryOf(result, Table(Run(s, steps)), id);
    TellingIsChained(Run(s, steps), id);
  }

  // ---- Calls that do not overlap ----

  lemma {:induction false} RunKeepsEntriesKept(s: State, steps: seq<Step>, id: string)
    requires Safe(s) && AllKept(s.changes, Held(s), id) && Runs(s, steps) && NeverLoses(s, steps, id)
    ensures Safe(Run(s, steps)) && AllKept(Run(s, steps).changes, Held(Run(s, steps)), id)
    decreases steps
  {
    if steps == [] {
    } else {
      StepKeepsSafe(s, steps[0]);
      StepKeepsEntriesKept(s, steps[0], id);
      RunKeepsEntriesKept(Apply(s, steps[0]), steps[1..], id);
    }
  }

  lemma {:induction false} AllRecorded(changes: seq<Change>, id: string)
    requires forall i :: 0 <= i < |changes| && changes[i].entry.caseId == id ==> changes[i].recorded
    ensures Of(Recorded(changes), id) == Of(Entries(changes), id)
  {
    if changes == [] {
    } else {
      AllRecorded(changes[..|changes| - 1], id);
      EntriesLast(changes, id);
      RecordedRowsLast(changes, id);
    }
  }

  lemma SettledIsRecorded(s: State, id: string)
    requires Safe(s) && Settled(s, id) && AllKept(s.changes, Held(s), id)
    ensures Of(Recorded(s.changes), id) == Moves(s, id)
  {
    HeldElsewhere(s, id);
    forall i | 0 <= i < |s.changes| && s.changes[i].entry.caseId == id
      ensures s.changes[i].recorded
    {
      assert i !in Held(s);
    }
    AllRecorded(s.changes, id);
  }

  /**
   Calls that do not overlap, no entry of the case lost and none in flight: its
   history, in the order of the table, is a chain from "new" to its stored status,
   equal to its real status changes, and its stamps are the times of the latest
   entries into their status: unset exactly when there is none, and kept across
   reopening.
   */
  lemma CompleteHistory(s: State, steps: seq<Step>, id: string)
    requires Initial(s) && Runs(s, steps) && AtomicRun(s, steps) && NeverLoses(s, steps, id)
    requires Settled(Run(s, steps), id) && id in Run(s, steps).rows
    ensures var t := Run(s, steps);
      && ChainTo(Of(t.history, id), t.rows[id].status)
      && EndPoints(Of(t.history, id)) == StatusChanges(s, steps, id, [])
      && t.rows[id].resolvedAt == LastEntry(Of(t.history, id), RESOLVED)
      && t.rows[id].closedAt == LastEntry(Of(t.history, id), CLOSED)
  {
    InitialTells(s, id);
    RunKeepsEntriesKept(s, steps, id);
    SettledIsRecorded(Run(s, steps), id);
    HistoryIsStatusChanges(s, steps, id);
    StampsAreLastChanges(s, steps, id);
  }

  // ---- A rising clock and saves that overwrite nothing ----

  /** A save of the case that replaces another row than the one its request read. */
  predicate Overwrites(s: State, step: Step, id: string)
    requires Enabled(s, step)
  {
    && step.Save? && step.ok && s.pending[step.r].copy.id == id
    && id in s.rows && s.rows[id] != s.pending[step.r].base
  }

  ghost predicate NeverOverwrites(s: State, steps: seq<Step>, id: string)
    requires Runs(s, steps)
    decreases steps
  {
    steps == [] || (!Overwrites(s, steps[0], id) && NeverOverwrites(Apply(s, steps[0]), steps[1..], id))
  }

  /** Every reading of the clock is later than the one before. */
  ghost predicate ClockRises(s: State, steps: seq<Step>)
    requires Runs(s, steps)
    decreases steps
  {
    steps == [] ||
    ((ReadsClock(steps[0]) ==> steps[0].now > s.clock) && ClockRises(Apply(s, steps[0]), steps[1..]))
  }

  /** No copy comes from the future, and an edit is dated after the row it was made from. */
  predicate Dated(p: Pending, clock: Time) {
    match p
    case Fetched(_, base) => base.updatedAt <= clock
    case Permitted(_, base) => base.updatedAt <= clock
    case Edited(call, base, copy) =>
      && base.updatedAt <= copy.updatedAt <= clock
      && (call.Transition? ==> base.updatedAt < copy.updatedAt)
    case Timed(_, _, now) => now <= clock
    case Drafted(copy) => copy.updatedAt <= clock
    case _ => true
  }

  ghost predicate AllDated(s: State) {
    && (forall id :: id in s.rows ==> s.rows[id].updatedAt <= s.clock)
    && (forall r :: r in s.pending ==> Dated(s.pending[r], s.clock))
  }

  /** The row of the case is at least as young as every saved change of it. */
  ghost predicate RowYoungest(s: State, id: string) {
    id in s.rows ==> !ChangedSince(s, id, s.rows[id].updatedAt + 1)
  }

  lemma ActorDated(s: State, step: Step)
    requires Enabled(s, step) && !step.AddTemplate? && step.r in Apply(s, step).pending
    requires ReadsClock(step) ==> step.now > s.clock
    requires step.r in s.pending ==> Dated(s.pending[step.r], s.clock)
    requires step.Read? ==> s.rows[step.call.id].updatedAt <= s.clock
    ensures Dated(Apply(s, step).pending[step.r], Apply(s, step).clock)
  {
  }

  lemma StepKeepsDated(s: State, step: Step)
    requires Enabled(s, step) && AllDated(s) && (ReadsClock(step) ==> step.now > s.clock)
    ensures AllDated(Apply(s, step))
  {
    var t := Apply(s, step);
    if !step.AddTemplate? { RowWritten(s, step); }
    forall r | r in t.pending
      ensures Dated(t.pending[r], t.clock)
    {
      StepFrame(s, step, r);
      if !step.AddTemplate? && r == step.r { ActorDated(s, step); }
    }
  }

  lemma NoOverwriteNotOutOfTurn(s: State, step: Step, id: string)
    requires Enabled(s, step) && AllDated(s) && RowYoungest(s, id) && !Overwrites(s, step, id)
    ensures !OutOfTurn(s, step, id)
  {
    if step.Save? && step.ok && s.pending[step.r].copy.id == id {
      assert Dated(s.pending[step.r], s.clock);
    }
  }

  /** What a save that overwrites nothing writes: a row no older, and a change dated like it. */
  lemma SavedAfterRow(s: State, step: Step, id: string)
    requires Safe(s) && Enabled(s, step) && AllDated(s) && !Overwrites(s, step, id)
    requires step.Save? && step.ok && s.pending[step.r].copy.id == id
    ensures id in s.rows && id in Apply(s, step).rows
    ensures s.rows[id].updatedAt <= Apply(s, step).rows[id].updatedAt
    ensures s.pending[step.r].call.Transition? ==>
      SaveCopy(s, s.pending[step.r]).changed.value.performedAt == Apply(s, step).rows[id].updatedAt
  {
    assert Dated(s.pending[step.r], s.clock) && PendingOk(s, s.pending[step.r]);
  }

  lemma OtherRowsStay(s: State, step: Step, id: string)
    requires Enabled(s, step) && id in s.rows
    requires !(step.Save? && step.ok && s.pending[step.r].copy.id == id)
    requires step.Insert? ==> s.pending[step.r].copy.id != id
    ensures id in Apply(s, step).rows && Apply(s, step).rows[id] == s.rows[id]
  {
    if !step.AddTemplate? { RowWritten(s, step); }
  }

  lemma YoungestAfter(s: State, t: State, id: string)
    requires RowYoungest(s, id) && id in t.rows
    requires id in s.rows ==> s.rows[id].updatedAt <= t.rows[id].updatedAt
    requires id !in s.rows ==> Moves(s, id) == []
    requires Moves(t, id) == Moves(s, id) ||
      (|Moves(t, id)| == |Moves(s, id)| + 1 && Moves(t, id)[..|Moves(s, id)|] == Moves(s, id) &&
       Moves(t, id)[|Moves(s, id)|].performedAt <= t.rows[id].updatedAt)
    ensures RowYoungest(t, id)
  {
    forall i | 0 <= i < |Moves(t, id)|
      ensures Moves(t, id)[i].performedAt <= t.rows[id].updatedAt
    {
      if i < |Moves(s, id)| {
        assert Moves(s, id)[i] == Moves(t, id)[i];
        assert Moves(s, id)[i].performedAt < s.rows[id].updatedAt + 1;
      }
    }
  }

  lemma SaveKeepsYoungest(s: State, step: Step, id: string)
    requires Safe(s) && Enabled(s, step) && AllDated(s) && RowYoungest(s, id) && !Overwrites(s, step, id)
    requires step.Save? && step.ok && s.pending[step.r].copy.id == id
    ensures RowYoungest(Apply(s, step), id)
  {
    MovesAfter(s, step, id);
    SavedAfterRow(s, step, id);
    YoungestAfter(s, Apply(s, step), id);
  }

  lemma OthersKeepYoungest(s: State, step: Step, id: string)
    requires Enabled(s, step) && RowYoungest(s, id)
    requires !(step.Save? && step.ok && s.pending[step.r].copy.id == id)
    requires if id in s.rows then step.Insert? ==> s.pending[step.r].copy.id != id else Moves(s, id) == []
    ensures RowYoungest(Apply(s, step), id)
  {
    MovesAfter(s, step, id);
    if id in s.rows { OtherRowsStay(s, step, id); }
  }

  lemma StepKeepsYoungest(s: State, step: Step, id: string)
    requires Safe(s) && Enabled(s, step) && AllDated(s) && RowYoungest(s, id) && !Overwrites(s, step, id)
    requires id !in s.rows ==> Moves(s, id) == []
    ensures RowYoungest(Apply(s, step), id)
  {
    if step.Save? && step.ok && s.pending[step.r].copy.id == id {
      SaveKeepsYoungest(s, step, id);
    } else {
      if step.Insert? { assert PendingOk(s, s.pending[step.r]); }
      OthersKeepYoungest(s, step, id);
    }
  }

  lemma {:induction false} NoOverwriteIsInTurn(s: State, steps: seq<Step>, id: string)
    requires Safe(s) && AllDated(s) && RowYoungest(s, id)
    requires Runs(s, steps) && ClockRises(s, steps) && NeverOverwrites(s, steps, id)
    ensures NeverOutOfTurn(s, steps, id)
    decreases steps
  {
    if steps == [] {
    } else {
      if id !in s.rows { NoMovesBeforeInsert(s, id); }
      StepKeepsSafe(s, steps[0]);
      StepKeepsDated(s, steps[0]);
      NoOverwriteNotOutOfTurn(s, steps[0], id);
      StepKeepsYoungest(s, steps[0], id);
      NoOverwriteIsInTurn(Apply(s, steps[0]), steps[1..], id);
    }
  }

  /**
   What it takes of callers: while the clock rises, no save of the case overwrites
   a row its request did not read, no entry is lost and nothing is left in flight,
   a history query answers the real status changes, a chain to the stored status.
   */
  lemma HistoryWithoutOverwrites(s: State, steps: seq<Step>, id: string, result: seq<Entry>)
    requires Initial(s) && Runs(s, steps) && ClockRises(s, steps)
    requires NeverOverwrites(s, steps, id) && NeverLoses(s, steps, id)
    requires Settled(Run(s, steps), id) && IsHistoryOf(result, Run(s, steps).history, id)
    ensures EndPoints(result) == StatusChanges(s, steps, id, [])
    ensures id in Run(s, steps).rows ==> ChainTo(result, Run(s, steps).rows[id].status)
  {
    NoOverwriteIsInTurn(s, steps, id);
    HistoryInTurnIsStatusChanges(s, steps, id, result);
  }
}
