/** What holds of the case table after every interleaving of any number of requests. */
module CaseSafety {
  import opened CaseModel
  import opened CaseProtocol

  // ---- What every copy of a case satisfies, stored or private ----

  ghost predicate StatusOk(s: State, c: Case) {
    c.Attached() && c.id !in s.unchecked && c.status != NEW ==>
      c.workflowId.value in s.templates && Reachable(s.templates[c.workflowId.value].transitions, c.status)
  }

  predicate StampsOk(c: Case) {
    (c.status == RESOLVED ==> c.resolvedAt.Some?) && (c.status == CLOSED ==> c.closedAt.Some?)
  }

  /** A deadline was set from the template's hours; there is none without a template. */
  predicate DeadlineOk(s: State, c: Case) {
    c.dueAt.Some? ==>
      && c.Attached() && c.workflowId.value in s.templates
      && s.templates[c.workflowId.value].slaHours > 0
      && c.dueAt.value == c.createdAt + SlaDuration(s.templates[c.workflowId.value].slaHours)
  }

  ghost predicate Good(s: State, c: Case) {
    && StatusOk(s, c) && StampsOk(c) && DeadlineOk(s, c)
    && (c.breached ==> PastDue(c, s.clock))
  }

  /** A move of case c along its template, unless some lookup for the case failed. */
  predicate MoveOk(s: State, c: Case, from: string, to: string) {
    from != to &&
    (c.Attached() && c.id !in s.unchecked ==>
       c.workflowId.value in s.templates && HasEdge(s.templates[c.workflowId.value].transitions, from, to))
  }

  predicate EntryOk(s: State, e: Entry) {
    e.caseId in s.rows && s.rows[e.caseId].id == e.caseId && MoveOk(s, s.rows[e.caseId], e.from, e.to)
  }

  ghost predicate CopyOk(s: State, c: Case) {
    c.id in s.rows && SameIdentity(c, s.rows[c.id]) && Good(s, c)
  }

  ghost predicate PendingOk(s: State, p: Pending) {
    match p
    case Fetched(call, base) => call.id == base.id && CopyOk(s, base)
    case Permitted(call, base) =>
      call.Transition? && call.id == base.id && CopyOk(s, base) && MoveOk(s, base, base.status, call.to)
    case Edited(call, base, copy) =>
      && call.id == base.id == copy.id && CopyOk(s, base) && CopyOk(s, copy)
      && (if call.Transition? then copy.status == call.to && MoveOk(s, base, base.status, call.to)
          else copy.status == base.status)
    case Stored(e, at) => at < |s.changes| && s.changes[at] == Change(e, false) && EntryOk(s, e)
    case Numbered(draft, _) => AcceptsDraft(draft)
    case Timed(draft, _, now) => AcceptsDraft(draft) && now <= s.clock
    case Drafted(copy) =>
      copy.id in s.ids && copy.id !in s.rows && Good(s, copy) && copy.status == NEW
  }

  /** Requests hold disjoint claims: no two draw the same id or the same change. */
  predicate Disjoint(p: Pending, q: Pending) {
    && (p.Drafted? && q.Drafted? ==> p.copy.id != q.copy.id)
    && (p.Stored? && q.Stored? ==> p.at != q.at)
  }

  ghost predicate RowsOk(s: State) {
    forall id :: id in s.rows ==> id in s.ids && s.rows[id].id == id && Good(s, s.rows[id])
  }

  ghost predicate RequestsOk(s: State) {
    && (forall r :: r in s.pending ==> PendingOk(s, s.pending[r]))
    && (forall r, q :: r in s.pending && q in s.pending && r != q ==> Disjoint(s.pending[r], s.pending[q]))
  }

  ghost predicate EntriesOk(s: State) {
    && (forall i :: 0 <= i < |s.history| ==> EntryOk(s, s.history[i]))
    && (forall i :: 0 <= i < |s.changes| ==> EntryOk(s, s.changes[i].entry))
  }

  ghost predicate Safe(s: State) {
    RowsOk(s) && RequestsOk(s) && EntriesOk(s)
  }

  // ---- Steps only add knowledge ----

  /** t knows all that s knows, and every case keeps its identity. */
  ghost predicate Extends(s: State, t: State) {
    && s.clock <= t.clock && s.ids <= t.ids && s.unchecked <= t.unchecked
    && (forall w :: w in s.templates ==> w in t.templates && t.templates[w] == s.templates[w])
    && (forall id :: id in s.rows ==> id in t.rows && SameIdentity(s.rows[id], t.rows[id]))
  }

  lemma GoodExtends(s: State, t: State, c: Case)
    requires Extends(s, t) && Good(s, c)
    ensures Good(t, c)
  {
  }

  lemma EntryExtends(s: State, t: State, e: Entry)
    requires Extends(s, t) && EntryOk(s, e)
    ensures EntryOk(t, e)
  {
  }

  /** The acting request, when it is already in flight, satisfies its invariant. */
  ghost predicate ActorKnown(s: State, step: Step) {
    !step.AddTemplate? && step.r in s.pending ==> PendingOk(s, s.pending[step.r])
  }

  /** What a step needs to know of the copy it writes. */
  ghost predicate WritesKnown(s: State, step: Step)
    requires Enabled(s, step)
  {
    && (step.Save? ==> CopyOk(s, s.pending[step.r].copy))
    && (step.Insert? ==> s.pending[step.r].copy.id !in s.rows)
  }

  /** Only Save and Insert write a row, and they write the private copy. */
  lemma RowWritten(s: State, step: Step)
    requires Enabled(s, step) && !step.AddTemplate?
    ensures Act(s, step).clock >= s.clock
    ensures Act(s, step).row.Some? ==>
      (step.Save? || step.Insert?) && Act(s, step).row.value == s.pending[step.r].copy
  {
  }

  lemma StepExtends(s: State, step: Step)
    requires Enabled(s, step) && WritesKnown(s, step)
    ensures Extends(s, Apply(s, step))
  {
    if !step.AddTemplate? {
      RowWritten(s, step);
    }
  }

  /** A claim survives whatever other requests do, as long as its change or fresh id is left alone. */
  lemma PendingExtends(s: State, t: State, p: Pending)
    requires Extends(s, t) && PendingOk(s, p)
    requires p.Stored? ==> p.at < |t.changes| && t.changes[p.at] == s.changes[p.at]
    requires p.Drafted? ==> p.copy.id !in t.rows
    ensures PendingOk(t, p)
  {
    match p
    case Fetched(_, base) => GoodExtends(s, t, base);
    case Permitted(_, base) => GoodExtends(s, t, base);
    case Edited(_, base, copy) => GoodExtends(s, t, base); GoodExtends(s, t, copy);
    case Stored(e, _) => EntryExtends(s, t, e);
    case Drafted(copy) => GoodExtends(s, t, copy);
    case _ =>
  }

  lemma ChangesUntouched(s: State, step: Step, at: nat)
    requires Enabled(s, step) && at < |s.changes|
    requires step.Record? ==> s.pending[step.r].at != at
    ensures at < |Apply(s, step).changes| && Apply(s, step).changes[at] == s.changes[at]
  {
    if step.Record? && step.ok {
      RecordLogsEntry(s, step);
    } else if SavesTransition(s, step) {
      SaveLogsChange(s, step);
    } else {
      OthersLogNothing(s, step);
    }
  }

  lemma DraftUntouched(s: State, step: Step, id: string)
    requires Enabled(s, step) && id !in s.rows
    requires step.Save? ==> s.pending[step.r].copy.id in s.rows
    requires step.Insert? ==> s.pending[step.r].copy.id != id
    ensures id !in Apply(s, step).rows
  {
    if !step.AddTemplate? { RowWritten(s, step); }
  }

  lemma OthersUntouched(s: State, step: Step, p: Pending)
    requires Enabled(s, step) && PendingOk(s, p)
    requires !step.AddTemplate? && step.r in s.pending ==>
               PendingOk(s, s.pending[step.r]) && Disjoint(p, s.pending[step.r])
    ensures p.Stored? ==> p.at < |Apply(s, step).changes| && Apply(s, step).changes[p.at] == s.changes[p.at]
    ensures p.Drafted? ==> p.copy.id !in Apply(s, step).rows
  {
    if p.Stored? {
      ChangesUntouched(s, step, p.at);
    } else if p.Drafted? {
      DraftUntouched(s, step, p.copy.id);
    }
  }

  // ---- What the acting request holds after its step ----

  lemma CheckOk(s: State, step: Step)
    requires Enabled(s, step) && step.GetCheck? && PendingOk(s, s.pending[step.r])
    requires step.r in Apply(s, step).pending
    ensures PendingOk(Apply(s, step), Apply(s, step).pending[step.r])
  {
    StepExtends(s, step);
    GoodExtends(s, Apply(s, step), s.pending[step.r].base);
  }

  lemma UpdateOk(s: State, step: Step)
    requires Enabled(s, step) && step.UpdateEdit? && PendingOk(s, s.pending[step.r])
    requires step.r in Apply(s, step).pending
    ensures PendingOk(Apply(s, step), Apply(s, step).pending[step.r])
  {
    StepExtends(s, step);
    GoodExtends(s, Apply(s, step), s.pending[step.r].base);
  }

  lemma AssignOk(s: State, step: Step)
    requires Enabled(s, step) && step.AssignEdit? && PendingOk(s, s.pending[step.r])
    requires step.r in Apply(s, step).pending
    ensures PendingOk(Apply(s, step), Apply(s, step).pending[step.r])
  {
    StepExtends(s, step);
    GoodExtends(s, Apply(s, step), s.pending[step.r].base);
  }

  lemma LookupOk(s: State, r: nat, ok: bool)
    requires Enabled(s, Lookup(r, ok)) && PendingOk(s, s.pending[r])
    requires r in Apply(s, Lookup(r, ok)).pending
    ensures PendingOk(Apply(s, Lookup(r, ok)), Apply(s, Lookup(r, ok)).pending[r])
  {
    StepExtends(s, Lookup(r, ok));
    GoodExtends(s, Apply(s, Lookup(r, ok)), s.pending[r].base);
  }

  /** The edited status is one edge further along the template. */
  lemma EnteredStatusOk(s: State, c: Case, to: string, now: Time)
    requires StatusOk(s, c) && MoveOk(s, c, c.status, to)
    ensures StatusOk(s, Enter(c, to, now))
  {
    if c.Attached() && c.id !in s.unchecked {
      var edges := s.templates[c.workflowId.value].transitions;
      NewIsReachable(edges);
      EdgeExtendsReach(edges, c.status, to);
    }
  }

  lemma StampOk(s: State, r: nat, now: Time)
    requires Enabled(s, Stamp(r, now)) && PendingOk(s, s.pending[r])
    ensures PendingOk(Apply(s, Stamp(r, now)), Apply(s, Stamp(r, now)).pending[r])
  {
    StepExtends(s, Stamp(r, now));
    var t := Apply(s, Stamp(r, now));
    var p := s.pending[r];
    GoodExtends(s, t, p.base);
    EnteredStatusOk(t, p.base, p.call.to, now);
  }

  lemma SaveOk(s: State, r: nat, ok: bool)
    requires Enabled(s, Save(r, ok)) && PendingOk(s, s.pending[r])
    requires r in Apply(s, Save(r, ok)).pending
    ensures PendingOk(Apply(s, Save(r, ok)), Apply(s, Save(r, ok)).pending[r])
  {
  }

  lemma ReadOk(s: State, r: nat, call: Call)
    requires Enabled(s, Read(r, call)) && s.rows[call.id].id == call.id && Good(s, s.rows[call.id])
    ensures r in Apply(s, Read(r, call)).pending
    ensures PendingOk(Apply(s, Read(r, call)), Apply(s, Read(r, call)).pending[r])
  {
  }

  lemma CreateOk(s: State, step: Step)
    requires Enabled(s, step) && (step.TakeNumber? || step.CreateClock? || step.CreateLookup?)
    requires step.CreateLookup? ==> step.id !in s.rows
    requires step.r in s.pending ==> PendingOk(s, s.pending[step.r])
    requires step.r in Apply(s, step).pending
    ensures PendingOk(Apply(s, step), Apply(s, step).pending[step.r])
  {
  }

  lemma ActorOk(s: State, step: Step)
    requires Enabled(s, step) && !step.AddTemplate?
    requires step.Read? ==> s.rows[step.call.id].id == step.call.id && Good(s, s.rows[step.call.id])
    requires step.CreateLookup? ==> step.id !in s.rows
    requires step.r in s.pending ==> PendingOk(s, s.pending[step.r])
    requires step.r in Apply(s, step).pending
    ensures PendingOk(Apply(s, step), Apply(s, step).pending[step.r])
  {
    match step
    case Read(r, call) => ReadOk(s, r, call);
    case GetCheck(_, _) => CheckOk(s, step);
    case UpdateEdit(_, _) => UpdateOk(s, step);
    case AssignEdit(_, _) => AssignOk(s, step);
    case Lookup(r, ok) => LookupOk(s, r, ok);
    case Stamp(r, now) => StampOk(s, r, now);
    case Save(r, ok) => SaveOk(s, r, ok);
    case TakeNumber(_, _) => CreateOk(s, step);
    case CreateClock(_, _) => CreateOk(s, step);
    case CreateLookup(_, _, _) => CreateOk(s, step);
    case _ =>
  }

  // ---- Every step keeps every part ----

  lemma StepKeepsRows(s: State, step: Step)
    requires Enabled(s, step) && RowsOk(s)
    requires ActorKnown(s, step)
    ensures RowsOk(Apply(s, step)) && Extends(s, Apply(s, step))
  {
    StepExtends(s, step);
    var t := Apply(s, step);
    forall id | id in t.rows
      ensures id in t.ids && t.rows[id].id == id && Good(t, t.rows[id])
    {
      if id in s.rows && t.rows[id] == s.rows[id] {
        GoodExtends(s, t, s.rows[id]);
      } else {
        RowWritten(s, step);
        GoodExtends(s, t, s.pending[step.r].copy);
      }
    }
  }

  /** A step leaves the other requests alone. */
  lemma OthersKept(s: State, step: Step, r: nat)
    requires Enabled(s, step) && r in Apply(s, step).pending
    requires step.AddTemplate? || r != step.r
    ensures r in s.pending && Apply(s, step).pending[r] == s.pending[r]
  {
  }

  /** What a step newly claims for its request is fresh. */
  lemma NewClaimIsFresh(s: State, step: Step)
    requires Enabled(s, step) && !step.AddTemplate? && step.r in Apply(s, step).pending
    ensures var p := Apply(s, step).pending[step.r];
      (p.Drafted? ==> p.copy.id !in s.ids) && (p.Stored? ==> p.at == |s.changes|)
  {
  }

  lemma StepFrame(s: State, step: Step, r: nat)
    requires Enabled(s, step) && r in Apply(s, step).pending
    ensures
      if step.AddTemplate? || r != step.r
      then r in s.pending && Apply(s, step).pending[r] == s.pending[r]
      else var p := Apply(s, step).pending[r];
        (p.Drafted? ==> p.copy.id !in s.ids) && (p.Stored? ==> p.at == |s.changes|)
  {
    if step.AddTemplate? || r != step.r {
      OthersKept(s, step, r);
    } else {
      NewClaimIsFresh(s, step);
    }
  }

  lemma ClaimIsOld(s: State, p: Pending)
    requires PendingOk(s, p)
    ensures (p.Drafted? ==> p.copy.id in s.ids) && (p.Stored? ==> p.at < |s.changes|)
  {
  }

  lemma RequestStaysOk(s: State, step: Step, r: nat)
    requires Enabled(s, step) && RowsOk(s)
    requires r in Apply(s, step).pending
    requires r in s.pending ==> PendingOk(s, s.pending[r])
    requires ActorKnown(s, step)
    requires !step.AddTemplate? && step.r in s.pending && r in s.pending && r != step.r ==>
               Disjoint(s.pending[r], s.pending[step.r])
    ensures PendingOk(Apply(s, step), Apply(s, step).pending[r])
  {
    StepKeepsRows(s, step);
    StepFrame(s, step, r);
    if step.AddTemplate? || r != step.r {
      OthersUntouched(s, step, s.pending[r]);
      PendingExtends(s, Apply(s, step), s.pending[r]);
    } else {
      ActorOk(s, step);
    }
  }

  lemma StepKeepsRequests(s: State, step: Step)
    requires Enabled(s, step) && RowsOk(s) && RequestsOk(s)
    ensures RequestsOk(Apply(s, step))
  {
    var t := Apply(s, step);
    forall r | r in t.pending
      ensures PendingOk(t, t.pending[r])
    {
      RequestStaysOk(s, step, r);
    }
    forall r, q | r in t.pending && q in t.pending && r != q
      ensures Disjoint(t.pending[r], t.pending[q])
    {
      StepFrame(s, step, r);
      StepFrame(s, step, q);
      if r in s.pending { ClaimIsOld(s, s.pending[r]); }
      if q in s.pending { ClaimIsOld(s, s.pending[q]); }
    }
  }

  lemma HistoryStaysOk(s: State, step: Step, i: nat)
    requires Enabled(s, step) && EntriesOk(s) && ActorKnown(s, step) && Extends(s, Apply(s, step))
    requires i < |Apply(s, step).history|
    ensures EntryOk(Apply(s, step), Apply(s, step).history[i])
  {
    if step.Record? && step.ok {
      RecordLogsEntry(s, step);
    } else if SavesTransition(s, step) {
      SaveLogsChange(s, step);
    } else {
      OthersLogNothing(s, step);
    }
    EntryExtends(s, Apply(s, step), if i < |s.history| then s.history[i] else s.pending[step.r].entry);
  }

  lemma ChangesStayOk(s: State, step: Step, i: nat)
    requires Enabled(s, step) && EntriesOk(s) && ActorKnown(s, step) && Extends(s, Apply(s, step))
    requires i < |Apply(s, step).changes|
    ensures EntryOk(Apply(s, step), Apply(s, step).changes[i].entry)
  {
    if SavesTransition(s, step) {
      SaveLogsChange(s, step);
      SaveOk(s, step.r, step.ok);
    } else if step.Record? && step.ok {
      RecordLogsEntry(s, step);
    } else {
      OthersLogNothing(s, step);
    }
    if i < |s.changes| {
      EntryExtends(s, Apply(s, step), s.changes[i].entry);
    }
  }

  lemma StepKeepsEntries(s: State, step: Step)
    requires Enabled(s, step) && EntriesOk(s)
    requires ActorKnown(s, step)
    requires Extends(s, Apply(s, step))
    ensures EntriesOk(Apply(s, step))
  {
    var t := Apply(s, step);
    forall i | 0 <= i < |t.history|
      ensures EntryOk(t, t.history[i])
    {
      HistoryStaysOk(s, step, i);
    }
    forall i | 0 <= i < |t.changes|
      ensures EntryOk(t, t.changes[i].entry)
    {
      ChangesStayOk(s, step, i);
    }
  }

  lemma StepKeepsSafe(s: State, step: Step)
    requires Safe(s) && Enabled(s, step)
    ensures Safe(Apply(s, step)) && Extends(s, Apply(s, step))
  {
    StepKeepsRows(s, step);
    StepKeepsRequests(s, step);
    StepKeepsEntries(s, step);
  }

  lemma {:induction false} RunKeepsSafe(s: State, steps: seq<Step>)
    requires Safe(s) && Runs(s, steps)
    ensures Safe(Run(s, steps)) && Extends(s, Run(s, steps))
    decreases steps
  {
    if steps == [] {
    } else {
      StepKeepsSafe(s, steps[0]);
      RunKeepsSafe(Apply(s, steps[0]), steps[1..]);
      ExtendsTransitive(s, Apply(s, steps[0]), Run(s, steps));
    }
  }

  lemma ExtendsTransitive(a: State, b: State, c: State)
    requires Extends(a, b) && Extends(b, c)
    ensures Extends(a, c)
  {
  }

  // ---- The main results ----

  /**
   Whatever the interleaving: a case whose lookups all succeeded has a status
   reachable from "new" in its template, and every history entry of such a case
   is an edge of the template between two different statuses.
   */
  lemma ReachableInEveryInterleaving(s: State, steps: seq<Step>, id: string)
    requires Initial(s) && Runs(s, steps)
    requires id in Run(s, steps).rows
    requires var c := Run(s, steps).rows[id]; c.Attached() && c.workflowId.value in Run(s, steps).templates
    requires id !in Run(s, steps).unchecked
    ensures
      var t := Run(s, steps);
      var edges := t.templates[t.rows[id].workflowId.value].transitions;
      && Reachable(edges, t.rows[id].status)
      && forall i :: 0 <= i < |t.history| && t.history[i].caseId == id ==>
           t.history[i].from != t.history[i].to && HasEdge(edges, t.history[i].from, t.history[i].to)
  {
    RunKeepsSafe(s, steps);
    var t := Run(s, steps);
    NewIsReachable(t.templates[t.rows[id].workflowId.value].transitions);
    forall i | 0 <= i < |t.history| && t.history[i].caseId == id
      ensures EntryOk(t, t.history[i])
    {
    }
  }

  /** Whatever the interleaving: the stamps, the breach flag and the deadline of every stored case. */
  lemma StampsAndFlagInEveryInterleaving(s: State, steps: seq<Step>, id: string)
    requires Initial(s) && Runs(s, steps) && id in Run(s, steps).rows
    ensures
      var t := Run(s, steps);
      var c := t.rows[id];
      && (c.status == RESOLVED ==> c.resolvedAt.Some?)
      && (c.status == CLOSED ==> c.closedAt.Some?)
      && (c.breached ==> c.dueAt.Some? && t.clock > c.dueAt.value)
      && (c.dueAt.Some? ==> c.Attached() && c.workflowId.value in t.templates)
      && (c.dueAt.Some? ==>
            var hours := t.templates[c.workflowId.value].slaHours;
            hours > 0 && (c.dueAt.value == c.createdAt + hours * HOUR <==> hours <= 2562047))
  {
    RunKeepsSafe(s, steps);
    var t := Run(s, steps);
    var c := t.rows[id];
    assert Good(t, c);
    if c.dueAt.Some? {
      SlaDurationExact(t.templates[c.workflowId.value].slaHours);
    }
  }

  /** Whatever the interleaving: a case keeps its identity from any moment of a run to any later one. */
  lemma IdentityNeverChanges(s: State, before: seq<Step>, after: seq<Step>, id: string)
    requires Initial(s) && Runs(s, before) && Runs(Run(s, before), after)
    requires id in Run(s, before).rows
    ensures id in Run(Run(s, before), after).rows
    ensures SameIdentity(Run(s, before).rows[id], Run(Run(s, before), after).rows[id])
  {
    RunKeepsSafe(s, before);
    RunKeepsSafe(Run(s, before), after);
  }

  /**
   Whatever the interleaving: the flag GetCase is about to return says whether
   the clock is past the deadline, so the cached flag agrees with recomputing it.
   */
  lemma ReturnedFlagIsRecomputed(s: State, steps: seq<Step>, r: nat, now: Time)
    requires Initial(s) && Runs(s, steps)
    requires Enabled(Run(s, steps), GetCheck(r, now))
    ensures var base := Run(s, steps).pending[r].base;
      Flag(base, now).breached <==> base.dueAt.Some? && now > base.dueAt.value
  {
    RunKeepsSafe(s, steps);
    assert PendingOk(Run(s, steps), Run(s, steps).pending[r]);
  }
}
