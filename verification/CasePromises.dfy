/**
 What each case operation promises, field by field and answer by answer, and that
 the steps of every interleaving keep it.
 */
module CasePromises {
  import opened Prelude
  import opened CaseModel
  import opened CaseProtocol
  import opened CaseSafety
  import CaseNumber

  datatype Error = NotFound | InvalidInput | InvalidTransition | StoreFailed

  // ---- The case before and after ----

  predicate SameContent(a: Case, b: Case) {
    && a.title == b.title && a.description == b.description && a.priority == b.priority
    && a.assigneeId == b.assigneeId && a.tags == b.tags
  }

  predicate SameProgress(a: Case, b: Case) {
    a.status == b.status && a.breached == b.breached && a.resolvedAt == b.resolvedAt && a.closedAt == b.closedAt
  }

  /** Nothing changes but the flag, which says whether the deadline is past. */
  predicate Flagged(before: Case, after: Case, now: Time) {
    && SameIdentity(before, after) && SameContent(before, after) && after.status == before.status
    && after.resolvedAt == before.resolvedAt && after.closedAt == before.closedAt
    && after.updatedAt == before.updatedAt
    && (after.breached <==> after.dueAt.Some? && now > after.dueAt.value)
  }

  /** A patched field has the patch's value; every other field stays. */
  predicate Patched(before: Case, after: Case, p: Patch, now: Time) {
    && SameIdentity(before, after) && SameProgress(before, after) && after.assigneeId == before.assigneeId
    && after.title == (if p.title.Some? then p.title.value else before.title)
    && after.description == (if p.description.Some? then p.description.value else before.description)
    && after.priority == (if p.priority.Some? then p.priority.value else before.priority)
    && after.tags == (if p.tags.Some? then p.tags else before.tags)
    && after.updatedAt == now
  }

  predicate Assigned(before: Case, after: Case, assignee: string, now: Time) {
    && SameIdentity(before, after) && SameProgress(before, after)
    && after.title == before.title && after.description == before.description
    && after.priority == before.priority && after.tags == before.tags
    && after.assigneeId == Some(assignee) && after.updatedAt == now
  }

  /** The status is entered, its stamp set, the flag recomputed; every other field stays. */
  predicate Transitioned(before: Case, after: Case, to: string, now: Time) {
    && SameIdentity(before, after) && SameContent(before, after)
    && after.status == to && after.updatedAt == now
    && after.resolvedAt == (if to == "resolved" then Some(now) else before.resolvedAt)
    && after.closedAt == (if to == "closed" then Some(now) else before.closedAt)
    && (after.breached <==> after.dueAt.Some? && now > after.dueAt.value)
  }

  /** The draft names a template that the lookup finds; ok is the store's answer. */
  predicate HasTemplate(templates: map<string, Template>, d: Draft, ok: bool) {
    ok && d.workflowId.Some? && d.workflowId.value != "" && d.workflowId.value in templates
  }

  /** There is a deadline exactly when the template asks for one, and it is the hours asked for while they fit. */
  predicate DeadlineSet(templates: map<string, Template>, d: Draft, ok: bool, c: Case) {
    && (c.dueAt.Some? <==> HasTemplate(templates, d, ok) && templates[d.workflowId.value].slaHours > 0)
    && (c.dueAt.Some? ==>
          var hours := templates[d.workflowId.value].slaHours;
          c.dueAt.value == c.createdAt + hours * 3_600_000_000_000 <==> hours <= 2562047)
  }

  predicate Opened(templates: map<string, Template>, d: Draft, ok: bool, id: string, number: string, now: Time,
                   c: Case) {
    && c.id == id && c.caseNumber == number && c.tenantId == d.tenantId && c.reporterId == d.reporterId
    && c.title == d.title && c.description == d.description && c.tags == d.tags && c.workflowId == d.workflowId
    && c.priority == (if d.priority == "" then "medium" else d.priority)
    && c.status == "new" && c.assigneeId == None && !c.breached
    && c.resolvedAt == None && c.closedAt == None && c.createdAt == now && c.updatedAt == now
    && DeadlineSet(templates, d, ok, c)
  }

  lemma OpenIsOpened(templates: map<string, Template>, d: Draft, ok: bool, id: string, number: string, now: Time)
    ensures Opened(templates, d, ok, id, number, now, Open(d, id, number, now, Found(templates, d.workflowId, ok)))
  {
    if HasTemplate(templates, d, ok) && templates[d.workflowId.value].slaHours > 0 {
      SlaDurationExact(templates[d.workflowId.value].slaHours);
    }
  }

  // ---- One call at a time: tables and answer ----

  ghost predicate GetDone(s: State, t: State, r: Result<Case, Error>, id: string, now: Time, saves: bool) {
    if id !in s.rows then r == Err(NotFound) && t == s
    else
      && r.Ok? && Flagged(s.rows[id], r.value, now)
      && t == s.(clock := now, rows := if saves then s.rows[id := r.value] else s.rows)
  }

  ghost predicate UpdateDone(s: State, t: State, r: Result<Case, Error>, id: string, p: Patch, now: Time, saves: bool) {
    if id !in s.rows then r == Err(NotFound) && t == s
    else if p.title.Some? && (forall i :: 0 <= i < |p.title.value| ==> IsSpace(p.title.value[i])) then
      r == Err(InvalidInput) && t == s
    else if !saves then r == Err(StoreFailed) && t == s.(clock := now)
    else r.Ok? && Patched(s.rows[id], r.value, p, now) && t == s.(clock := now, rows := s.rows[id := r.value])
  }

  ghost predicate AssignDone(s: State, t: State, r: Result<Case, Error>, id: string, assignee: string, now: Time,
                             saves: bool) {
    if id !in s.rows then r == Err(NotFound) && t == s
    else if !saves then r == Err(StoreFailed) && t == s.(clock := now)
    else r.Ok? && Assigned(s.rows[id], r.value, assignee, now) && t == s.(clock := now, rows := s.rows[id := r.value])
  }

  /** The case follows a template that the lookup finds. */
  predicate SeesTemplate(templates: map<string, Template>, c: Case, ok: bool) {
    ok && c.workflowId.Some? && c.workflowId.value != "" && c.workflowId.value in templates
  }

  ghost predicate TransitionDone(s: State, t: State, r: Result<Case, Error>, call: Call, now: Time,
                                 found: bool, saves: bool, records: bool)
    requires call.Transition?
  {
    if call.id !in s.rows then r == Err(NotFound) && t == s
    else
      var before := s.rows[call.id];
      if before.status == call.to then r == Ok(before) && t == s
      else if SeesTemplate(s.templates, before, found) &&
              !HasEdge(s.templates[before.workflowId.value].transitions, before.status, call.to) then
        r == Err(InvalidTransition) && t == s
      else
        && t.clock == now && t.templates == s.templates && t.counters == s.counters
        && if !saves then r == Err(StoreFailed) && t.rows == s.rows && t.history == s.history
           else
             && r.Ok? && Transitioned(before, r.value, call.to, now) && t.rows == s.rows[call.id := r.value]
             && t.history == s.history +
                  (if records
                   then [Entry(call.id, before.status, call.to, call.reason, call.performedBy, now)] else [])
  }

  ghost predicate CreateDone(s: State, t: State, r: Result<Case, Error>, d: Draft, id: string, now: Time,
                             numbers: bool, found: bool, inserts: bool) {
    var n := if d.tenantId in s.counters then s.counters[d.tenantId] + 1 else 1;
    if (forall i :: 0 <= i < |d.title| ==> IsSpace(d.title[i])) || d.tenantId == "" || d.reporterId == "" then
      r == Err(InvalidInput) && t == s
    else if !numbers then r == Err(StoreFailed) && t == s
    else
      && t.clock == now && t.templates == s.templates && t.history == s.history
      && t.counters == s.counters[d.tenantId := n]
      && if !inserts then r == Err(StoreFailed) && t.rows == s.rows
         else
           && r.Ok? && t.rows == s.rows[id := r.value]
           && Opened(s.templates, d, found, id, CaseNumber.Number(d.tenantId, n), now, r.value)
  }

  // ---- The steps of every interleaving ----

  /** Whatever the interleaving: GetCase hands on its row with the flag recomputed. */
  lemma CheckInEveryInterleaving(s: State, steps: seq<Step>, r: nat, now: Time)
    requires Initial(s) && Runs(s, steps) && Enabled(Run(s, steps), GetCheck(r, now))
    ensures var u := Run(s, steps); var t := Apply(u, GetCheck(r, now)); var base := u.pending[r].base;
      if r in t.pending then t.pending[r].Edited? && Flagged(base, t.pending[r].copy, now)
      else Flagged(base, base, now)
  {
    RunKeepsSafe(s, steps);
    assert PendingOk(Run(s, steps), Run(s, steps).pending[r]);
  }

  /** Whatever the interleaving: a transition edits its copy as promised, flag included. */
  lemma TransitionInEveryInterleaving(s: State, steps: seq<Step>, r: nat, now: Time)
    requires Initial(s) && Runs(s, steps) && Enabled(Run(s, steps), Stamp(r, now))
    ensures var u := Run(s, steps); var t := Apply(u, Stamp(r, now));
      && r in t.pending && t.pending[r].Edited?
      && Transitioned(u.pending[r].base, t.pending[r].copy, u.pending[r].call.to, now)
  {
    RunKeepsSafe(s, steps);
    assert PendingOk(Run(s, steps), Run(s, steps).pending[r]);
  }

  /** Whatever the interleaving: an update patches its copy as promised, or refuses a blank title. */
  lemma UpdateInEveryInterleaving(s: State, steps: seq<Step>, r: nat, now: Time)
    requires Runs(s, steps) && Enabled(Run(s, steps), UpdateEdit(r, now))
    ensures var u := Run(s, steps); var t := Apply(u, UpdateEdit(r, now)); var p := u.pending[r].call.patch;
      if p.title.Some? && (forall i :: 0 <= i < |p.title.value| ==> IsSpace(p.title.value[i])) then r !in t.pending
      else r in t.pending && t.pending[r].Edited? && Patched(u.pending[r].base, t.pending[r].copy, p, now)
  {
  }

  /** Whatever the interleaving: an assignment edits its copy as promised. */
  lemma AssignInEveryInterleaving(s: State, steps: seq<Step>, r: nat, now: Time)
    requires Runs(s, steps) && Enabled(Run(s, steps), AssignEdit(r, now))
    ensures var u := Run(s, steps); var t := Apply(u, AssignEdit(r, now));
      && r in t.pending && t.pending[r].Edited?
      && Assigned(u.pending[r].base, t.pending[r].copy, u.pending[r].call.assignee, now)
  {
  }

  /** A save stores the copy under its id, and a new case is stored as it was opened. */
  lemma SaveStoresCopy(s: State, step: Step)
    requires Enabled(s, step) && ((step.Save? && step.ok) || (step.Insert? && step.ok))
    ensures Apply(s, step).rows == s.rows[s.pending[step.r].copy.id := s.pending[step.r].copy]
  {
  }

  // ---- A deadline, for the life of the case ----

  /** Whatever carries the id carries the identity of the case. */
  ghost predicate Carries(s: State, id: string, c: Case) {
    && id in s.ids && (id in s.rows ==> SameIdentity(s.rows[id], c))
    && (forall r :: r in s.pending && s.pending[r].Drafted? && s.pending[r].copy.id == id ==>
          SameIdentity(s.pending[r].copy, c))
  }

  lemma RowCarries(s: State, step: Step, id: string, c: Case)
    requires Safe(s) && Enabled(s, step) && Carries(s, id, c) && id in Apply(s, step).rows
    ensures SameIdentity(Apply(s, step).rows[id], c)
  {
    if !step.AddTemplate? {
      RowWritten(s, step);
      assert (step.Save? || step.Insert?) ==> PendingOk(s, s.pending[step.r]);
    }
  }

  lemma StepCarries(s: State, step: Step, id: string, c: Case)
    requires Safe(s) && Enabled(s, step) && Carries(s, id, c)
    ensures Carries(Apply(s, step), id, c)
  {
    var t := Apply(s, step);
    StepKeepsSafe(s, step);
    if id in t.rows { RowCarries(s, step, id, c); }
    forall r | r in t.pending && t.pending[r].Drafted? && t.pending[r].copy.id == id
      ensures SameIdentity(t.pending[r].copy, c)
    {
      StepFrame(s, step, r);
    }
  }

  lemma {:induction false} RunCarries(s: State, steps: seq<Step>, id: string, c: Case)
    requires Safe(s) && Carries(s, id, c) && Runs(s, steps)
    ensures Carries(Run(s, steps), id, c)
    decreases steps
  {
    if steps == [] {
    } else {
      StepKeepsSafe(s, steps[0]);
      StepCarries(s, steps[0], id, c);
      RunCarries(Apply(s, steps[0]), steps[1..], id, c);
    }
  }

  lemma DraftCarries(s: State, step: Step)
    requires Safe(s) && Enabled(s, step) && step.CreateLookup?
    ensures var t := Apply(s, step);
      step.r in t.pending && t.pending[step.r].Drafted? && Carries(t, step.id, t.pending[step.r].copy)
  {
    var t := Apply(s, step);
    forall r | r in t.pending && t.pending[r].Drafted? && t.pending[r].copy.id == step.id
      ensures r == step.r
    {
      StepFrame(s, step, r);
      if r != step.r { ClaimIsOld(s, s.pending[r]); }
    }
  }

  /**
   Whatever the interleaving: a case is opened as promised, and from then on, once
   stored, it has a deadline exactly when its draft named a template, the lookup
   answered and the hours are positive; the deadline is createdAt plus those hours
   exactly up to 2562047 of them.
   */
  lemma OpenedForLife(s: State, before: seq<Step>, r: nat, id: string, ok: bool, after: seq<Step>)
    requires Initial(s) && Runs(s, before) && Enabled(Run(s, before), CreateLookup(r, id, ok))
    requires Runs(Apply(Run(s, before), CreateLookup(r, id, ok)), after)
    ensures var u := Run(s, before); var t := Apply(u, CreateLookup(r, id, ok)); var p := u.pending[r];
      && r in t.pending && t.pending[r].Drafted?
      && Opened(u.templates, p.draft, ok, id, p.number, p.now, t.pending[r].copy)
    ensures var u := Run(s, before); var rows := Run(Apply(u, CreateLookup(r, id, ok)), after).rows;
      id in rows ==>
        && DeadlineSet(u.templates, u.pending[r].draft, ok, rows[id])
        && rows[id].tenantId == u.pending[r].draft.tenantId && rows[id].reporterId == u.pending[r].draft.reporterId
        && rows[id].workflowId == u.pending[r].draft.workflowId && rows[id].createdAt == u.pending[r].now
        && rows[id].caseNumber == u.pending[r].number
  {
    var u := Run(s, before);
    var t := Apply(u, CreateLookup(r, id, ok));
    RunKeepsSafe(s, before);
    StepKeepsSafe(u, CreateLookup(r, id, ok));
    OpenIsOpened(u.templates, u.pending[r].draft, ok, id, u.pending[r].number, u.pending[r].now);
    DraftCarries(u, CreateLookup(r, id, ok));
    RunCarries(t, after, id, t.pending[r].copy);
  }
}
