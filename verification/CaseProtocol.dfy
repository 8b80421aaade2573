/**
 The case service as a protocol. A request reads a row, edits a private copy and
 saves the whole row back without a lock; between any two of its store and clock
 accesses any other request may take steps, and a request may die at any point.
 Every successful or failed access of the service is one step below.
 */
module CaseProtocol {
  import opened Prelude
  import opened CaseModel
  import CaseNumber

  /** The calls that work on an existing case. */
  datatype Call =
    | Get(id: string)
    | Update(id: string, patch: Patch)
    | Transition(id: string, to: string, reason: string, performedBy: string)
    | Assign(id: string, assignee: string)

  /** Where an in-flight request stands, and the private data it holds. */
  datatype Pending =
    | Fetched(call: Call, base: Case)              // FindByID returned base
    | Permitted(call: Call, base: Case)            // TransitionCase, past its template check
    | Edited(call: Call, base: Case, copy: Case)   // copy is about to be saved
    | Stored(entry: Entry, at: nat)                // saved, history entry not written yet
    | Numbered(draft: Draft, number: string)       // CreateCase holds a case number
    | Timed(draft: Draft, number: string, now: Time)
    | Drafted(copy: Case)                          // the new case, not inserted yet

  /** A status change that reached the table, and whether its history entry did. */
  datatype Change = Change(entry: Entry, recorded: bool)

  /**
   clock is the latest reading of the clock. ids, unchecked and changes are
   bookkeeping of the model: the case ids drawn so far, the cases that passed a
   transition whose template lookup failed, and the status changes that were
   saved, in the order of the saves.
   */
  datatype State = State(
    clock: Time,
    rows: map<string, Case>,
    templates: map<string, Template>,
    history: seq<Entry>,
    counters: map<string, nat>,
    pending: map<nat, Pending>,
    ids: set<string>,
    unchecked: set<string>,
    changes: seq<Change>)

  /** r is the request that takes the step; now is the clock it reads; ok is the store's answer. */
  datatype Step =
    | AddTemplate(id: string, template: Template)
    | Read(r: nat, call: Call)
    | GetCheck(r: nat, now: Time)
    | UpdateEdit(r: nat, now: Time)
    | AssignEdit(r: nat, now: Time)
    | Lookup(r: nat, ok: bool)
    | Stamp(r: nat, now: Time)
    | Save(r: nat, ok: bool)
    | Record(r: nat, ok: bool)
    | TakeNumber(r: nat, draft: Draft)
    | CreateClock(r: nat, now: Time)
    | CreateLookup(r: nat, id: string, ok: bool)
    | Insert(r: nat, ok: bool)
    | Die(r: nat)

  /** What the template lookup of a case returns; ok is the store's answer. */
  function Found(templates: map<string, Template>, workflowId: Option<string>, ok: bool): Option<Template> {
    if ok && workflowId.Some? && workflowId.value != "" && workflowId.value in templates
    then Some(templates[workflowId.value]) else None
  }

  /** Whether TransitionCase goes past its checks; a failed lookup lets every transition pass. */
  predicate Passes(templates: map<string, Template>, c: Case, to: string, ok: bool) {
    var template := Found(templates, c.workflowId, ok);
    c.status != to && (template.Some? ==> HasEdge(template.value.transitions, c.status, to))
  }

  /** Whether TransitionCase passes without having seen the template of the case. */
  predicate Skips(templates: map<string, Template>, c: Case, ok: bool) {
    c.Attached() && Found(templates, c.workflowId, ok).None?
  }

  function CounterOf(s: State, tenant: string): nat {
    if tenant in s.counters then s.counters[tenant] else 0
  }

  predicate Enabled(s: State, step: Step) {
    match step
    case AddTemplate(id, _) => id !in s.templates
    case Read(r, call) => r !in s.pending && call.id in s.rows
    case GetCheck(r, now) =>
      r in s.pending && s.pending[r].Fetched? && s.pending[r].call.Get? && now >= s.clock
    case UpdateEdit(r, now) =>
      r in s.pending && s.pending[r].Fetched? && s.pending[r].call.Update? && now >= s.clock
    case AssignEdit(r, now) =>
      r in s.pending && s.pending[r].Fetched? && s.pending[r].call.Assign? && now >= s.clock
    case Lookup(r, _) =>
      r in s.pending && s.pending[r].Fetched? && s.pending[r].call.Transition?
    case Stamp(r, now) =>
      r in s.pending && s.pending[r].Permitted? && s.pending[r].call.Transition? && now >= s.clock
    case Save(r, _) => r in s.pending && s.pending[r].Edited?
    case Record(r, _) => r in s.pending && s.pending[r].Stored? && s.pending[r].at < |s.changes|
    case TakeNumber(r, draft) => r !in s.pending && AcceptsDraft(draft)
    case CreateClock(r, now) => r in s.pending && s.pending[r].Numbered? && now >= s.clock
    case CreateLookup(r, id, _) => r in s.pending && s.pending[r].Timed? && id !in s.ids
    case Insert(r, _) => r in s.pending && s.pending[r].Drafted?
    case Die(r) => r in s.pending
  }

  /**
   What one step of a request does: the clock it read, what the request holds
   afterwards (None once it is over), and at most one write to each table.
   */
  datatype Effect = Effect(
    clock: Time,
    holds: Option<Pending>,
    row: Option<Case>,
    counter: Option<(string, nat)>,
    drawn: Option<string>,
    skipped: Option<string>,
    changed: Option<Entry>,
    written: Option<(Entry, nat)>)

  function Holds(s: State, p: Pending): Effect {
    Effect(s.clock, Some(p), None, None, None, None, None, None)
  }

  function Ends(s: State): Effect {
    Effect(s.clock, None, None, None, None, None, None, None)
  }

  /** TransitionCase up to its template check. */
  function CheckTransition(s: State, p: Pending, ok: bool): Effect
    requires p.Fetched? && p.call.Transition?
  {
    if !Passes(s.templates, p.base, p.call.to, ok) then Ends(s)
    else Holds(s, Permitted(p.call, p.base))
      .(skipped := if Skips(s.templates, p.base, ok) then Some(p.base.id) else None)
  }

  /** The whole-row save, and what the caller does next. */
  function SaveCopy(s: State, p: Pending): Effect
    requires p.Edited?
  {
    if p.call.Transition? then
      var e := Entry(p.copy.id, p.base.status, p.call.to, p.call.reason, p.call.performedBy, p.copy.updatedAt);
      Holds(s, Stored(e, |s.changes|)).(row := Some(p.copy), changed := Some(e))
    else Ends(s).(row := Some(p.copy))
  }

  /** GetCase: raise the flag and save, or return the row as it is. */
  function CheckDeadline(s: State, p: Pending, now: Time): Effect
    requires p.Fetched?
  {
    (if !p.base.breached && PastDue(p.base, now)
     then Holds(s, Edited(p.call, p.base, Flag(p.base, now))) else Ends(s)).(clock := now)
  }

  function EditFields(s: State, p: Pending, now: Time): Effect
    requires p.Fetched? && p.call.Update?
  {
    if !AcceptsPatch(p.call.patch) then Ends(s)
    else Holds(s, Edited(p.call, p.base, ApplyPatch(p.base, p.call.patch, now))).(clock := now)
  }

  function EditAssignee(s: State, p: Pending, now: Time): Effect
    requires p.Fetched? && p.call.Assign?
  {
    Holds(s, Edited(p.call, p.base, AssignTo(p.base, p.call.assignee, now))).(clock := now)
  }

  function EditStatus(s: State, p: Pending, now: Time): Effect
    requires p.Permitted? && p.call.Transition?
  {
    Holds(s, Edited(p.call, p.base, Enter(p.base, p.call.to, now))).(clock := now)
  }

  function WriteEntry(s: State, p: Pending): Effect
    requires p.Stored?
  {
    Ends(s).(written := Some((p.entry, p.at)))
  }

  /** One committed counter transaction. */
  function TakeNext(s: State, draft: Draft): Effect {
    var n := CounterOf(s, draft.tenantId) + 1;
    Holds(s, Numbered(draft, CaseNumber.Number(draft.tenantId, n))).(counter := Some((draft.tenantId, n)))
  }

  function ReadTime(s: State, p: Pending, now: Time): Effect
    requires p.Numbered?
  {
    Holds(s, Timed(p.draft, p.number, now)).(clock := now)
  }

  function OpenCase(s: State, p: Pending, id: string, ok: bool): Effect
    requires p.Timed?
  {
    var c := Open(p.draft, id, p.number, p.now, Found(s.templates, p.draft.workflowId, ok));
    Holds(s, Drafted(c)).(drawn := Some(id))
  }

  function InsertRow(s: State, p: Pending): Effect
    requires p.Drafted?
  {
    Ends(s).(row := Some(p.copy))
  }

  function Act(s: State, step: Step): Effect
    requires Enabled(s, step) && !step.AddTemplate?
  {
    match step
    case Read(_, call) => Holds(s, Fetched(call, s.rows[call.id]))
    case GetCheck(r, now) => CheckDeadline(s, s.pending[r], now)
    case UpdateEdit(r, now) => EditFields(s, s.pending[r], now)
    case AssignEdit(r, now) => EditAssignee(s, s.pending[r], now)
    case Lookup(r, ok) => CheckTransition(s, s.pending[r], ok)
    case Stamp(r, now) => EditStatus(s, s.pending[r], now)
    case Save(r, ok) => if ok then SaveCopy(s, s.pending[r]) else Ends(s)
    case Record(r, ok) => if ok then WriteEntry(s, s.pending[r]) else Ends(s)
    case TakeNumber(_, draft) => TakeNext(s, draft)
    case CreateClock(r, now) => ReadTime(s, s.pending[r], now)
    case CreateLookup(r, id, ok) => OpenCase(s, s.pending[r], id, ok)
    case Insert(r, ok) => if ok then InsertRow(s, s.pending[r]) else Ends(s)
    case Die(_) => Ends(s)
  }

  function PendingAfter(s: State, r: nat, e: Effect): map<nat, Pending> {
    if e.holds.Some? then s.pending[r := e.holds.value] else s.pending - {r}
  }

  function ChangesAfter(s: State, e: Effect): seq<Change> {
    if e.changed.Some? then s.changes + [Change(e.changed.value, false)]
    else if e.written.Some? && e.written.value.1 < |s.changes| then
      s.changes[e.written.value.1 := s.changes[e.written.value.1].(recorded := true)]
    else s.changes
  }

  function Perform(s: State, r: nat, e: Effect): State {
    State(
      e.clock,
      if e.row.Some? then s.rows[e.row.value.id := e.row.value] else s.rows,
      s.templates,
      if e.written.Some? then s.history + [e.written.value.0] else s.history,
      if e.counter.Some? then s.counters[e.counter.value.0 := e.counter.value.1] else s.counters,
      PendingAfter(s, r, e),
      if e.drawn.Some? then s.ids + {e.drawn.value} else s.ids,
      if e.skipped.Some? then s.unchecked + {e.skipped.value} else s.unchecked,
      ChangesAfter(s, e))
  }

  function Apply(s: State, step: Step): State
    requires Enabled(s, step)
  {
    if step.AddTemplate? then s.(templates := s.templates[step.id := step.template])
    else Perform(s, step.r, Act(s, step))
  }

  /** The save of a transition: the only step that adds a status change. */
  predicate SavesTransition(s: State, step: Step)
    requires Enabled(s, step)
  {
    step.Save? && step.ok && s.pending[step.r].call.Transition?
  }

  /** Only saved transitions and recorded entries touch the history and the changes. */
  lemma OthersLogNothing(s: State, step: Step)
    requires Enabled(s, step) && !SavesTransition(s, step) && !(step.Record? && step.ok)
    ensures Apply(s, step).history == s.history && Apply(s, step).changes == s.changes
  {
  }

  lemma SaveLogsChange(s: State, step: Step)
    requires Enabled(s, step) && SavesTransition(s, step)
    ensures Apply(s, step).history == s.history
    ensures Apply(s, step).changes == s.changes + [Change(SaveCopy(s, s.pending[step.r]).changed.value, false)]
  {
  }

  lemma RecordLogsEntry(s: State, step: Step)
    requires Enabled(s, step) && step.Record? && step.ok
    ensures var p := s.pending[step.r];
      && Apply(s, step).history == s.history + [p.entry]
      && Apply(s, step).changes == s.changes[p.at := s.changes[p.at].(recorded := true)]
  {
  }

  predicate Runs(s: State, steps: seq<Step>)
    decreases steps
  {
    steps == [] || (Enabled(s, steps[0]) && Runs(Apply(s, steps[0]), steps[1..]))
  }

  function Run(s: State, steps: seq<Step>): State
    requires Runs(s, steps)
    decreases steps
  {
    if steps == [] then s else Run(Apply(s, steps[0]), steps[1..])
  }

  predicate Initial(s: State) {
    && s.rows == map[] && s.templates == map[] && s.history == []
    && s.counters == map[] && s.pending == map[]
    && s.ids == {} && s.unchecked == {} && s.changes == []
  }
}
