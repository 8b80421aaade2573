/**
 The case service itself. Each method fetches a case, edits its private copy
 statement by statement and saves it. It is proved against a function of the
 tables, and that function against the protocol: one undisturbed call is an
 atomic run, so everything proved of runs holds of the service.
 The clock reading and the answers of the stores are parameters.
 */
module CaseService {
  import opened Prelude
  import opened CaseModel
  import opened CaseProtocol
  import opened CaseSafety
  import opened CaseAtomic
  import opened CaseNumbering
  import opened CasePromises
  import CaseNumber

  /** The state a call leaves and what it returns. */
  datatype Reply = Reply(state: State, result: Result<Case, Error>)

  // ---- Calls as functions of the tables ----

  function GetCall(s: State, id: string, now: Time, saves: bool): Reply {
    if id !in s.rows then Reply(s, Err(NotFound))
    else
      var c := s.rows[id];
      Reply(s.(clock := now, rows := if saves then s.rows[id := Flag(c, now)] else s.rows), Ok(Flag(c, now)))
  }

  function UpdateCall(s: State, id: string, patch: Patch, now: Time, saves: bool): Reply {
    if id !in s.rows then Reply(s, Err(NotFound))
    else if !AcceptsPatch(patch) then Reply(s, Err(InvalidInput))
    else
      var c := ApplyPatch(s.rows[id], patch, now);
      if saves then Reply(s.(clock := now, rows := s.rows[id := c]), Ok(c))
      else Reply(s.(clock := now), Err(StoreFailed))
  }

  function AssignCall(s: State, id: string, assignee: string, now: Time, saves: bool): Reply {
    if id !in s.rows then Reply(s, Err(NotFound))
    else
      var c := AssignTo(s.rows[id], assignee, now);
      if saves then Reply(s.(clock := now, rows := s.rows[id := c]), Ok(c))
      else Reply(s.(clock := now), Err(StoreFailed))
  }

  function UncheckedAfter(s: State, c: Case, found: bool): set<string> {
    if Skips(s.templates, c, found) then s.unchecked + {c.id} else s.unchecked
  }

  function TransitionCall(s: State, call: Call, now: Time, found: bool, saves: bool, records: bool): Reply
    requires call.Transition?
  {
    if call.id !in s.rows then Reply(s, Err(NotFound))
    else
      var c := s.rows[call.id];
      if c.status == call.to then Reply(s, Ok(c))
      else if !Passes(s.templates, c, call.to, found) then Reply(s, Err(InvalidTransition))
      else
        var t := s.(clock := now, unchecked := UncheckedAfter(s, c, found));
        var e := Entry(c.id, c.status, call.to, call.reason, call.performedBy, now);
        if !saves then Reply(t, Err(StoreFailed))
        else Reply(t.(rows := s.rows[call.id := Enter(c, call.to, now)],
                      history := if records then s.history + [e] else s.history,
                      changes := s.changes + [Change(e, records)]),
                   Ok(Enter(c, call.to, now)))
  }

  function CreateCall(s: State, draft: Draft, id: string, now: Time, numbers: bool, found: bool, inserts: bool): Reply {
    if !AcceptsDraft(draft) then Reply(s, Err(InvalidInput))
    else if !numbers then Reply(s, Err(StoreFailed))
    else
      var n := CounterOf(s, draft.tenantId) + 1;
      var c := Open(draft, id, CaseNumber.Number(draft.tenantId, n), now, Found(s.templates, draft.workflowId, found));
      var t := s.(clock := now, counters := s.counters[draft.tenantId := n], ids := s.ids + {id});
      if inserts then Reply(t.(rows := s.rows[id := c]), Ok(c)) else Reply(t, Err(StoreFailed))
  }

  // ---- One undisturbed call is a run of the protocol ----

  /** A run of one more step; strict says that the clock moved between readings. */
  lemma {:induction false} ThenStep(s: State, steps: seq<Step>, step: Step, strict: bool)
    requires Runs(s, steps) && Enabled(Run(s, steps), step)
    requires strict ==> AtomicRun(s, steps) && AtomicStep(Run(s, steps), step)
    ensures Runs(s, steps + [step])
    ensures Run(s, steps + [step]) == Apply(Run(s, steps), step)
    ensures strict ==> AtomicRun(s, steps + [step])
    decreases steps
  {
    if steps == [] {
      assert [] + [step] == [step] && [step][1..] == [];
      assert Runs(Apply(s, step), []) && AtomicRun(Apply(s, step), []);
    } else {
      assert (steps + [step])[1..] == steps[1..] + [step];
      ThenStep(Apply(s, steps[0]), steps[1..], step, strict);
    }
  }

  /** steps lead from s to t, and are atomic when the clock moved. */
  ghost predicate Leads(s: State, steps: seq<Step>, t: State, strict: bool) {
    Runs(s, steps) && Run(s, steps) == t && (strict ==> AtomicRun(s, steps))
  }

  lemma Extend(s: State, steps: seq<Step>, t: State, step: Step, strict: bool) returns (longer: seq<Step>)
    requires Leads(s, steps, t, strict) && Enabled(t, step)
    requires strict ==> AtomicStep(t, step)
    ensures Leads(s, longer, Apply(t, step), strict)
  {
    ThenStep(s, steps, step, strict);
    longer := steps + [step];
  }

  /** The store, with request 0 alone in flight. */
  function With(s: State, p: Pending): State {
    s.(pending := map[0 := p])
  }

  lemma ReadRow(s: State, call: Call, strict: bool) returns (steps: seq<Step>)
    requires s.pending == map[] && call.id in s.rows
    ensures Leads(s, steps, With(s, Fetched(call, s.rows[call.id])), strict)
  {
    assert Leads(s, [], s, strict);
    steps := Extend(s, [], s, Read(0, call), strict);
  }

  /** The save of an edited copy that is no transition. */
  lemma SaveRow(s: State, steps: seq<Step>, t: State, call: Call, base: Case, copy: Case, saves: bool, strict: bool)
    returns (longer: seq<Step>)
    requires !call.Transition? && Leads(s, steps, With(t, Edited(call, base, copy)), strict)
    ensures Leads(s, longer,
      if saves then t.(rows := t.rows[copy.id := copy], pending := map[]) else t.(pending := map[]), strict)
  {
    longer := Extend(s, steps, With(t, Edited(call, base, copy)), Save(0, saves), strict);
  }

  /** The edit of a fetched row, and its save. */
  lemma EditAndSave(s: State, steps: seq<Step>, edit: Step, call: Call, base: Case, copy: Case,
                    saves: bool, strict: bool)
    returns (longer: seq<Step>)
    requires s.pending == map[] && !call.Transition? && Leads(s, steps, With(s, Fetched(call, base)), strict)
    requires (edit.GetCheck? || edit.UpdateEdit? || edit.AssignEdit?) && edit.r == 0
    requires Enabled(With(s, Fetched(call, base)), edit) && (strict ==> edit.now > s.clock)
    requires Act(With(s, Fetched(call, base)), edit) ==
      Holds(With(s, Fetched(call, base)), Edited(call, base, copy)).(clock := edit.now)
    ensures Leads(s, longer,
      s.(clock := edit.now, rows := if saves then s.rows[copy.id := copy] else s.rows), strict)
  {
    var t := With(s, Fetched(call, base));
    longer := Extend(s, steps, t, edit, strict);
    assert Apply(t, edit) == With(s.(clock := edit.now), Edited(call, base, copy));
    longer := SaveRow(s, longer, s.(clock := edit.now), call, base, copy, saves, strict);
  }

  lemma GetIsRun(s: State, id: string, now: Time, saves: bool) returns (steps: seq<Step>)
    requires s.pending == map[] && now >= s.clock
    requires id in s.rows ==> s.rows[id].id == id
    ensures Leads(s, steps, GetCall(s, id, now, saves).state, now > s.clock)
  {
    steps := [];
    if id in s.rows {
      var c, strict := s.rows[id], now > s.clock;
      steps := ReadRow(s, Get(id), strict);
      if Flag(c, now) != c {
        steps := EditAndSave(s, steps, GetCheck(0, now), Get(id), c, Flag(c, now), saves, strict);
      } else {
        steps := Extend(s, steps, With(s, Fetched(Get(id), c)), GetCheck(0, now), strict);
        assert s.rows[id := c] == s.rows;
      }
    }
  }

  lemma UpdateIsRun(s: State, id: string, patch: Patch, now: Time, saves: bool) returns (steps: seq<Step>)
    requires s.pending == map[] && now >= s.clock
    requires id in s.rows ==> s.rows[id].id == id
    ensures Leads(s, steps, UpdateCall(s, id, patch, now, saves).state, now > s.clock)
  {
    steps := [];
    if id in s.rows {
      var c, call, strict := s.rows[id], Update(id, patch), now > s.clock;
      steps := ReadRow(s, call, strict);
      if AcceptsPatch(patch) {
        steps := EditAndSave(s, steps, UpdateEdit(0, now), call, c, ApplyPatch(c, patch, now), saves, strict);
      } else {
        steps := Extend(s, steps, With(s, Fetched(call, c)), UpdateEdit(0, now), strict);
      }
    }
  }

  lemma AssignIsRun(s: State, id: string, assignee: string, now: Time, saves: bool) returns (steps: seq<Step>)
    requires s.pending == map[] && now >= s.clock
    requires id in s.rows ==> s.rows[id].id == id
    ensures Leads(s, steps, AssignCall(s, id, assignee, now, saves).state, now > s.clock)
  {
    steps := [];
    if id in s.rows {
      var c, call, strict := s.rows[id], Assign(id, assignee), now > s.clock;
      steps := ReadRow(s, call, strict);
      steps := EditAndSave(s, steps, AssignEdit(0, now), call, c, AssignTo(c, assignee, now), saves, strict);
    }
  }

  lemma SaveApplied(t: State, call: Call, base: Case, copy: Case)
    requires call.Transition?
    ensures
      var e := Entry(copy.id, base.status, call.to, call.reason, call.performedBy, copy.updatedAt);
      Apply(With(t, Edited(call, base, copy)), Save(0, true)) ==
        With(t.(rows := t.rows[copy.id := copy], changes := t.changes + [Change(e, false)]), Stored(e, |t.changes|))
  {
    var e := Entry(copy.id, base.status, call.to, call.reason, call.performedBy, copy.updatedAt);
    assert map[0 := Edited(call, base, copy)][0 := Stored(e, |t.changes|)] == map[0 := Stored(e, |t.changes|)];
  }

  lemma RecordApplied(t: State, e: Entry, at: nat, ok: bool)
    requires at < |t.changes|
    ensures Apply(With(t, Stored(e, at)), Record(0, ok)) ==
      if ok
      then t.(history := t.history + [e], pending := map[],
              changes := t.changes[at := t.changes[at].(recorded := true)])
      else t.(pending := map[])
  {
    assert map[0 := Stored(e, at)] - {0} == map[];
  }

  lemma StampApplied(t: State, call: Call, c: Case, now: Time)
    requires call.Transition? && now >= t.clock
    ensures Apply(With(t, Permitted(call, c)), Stamp(0, now)) ==
      With(t.(clock := now), Edited(call, c, Enter(c, call.to, now)))
  {
    var p := Edited(call, c, Enter(c, call.to, now));
    assert map[0 := Permitted(call, c)][0 := p] == map[0 := p];
  }

  lemma RecordLast(s: State, steps: seq<Step>, t: State, e: Entry, ok: bool, strict: bool) returns (longer: seq<Step>)
    requires Leads(s, steps, With(t.(changes := t.changes + [Change(e, false)]), Stored(e, |t.changes|)), strict)
    ensures Leads(s, longer,
      t.(history := if ok then t.history + [e] else t.history, pending := map[],
         changes := t.changes + [Change(e, ok)]), strict)
  {
    var u := t.(changes := t.changes + [Change(e, false)]);
    RecordApplied(u, e, |t.changes|, ok);
    longer := Extend(s, steps, With(u, Stored(e, |t.changes|)), Record(0, ok), strict);
    assert u.changes[|t.changes| := Change(e, true)] == t.changes + [Change(e, true)];
  }

  /** From an edited transition on: the save and the history entry. */
  lemma FinishTransition(s: State, steps: seq<Step>, t: State, call: Call, base: Case,
                         saves: bool, records: bool, strict: bool)
    returns (longer: seq<Step>)
    requires call.Transition? && base.id == call.id
    requires Leads(s, steps, With(t, Edited(call, base, Enter(base, call.to, t.clock))), strict)
    ensures
      var e := Entry(base.id, base.status, call.to, call.reason, call.performedBy, t.clock);
      var u := t.(pending := map[]);
      Leads(s, longer,
        if !saves then u
        else u.(rows := t.rows[call.id := Enter(base, call.to, t.clock)],
                history := if records then t.history + [e] else t.history,
                changes := t.changes + [Change(e, records)]), strict)
  {
    var copy := Enter(base, call.to, t.clock);
    longer := Extend(s, steps, With(t, Edited(call, base, copy)), Save(0, saves), strict);
    if saves {
      var e := Entry(base.id, base.status, call.to, call.reason, call.performedBy, t.clock);
      SaveApplied(t, call, base, copy);
      longer := RecordLast(s, longer, t.(rows := t.rows[copy.id := copy]), e, records, strict);
    }
  }

  /** The store after the template check of the one request in flight. */
  function AfterLookup(t: State, call: Call, c: Case, found: bool): State
    requires call.Transition?
  {
    if Passes(t.templates, c, call.to, found)
    then With(t.(unchecked := UncheckedAfter(t, c, found)), Permitted(call, c))
    else t.(pending := map[])
  }

  lemma LookupPasses(t: State, call: Call, c: Case, found: bool)
    requires call.Transition? && Passes(t.templates, c, call.to, found)
    ensures Apply(With(t, Fetched(call, c)), Lookup(0, found)) == AfterLookup(t, call, c, found)
  {
    assert map[0 := Fetched(call, c)][0 := Permitted(call, c)] == map[0 := Permitted(call, c)];
  }

  lemma LookupRefuses(t: State, call: Call, c: Case, found: bool)
    requires call.Transition? && !Passes(t.templates, c, call.to, found)
    ensures Apply(With(t, Fetched(call, c)), Lookup(0, found)) == AfterLookup(t, call, c, found)
  {
    assert map[0 := Fetched(call, c)] - {0} == map[];
  }

  lemma LookUpTemplate(s: State, steps: seq<Step>, t: State, call: Call, c: Case, found: bool, strict: bool)
    returns (longer: seq<Step>)
    requires call.Transition? && Leads(s, steps, With(t, Fetched(call, c)), strict)
    ensures Leads(s, longer, AfterLookup(t, call, c, found), strict)
  {
    if Passes(t.templates, c, call.to, found) {
      LookupPasses(t, call, c, found);
    } else {
      LookupRefuses(t, call, c, found);
    }
    longer := Extend(s, steps, With(t, Fetched(call, c)), Lookup(0, found), strict);
  }

  lemma StampCopy(s: State, steps: seq<Step>, t: State, call: Call, c: Case, now: Time, strict: bool)
    returns (longer: seq<Step>)
    requires call.Transition? && now >= t.clock && (strict ==> now > t.clock)
    requires Leads(s, steps, With(t, Permitted(call, c)), strict)
    ensures Leads(s, longer, With(t.(clock := now), Edited(call, c, Enter(c, call.to, now))), strict)
  {
    StampApplied(t, call, c, now);
    longer := Extend(s, steps, With(t, Permitted(call, c)), Stamp(0, now), strict);
  }

  lemma TransitionIsRun(s: State, call: Call, now: Time, found: bool, saves: bool, records: bool)
    returns (steps: seq<Step>)
    requires s.pending == map[] && now >= s.clock && call.Transition?
    requires call.id in s.rows ==> s.rows[call.id].id == call.id
    ensures Leads(s, steps, TransitionCall(s, call, now, found, saves, records).state, now > s.clock)
  {
    steps := [];
    if call.id in s.rows {
      var c, strict := s.rows[call.id], now > s.clock;
      steps := ReadRow(s, call, strict);
      steps := LookUpTemplate(s, steps, s, call, c, found, strict);
      if Passes(s.templates, c, call.to, found) {
        var t := s.(unchecked := UncheckedAfter(s, c, found));
        steps := StampCopy(s, steps, t, call, c, now, strict);
        steps := FinishTransition(s, steps, t.(clock := now), call, c, saves, records, strict);
      }
    }
  }

  lemma TakeApplied(s: State, draft: Draft)
    requires s.pending == map[] && AcceptsDraft(draft)
    ensures var n := CounterOf(s, draft.tenantId) + 1;
      Apply(s, TakeNumber(0, draft)) ==
        With(s.(counters := s.counters[draft.tenantId := n]), Numbered(draft, CaseNumber.Number(draft.tenantId, n)))
  {
  }

  lemma ClockApplied(t: State, draft: Draft, number: string, now: Time)
    requires now >= t.clock
    ensures Apply(With(t, Numbered(draft, number)), CreateClock(0, now)) ==
      With(t.(clock := now), Timed(draft, number, now))
  {
    assert map[0 := Numbered(draft, number)][0 := Timed(draft, number, now)] == map[0 := Timed(draft, number, now)];
  }

  lemma OpenApplied(t: State, draft: Draft, number: string, id: string, found: bool)
    requires id !in t.ids
    ensures var c := Open(draft, id, number, t.clock, Found(t.templates, draft.workflowId, found));
      Apply(With(t, Timed(draft, number, t.clock)), CreateLookup(0, id, found)) ==
        With(t.(ids := t.ids + {id}), Drafted(c))
  {
    var c := Open(draft, id, number, t.clock, Found(t.templates, draft.workflowId, found));
    assert map[0 := Timed(draft, number, t.clock)][0 := Drafted(c)] == map[0 := Drafted(c)];
  }

  lemma InsertApplied(t: State, c: Case, ok: bool)
    ensures Apply(With(t, Drafted(c)), Insert(0, ok)) ==
      if ok then t.(rows := t.rows[c.id := c], pending := map[]) else t.(pending := map[])
  {
    assert map[0 := Drafted(c)] - {0} == map[];
  }

  lemma TakeNumberAndTime(s: State, draft: Draft, now: Time, strict: bool) returns (steps: seq<Step>)
    requires s.pending == map[] && now >= s.clock && (strict ==> now > s.clock) && AcceptsDraft(draft)
    ensures
      var n := CounterOf(s, draft.tenantId) + 1;
      var t := s.(counters := s.counters[draft.tenantId := n], clock := now);
      Leads(s, steps, With(t, Timed(draft, CaseNumber.Number(draft.tenantId, n), now)), strict)
  {
    assert Leads(s, [], s, strict);
    var n := CounterOf(s, draft.tenantId) + 1;
    var number, t := CaseNumber.Number(draft.tenantId, n), s.(counters := s.counters[draft.tenantId := n]);
    TakeApplied(s, draft);
    steps := Extend(s, [], s, TakeNumber(0, draft), strict);
    ClockApplied(t, draft, number, now);
    steps := Extend(s, steps, With(t, Numbered(draft, number)), CreateClock(0, now), strict);
  }

  lemma OpenAndInsert(s: State, steps: seq<Step>, t: State, draft: Draft, number: string, id: string,
                      found: bool, inserts: bool, strict: bool)
    returns (longer: seq<Step>)
    requires id !in t.ids && Leads(s, steps, With(t, Timed(draft, number, t.clock)), strict)
    ensures
      var u := t.(ids := t.ids + {id}, pending := map[]);
      var c := Open(draft, id, number, t.clock, Found(t.templates, draft.workflowId, found));
      Leads(s, longer, if inserts then u.(rows := t.rows[id := c]) else u, strict)
  {
    var c := Open(draft, id, number, t.clock, Found(t.templates, draft.workflowId, found));
    OpenApplied(t, draft, number, id, found);
    longer := Extend(s, steps, With(t, Timed(draft, number, t.clock)), CreateLookup(0, id, found), strict);
    InsertApplied(t.(ids := t.ids + {id}), c, inserts);
    longer := Extend(s, longer, With(t.(ids := t.ids + {id}), Drafted(c)), Insert(0, inserts), strict);
  }

  lemma CreateIsRun(s: State, draft: Draft, id: string, now: Time, numbers: bool, found: bool, inserts: bool)
    returns (steps: seq<Step>)
    requires s.pending == map[] && now >= s.clock && id !in s.ids
    ensures Leads(s, steps, CreateCall(s, draft, id, now, numbers, found, inserts).state, now > s.clock)
  {
    steps := [];
    if AcceptsDraft(draft) && numbers {
      var n := CounterOf(s, draft.tenantId) + 1;
      var t := s.(counters := s.counters[draft.tenantId := n], clock := now);
      steps := TakeNumberAndTime(s, draft, now, now > s.clock);
      steps := OpenAndInsert(s, steps, t, draft, CaseNumber.Number(draft.tenantId, n), id,
                             found, inserts, now > s.clock);
    }
  }

  // ---- What every call keeps ----

  /** The tables between two calls. */
  ghost predicate Sound(s: State) {
    s.pending == map[] && Safe(s) && NumbersOk(s)
  }

  lemma RunKeepsSound(s: State, steps: seq<Step>, t: State, strict: bool)
    requires Sound(s) && Leads(s, steps, t, strict) && t.pending == map[]
    ensures Sound(t)
    ensures strict && Told(s) ==> Told(t)
  {
    RunKeepsSafe(s, steps);
    RunKeepsNumbers(s, steps);
    if strict && Told(s) {
      AtomicRunKeeps(s, steps, "");
    }
  }

  /** What a call leaves is sound again, and the history still told when the clock moved. */
  ghost predicate Keeps(s: State, t: State, now: Time) {
    Sound(t) && (Told(s) && now > s.clock ==> Told(t))
  }

  lemma GetKeeps(s: State, id: string, now: Time, saves: bool)
    requires Sound(s) && now >= s.clock
    ensures Keeps(s, GetCall(s, id, now, saves).state, now)
  {
    var steps := GetIsRun(s, id, now, saves);
    RunKeepsSound(s, steps, GetCall(s, id, now, saves).state, now > s.clock);
  }

  lemma UpdateKeeps(s: State, id: string, patch: Patch, now: Time, saves: bool)
    requires Sound(s) && now >= s.clock
    ensures Keeps(s, UpdateCall(s, id, patch, now, saves).state, now)
  {
    var steps := UpdateIsRun(s, id, patch, now, saves);
    RunKeepsSound(s, steps, UpdateCall(s, id, patch, now, saves).state, now > s.clock);
  }

  lemma AssignKeeps(s: State, id: string, assignee: string, now: Time, saves: bool)
    requires Sound(s) && now >= s.clock
    ensures Keeps(s, AssignCall(s, id, assignee, now, saves).state, now)
  {
    var steps := AssignIsRun(s, id, assignee, now, saves);
    RunKeepsSound(s, steps, AssignCall(s, id, assignee, now, saves).state, now > s.clock);
  }

  lemma TransitionKeeps(s: State, call: Call, now: Time, found: bool, saves: bool, records: bool)
    requires Sound(s) && now >= s.clock && call.Transition?
    ensures Keeps(s, TransitionCall(s, call, now, found, saves, records).state, now)
  {
    var steps := TransitionIsRun(s, call, now, found, saves, records);
    RunKeepsSound(s, steps, TransitionCall(s, call, now, found, saves, records).state, now > s.clock);
  }

  lemma CreateKeeps(s: State, draft: Draft, id: string, now: Time, numbers: bool, found: bool, inserts: bool)
    requires Sound(s) && now >= s.clock && id !in s.ids
    ensures Keeps(s, CreateCall(s, draft, id, now, numbers, found, inserts).state, now)
  {
    var steps := CreateIsRun(s, draft, id, now, numbers, found, inserts);
    RunKeepsSound(s, steps, CreateCall(s, draft, id, now, numbers, found, inserts).state, now > s.clock);
  }

  // ---- What every call promises, field by field ----

  lemma GetPromise(s: State, id: string, now: Time, saves: bool)
    requires Safe(s) && now >= s.clock
    ensures var reply := GetCall(s, id, now, saves); GetDone(s, reply.state, reply.result, id, now, saves)
  {
    if id in s.rows { assert Good(s, s.rows[id]); }
  }

  lemma UpdatePromise(s: State, id: string, patch: Patch, now: Time, saves: bool)
    ensures var reply := UpdateCall(s, id, patch, now, saves);
      UpdateDone(s, reply.state, reply.result, id, patch, now, saves)
  {
  }

  lemma AssignPromise(s: State, id: string, assignee: string, now: Time, saves: bool)
    ensures var reply := AssignCall(s, id, assignee, now, saves);
      AssignDone(s, reply.state, reply.result, id, assignee, now, saves)
  {
  }

  lemma TransitionPromise(s: State, call: Call, now: Time, found: bool, saves: bool, records: bool)
    requires Safe(s) && now >= s.clock && call.Transition?
    ensures var reply := TransitionCall(s, call, now, found, saves, records);
      TransitionDone(s, reply.state, reply.result, call, now, found, saves, records)
  {
    if call.id in s.rows { assert Good(s, s.rows[call.id]) && s.rows[call.id].id == call.id; }
  }

  lemma CreatePromise(s: State, d: Draft, id: string, now: Time, numbers: bool, found: bool, inserts: bool)
    ensures var reply := CreateCall(s, d, id, now, numbers, found, inserts);
      CreateDone(s, reply.state, reply.result, d, id, now, numbers, found, inserts)
  {
    OpenIsOpened(s.templates, d, found, id, CaseNumber.Number(d.tenantId, CounterOf(s, d.tenantId) + 1), now);
  }

  // ---- The edits, on the fetched copy ----

  method EditCase(fetched: Case, patch: Patch, now: Time) returns (c: Case)
    ensures c == ApplyPatch(fetched, patch, now)
  {
    c := fetched;
    if patch.title.Some? {
      c := c.(title := patch.title.value);
    }
    if patch.description.Some? {
      c := c.(description := patch.description.value);
    }
    if patch.priority.Some? {
      c := c.(priority := patch.priority.value);
    }
    if patch.tags.Some? {
      c := c.(tags := patch.tags);
    }
    c := c.(updatedAt := now);
  }

  method EnterStatus(fetched: Case, to: string, now: Time) returns (c: Case)
    ensures c == Enter(fetched, to, now)
  {
    c := fetched.(status := to);
    c := c.(updatedAt := now);
    if to == RESOLVED {
      c := c.(resolvedAt := Some(now));
    }
    if to == CLOSED {
      c := c.(closedAt := Some(now));
    }
    if c.dueAt.Some? && !c.breached && now > c.dueAt.value {
      c := c.(breached := true);
    }
  }

  method DraftCase(draft: Draft, id: string, number: string, now: Time, template: Option<Template>) returns (c: Case)
    ensures c == Open(draft, id, number, now, template)
  {
    c := Case(id, draft.tenantId, number, draft.title, draft.description, NEW, draft.priority,
              None, draft.reporterId, draft.workflowId, None, false, draft.tags, now, now, None, None);
    if c.priority == "" {
      c := c.(priority := MEDIUM);
    }
    if template.Some? && template.value.slaHours > 0 {
      c := c.(dueAt := Some(now + SlaDuration(template.value.slaHours)), breached := false);
      // The source asks once more for an empty priority here; it was defaulted above.
    }
  }

  // ---- The service ----

  class Service {
    var rows: map<string, Case>
    var templates: map<string, Template>
    var history: seq<Entry>
    const numbers: CaseNumber.Counter
    ghost var clock: Time
    ghost var ids: set<string>
    ghost var unchecked: set<string>
    ghost var changes: seq<Change>

    /** The tables between two calls: nothing is in flight. */
    ghost function View(): State
      reads this, numbers
    {
      State(clock, rows, templates, history, numbers.counters, map[], ids, unchecked, changes)
    }

    ghost predicate Valid()
      reads this, numbers
    {
      numbers.Valid() && Sound(View())
    }

    constructor ()
      ensures Valid() && Initial(View()) && Told(View())
      ensures fresh(numbers)
    {
      rows, templates, history := map[], map[], [];
      clock, ids, unchecked, changes := 0, {}, {}, [];
      numbers := new CaseNumber.Counter();
    }

    method FindTemplate(workflowId: Option<string>, answers: bool) returns (t: Option<Template>)
      ensures t == Found(templates, workflowId, answers)
    {
      t := None;
      if workflowId.Some? && workflowId.value != "" {
        if answers && workflowId.value in templates {
          t := Some(templates[workflowId.value]);
        }
      }
    }

    method GetCase(id: string, now: Time, saves: bool) returns (r: Result<Case, Error>)
      requires Valid() && now >= clock
      modifies this
      ensures Reply(View(), r) == GetCall(old(View()), id, now, saves)
      ensures GetDone(old(View()), View(), r, id, now, saves)
      ensures Keeps(old(View()), View(), now)
    {
      GetKeeps(View(), id, now, saves);
      GetPromise(View(), id, now, saves);
      if id !in rows {
        return Err(NotFound);
      }
      var c := rows[id];
      clock := now;
      if c.dueAt.Some? && !c.breached && now > c.dueAt.value {
        c := c.(breached := true);
        if saves {
          rows := rows[id := c];
        }
      }
      assert rows == if saves then old(rows)[id := c] else old(rows);
      return Ok(c);
    }

    method UpdateCase(id: string, patch: Patch, now: Time, saves: bool) returns (r: Result<Case, Error>)
      requires Valid() && now >= clock
      modifies this
      ensures Reply(View(), r) == UpdateCall(old(View()), id, patch, now, saves)
      ensures UpdateDone(old(View()), View(), r, id, patch, now, saves)
      ensures Keeps(old(View()), View(), now)
    {
      UpdateKeeps(View(), id, patch, now, saves);
      UpdatePromise(View(), id, patch, now, saves);
      if id !in rows {
        return Err(NotFound);
      }
      if patch.title.Some? && Blank(patch.title.value) {
        return Err(InvalidInput);
      }
      var c := EditCase(rows[id], patch, now);
      clock := now;
      if !saves {
        return Err(StoreFailed);
      }
      rows := rows[id := c];
      return Ok(c);
    }

    method AssignCase(id: string, assignee: string, now: Time, saves: bool) returns (r: Result<Case, Error>)
      requires Valid() && now >= clock
      modifies this
      ensures Reply(View(), r) == AssignCall(old(View()), id, assignee, now, saves)
      ensures AssignDone(old(View()), View(), r, id, assignee, now, saves)
      ensures Keeps(old(View()), View(), now)
    {
      AssignKeeps(View(), id, assignee, now, saves);
      AssignPromise(View(), id, assignee, now, saves);
      if id !in rows {
        return Err(NotFound);
      }
      var c := rows[id];
      c := c.(assigneeId := Some(assignee));
      c := c.(updatedAt := now);
      clock := now;
      if !saves {
        return Err(StoreFailed);
      }
      rows := rows[id := c];
      return Ok(c);
    }

    method ValidateTransition(c: Case, to: string, found: bool) returns (passes: bool)
      requires c.status != to
      ensures passes <==> Passes(templates, c, to, found)
    {
      passes := true;
      var wf := FindTemplate(c.workflowId, found);
      if wf.Some? {
        passes := IsTransitionAllowed(wf.value.transitions, c.status, to);
      }
    }

    method TransitionCase(call: Call, now: Time, found: bool, saves: bool, records: bool)
      returns (r: Result<Case, Error>)
      requires Valid() && now >= clock && call.Transition?
      modifies this
      ensures Reply(View(), r) == TransitionCall(old(View()), call, now, found, saves, records)
      ensures TransitionDone(old(View()), View(), r, call, now, found, saves, records)
      ensures Keeps(old(View()), View(), now)
    {
      TransitionKeeps(View(), call, now, found, saves, records);
      TransitionPromise(View(), call, now, found, saves, records);
      if call.id !in rows {
        return Err(NotFound);
      }
      var c := rows[call.id];
      if c.status == call.to {
        return Ok(c);
      }
      var passes := ValidateTransition(c, call.to, found);
      if !passes {
        return Err(InvalidTransition);
      }
      unchecked := UncheckedAfter(View(), c, found);
      assert View() == old(View()).(unchecked := unchecked);
      r := EnterAndStore(c, call, now, saves, records);
    }

    /** TransitionCase, once its checks are passed. */
    method EnterAndStore(fetched: Case, call: Call, now: Time, saves: bool, records: bool)
      returns (r: Result<Case, Error>)
      requires call.Transition? && fetched.id == call.id
      modifies this
      ensures
        var c, t := Enter(fetched, call.to, now), old(View()).(clock := now);
        var e := Entry(call.id, fetched.status, call.to, call.reason, call.performedBy, now);
        Reply(View(), r) ==
          if !saves then Reply(t, Err(StoreFailed))
          else Reply(t.(rows := old(rows)[call.id := c],
                        history := if records then old(history) + [e] else old(history),
                        changes := old(changes) + [Change(e, records)]), Ok(c))
    {
      var c := EnterStatus(fetched, call.to, now);
      clock := now;
      if !saves {
        return Err(StoreFailed);
      }
      rows := rows[call.id := c];
      RecordTransition(Entry(c.id, fetched.status, call.to, call.reason, call.performedBy, now), records);
      return Ok(c);
    }

    /** The history entry of a saved transition, when the store takes it. */
    method RecordTransition(transition: Entry, records: bool)
      modifies this`history, this`changes
      ensures history == if records then old(history) + [transition] else old(history)
      ensures changes == old(changes) + [Change(transition, records)]
    {
      changes := changes + [Change(transition, records)];
      if records {
        history := history + [transition];
      }
    }

    /** The counter transaction, as the protocol sees it. */
    method TakeNumber(tenant: string, commits: bool) returns (number: Result<string, ()>)
      requires numbers.Valid()
      modifies numbers
      ensures numbers.Valid()
      ensures var n := CounterOf(old(View()), tenant) + 1;
        if commits
        then number == Ok(CaseNumber.Number(tenant, n)) && numbers.counters == old(numbers.counters)[tenant := n]
        else number == Err(()) && numbers.counters == old(numbers.counters)
    {
      assert CounterOf(View(), tenant) == CaseNumber.Granted(numbers.attempts, tenant);
      number := numbers.NextCaseNumber(tenant, commits);
    }

    /** id is the UUID the call draws. */
    method CreateCase(draft: Draft, id: string, now: Time, commits: bool, found: bool, inserts: bool)
      returns (r: Result<Case, Error>)
      requires Valid() && now >= clock && id !in ids
      modifies this, numbers
      ensures Valid()
      ensures Reply(View(), r) == CreateCall(old(View()), draft, id, now, commits, found, inserts)
      ensures CreateDone(old(View()), View(), r, draft, id, now, commits, found, inserts)
      ensures Keeps(old(View()), View(), now)
    {
      ghost var s := View();
      r := NumberAndStore(draft, id, now, commits, found, inserts);
      CreateKeeps(s, draft, id, now, commits, found, inserts);
      CreatePromise(s, draft, id, now, commits, found, inserts);
    }

    /** The statements of CreateCase, on the tables alone. */
    method NumberAndStore(draft: Draft, id: string, now: Time, commits: bool, found: bool, inserts: bool)
      returns (r: Result<Case, Error>)
      requires numbers.Valid()
      modifies this, numbers
      ensures numbers.Valid()
      ensures Reply(View(), r) == CreateCall(old(View()), draft, id, now, commits, found, inserts)
    {
      if Blank(draft.title) || draft.tenantId == "" || draft.reporterId == "" {
        return Err(InvalidInput);
      }
      var number := TakeNumber(draft.tenantId, commits);
      if number.Err? {
        return Err(StoreFailed);
      }
      r := OpenAndStore(draft, number.value, id, now, found, inserts);
    }

    /** CreateCase, once it holds a number. */
    method OpenAndStore(draft: Draft, number: string, id: string, now: Time, found: bool, inserts: bool)
      returns (r: Result<Case, Error>)
      modifies this
      ensures var c := Open(draft, id, number, now, Found(templates, draft.workflowId, found));
        var t := old(View()).(clock := now, ids := old(ids) + {id});
        Reply(View(), r) ==
          if inserts then Reply(t.(rows := old(rows)[id := c]), Ok(c)) else Reply(t, Err(StoreFailed))
    {
      clock, ids := now, ids + {id};
      var wf := FindTemplate(draft.workflowId, found);
      var c := DraftCase(draft, id, number, now, wf);
      if !inserts {
        return Err(StoreFailed);
      }
      rows := rows[id := c];
      return Ok(c);
    }

    /** Templates are only ever added, under fresh ids. */
    method CreateTemplate(id: string, template: Template)
      requires Valid() && id !in templates
      modifies this
      ensures View() == old(View()).(templates := old(templates)[id := template])
      ensures Valid() && (old(Told(View())) ==> Told(View()))
    {
      ghost var s := View();
      assert Leads(s, [], s, true);
      ghost var steps := Extend(s, [], s, AddTemplate(id, template), true);
      templates := templates[id := template];
      RunKeepsSound(s, steps, View(), true);
    }
  }
}
