/**
 The status history of a case. Its saved status changes form a chain from "new"
 to the stored status exactly as long as no save meets a status other than the
 one its request read; one overlapping pair of transitions breaks it.
 */
module CaseChain {
  import opened Prelude
  import opened CaseModel
  import opened CaseProtocol
  import opened CaseSafety

  /** The entries of one case, in table order. */
  function Of(entries: seq<Entry>, id: string): seq<Entry> {
    if entries == [] then []
    else
      var last := entries[|entries| - 1];
      Of(entries[..|entries| - 1], id) + (if last.caseId == id then [last] else [])
  }

  function Entries(changes: seq<Change>): (es: seq<Entry>)
    ensures |es| == |changes|
    ensures forall i :: 0 <= i < |es| ==> es[i] == changes[i].entry
  {
    seq(|changes|, i requires 0 <= i < |changes| => changes[i].entry)
  }

  /** The saved status changes of one case, in the order of the saves. */
  function Moves(s: State, id: string): seq<Entry> {
    Of(Entries(s.changes), id)
  }

  /** Each entry starts where the one before it ended, the first from "new", the last at status. */
  predicate ChainTo(entries: seq<Entry>, status: string) {
    if entries == [] then status == NEW
    else
      var last := entries[|entries| - 1];
      last.to == status && ChainTo(entries[..|entries| - 1], last.from)
  }

  lemma OfAppend(entries: seq<Entry>, e: Entry, id: string)
    ensures Of(entries + [e], id) == Of(entries, id) + (if e.caseId == id then [e] else [])
  {
    assert (entries + [e])[..|entries|] == entries;
  }

  lemma ChainAppend(entries: seq<Entry>, e: Entry, status: string)
    ensures ChainTo(entries + [e], status) <==> e.to == status && ChainTo(entries, e.from)
  {
    assert (entries + [e])[..|entries|] == entries;
  }

  lemma ChainEndUnique(entries: seq<Entry>, a: string, b: string)
    requires ChainTo(entries, a)
    ensures ChainTo(entries, b) <==> a == b
  {
  }

  lemma {:induction false} OfNone(entries: seq<Entry>, id: string)
    requires forall i :: 0 <= i < |entries| ==> entries[i].caseId != id
    ensures Of(entries, id) == []
  {
    if entries == [] {
    } else {
      OfNone(entries[..|entries| - 1], id);
    }
  }

  ghost predicate Chained(s: State, id: string) {
    id in s.rows ==> ChainTo(Moves(s, id), s.rows[id].status)
  }

  /** A save of the case that meets a status other than the one its request read. */
  predicate Stale(s: State, step: Step, id: string)
    requires Enabled(s, step)
  {
    && step.Save? && step.ok && s.pending[step.r].copy.id == id
    && id in s.rows && s.rows[id].status != s.pending[step.r].base.status
  }

  ghost predicate NeverStale(s: State, steps: seq<Step>, id: string)
    requires Runs(s, steps)
    decreases steps
  {
    steps == [] || (!Stale(s, steps[0], id) && NeverStale(Apply(s, steps[0]), steps[1..], id))
  }

  ghost predicate AlwaysChained(s: State, steps: seq<Step>, id: string)
    requires Runs(s, steps)
    decreases steps
  {
    Chained(s, id) && (steps == [] || AlwaysChained(Apply(s, steps[0]), steps[1..], id))
  }

  /** Only a successful save of a transition adds a status change. */
  lemma MovesAfter(s: State, step: Step, id: string)
    requires Enabled(s, step)
    ensures Moves(Apply(s, step), id) ==
      if step.Save? && step.ok && s.pending[step.r].call.Transition? && s.pending[step.r].copy.id == id
      then Moves(s, id) + [SaveCopy(s, s.pending[step.r]).changed.value] else Moves(s, id)
  {
    var t := Apply(s, step);
    if step.Save? && step.ok && s.pending[step.r].call.Transition? {
      var e := SaveCopy(s, s.pending[step.r]).changed.value;
      assert Entries(t.changes) == Entries(s.changes) + [e];
      OfAppend(Entries(s.changes), e, id);
    } else {
      assert Entries(t.changes) == Entries(s.changes);
    }
  }

  lemma StatusAfter(s: State, step: Step, id: string)
    requires Enabled(s, step) && ActorKnown(s, step) && id in Apply(s, step).rows
    ensures
      if step.Save? && step.ok && s.pending[step.r].copy.id == id
      then id in s.rows && Apply(s, step).rows[id].status ==
             (if s.pending[step.r].call.Transition? then s.pending[step.r].call.to else s.pending[step.r].base.status)
      else if id in s.rows then Apply(s, step).rows[id].status == s.rows[id].status
      else Apply(s, step).rows[id].status == NEW
  {
    if !step.AddTemplate? {
      RowWritten(s, step);
    }
  }

  lemma NoMovesBeforeInsert(s: State, id: string)
    requires Safe(s) && id !in s.rows
    ensures Moves(s, id) == []
  {
    var es := Entries(s.changes);
    forall i | 0 <= i < |es|
      ensures es[i].caseId != id
    {
      assert EntryOk(s, s.changes[i].entry);
    }
    OfNone(es, id);
  }

  /** One step keeps the chain exactly when it is not a stale save. */
  lemma StepKeepsChain(s: State, step: Step, id: string)
    requires Safe(s) && Enabled(s, step) && Chained(s, id)
    ensures Chained(Apply(s, step), id) <==> !Stale(s, step, id)
  {
    var t := Apply(s, step);
    if id in t.rows {
      StatusAfter(s, step, id);
      MovesAfter(s, step, id);
      if id !in s.rows {
        NoMovesBeforeInsert(s, id);
      } else if step.Save? && step.ok && s.pending[step.r].copy.id == id {
        var p := s.pending[step.r];
        assert PendingOk(s, p);
        ChainEndUnique(Moves(s, id), s.rows[id].status, p.base.status);
        if p.call.Transition? {
          ChainAppend(Moves(s, id), SaveCopy(s, p).changed.value, t.rows[id].status);
        }
      }
    }
  }

  lemma {:induction false} ChainWhileNotStale(s: State, steps: seq<Step>, id: string)
    requires Safe(s) && Runs(s, steps) && Chained(s, id)
    ensures AlwaysChained(s, steps, id) <==> NeverStale(s, steps, id)
    decreases steps
  {
    if steps == [] {
    } else {
      var t := Apply(s, steps[0]);
      StepKeepsSafe(s, steps[0]);
      StepKeepsChain(s, steps[0], id);
      if Chained(t, id) {
        ChainWhileNotStale(t, steps[1..], id);
      } else {
        assert !AlwaysChained(t, steps[1..], id);
      }
    }
  }

  /**
   In any interleaving: the saved changes of a case form a chain from "new" to
   the stored status at every moment of the run, if and only if no save of the
   case met a status other than the one its request had read.
   */
  lemma ChainIffNoStaleSave(s: State, steps: seq<Step>, id: string)
    requires Initial(s) && Runs(s, steps)
    ensures AlwaysChained(s, steps, id) <==> NeverStale(s, steps, id)
  {
    ChainWhileNotStale(s, steps, id);
  }

  // ---- Runs that break what other runs keep ----

  lemma {:induction false} Then(s: State, steps: seq<Step>, step: Step)
    requires Runs(s, steps) && Enabled(Run(s, steps), step)
    ensures Runs(s, steps + [step])
    ensures Run(s, steps + [step]) == Apply(Run(s, steps), step)
    decreases steps
  {
    if steps == [] {
      assert [] + [step] == [step];
      assert Runs(Apply(s, step), [step][1..]);
    } else {
      assert (steps + [step])[1..] == steps[1..] + [step];
      Then(Apply(s, steps[0]), steps[1..], step);
    }
  }

  const OVERLAP_DRAFT := Draft("t", "u", "x", "", "", None, None)

  /** A run that leaves the table empty goes on to the fresh case "c". */
  lemma FreshCase(s: State, before: seq<Step>, workflow: Option<string>) returns (steps: seq<Step>)
    requires Runs(s, before)
    requires var b := Run(s, before);
      b.rows == map[] && b.pending == map[] && b.ids == {} && b.history == [] && b.changes == []
    ensures Runs(s, steps)
    ensures var b, t := Run(s, before), Run(s, steps);
      && t.templates == b.templates && t.pending == map[]
      && t.history == [] && t.changes == [] && "c" in t.rows && t.rows["c"].id == "c"
      && t.rows["c"].status == NEW && t.rows["c"].workflowId == workflow
  {
    assert OVERLAP_DRAFT.title[0] == 'x';
    steps := TimedDraft(s, before, OVERLAP_DRAFT.(workflowId := workflow));
    Then(s, steps, CreateLookup(0, "c", true));
    steps := steps + [CreateLookup(0, "c", true)];
    Then(s, steps, Insert(0, true));
    steps := steps + [Insert(0, true)];
  }

  lemma TimedDraft(s: State, before: seq<Step>, d: Draft) returns (steps: seq<Step>)
    requires Runs(s, before) && Run(s, before).pending == map[] && AcceptsDraft(d)
    ensures Runs(s, steps)
    ensures var b, t := Run(s, before), Run(s, steps);
      && t.rows == b.rows && t.templates == b.templates && t.ids == b.ids && t.history == b.history
      && t.changes == b.changes
      && exists number :: t.pending == map[0 := Timed(d, number, b.clock)]
  {
    var now := Run(s, before).clock;
    Then(s, before, TakeNumber(0, d));
    steps := before + [TakeNumber(0, d)];
    Then(s, steps, CreateClock(0, now));
    steps := steps + [CreateClock(0, now)];
  }

  /** Request r reads its case and passes the check. */
  lemma ReadAndPermitted(s: State, before: seq<Step>, r: nat, call: Call, ok: bool) returns (steps: seq<Step>)
    requires Runs(s, before) && call.Transition?
    requires var b := Run(s, before);
      r !in b.pending && call.id in b.rows && Passes(b.templates, b.rows[call.id], call.to, ok)
    ensures Runs(s, steps)
    ensures var b, t := Run(s, before), Run(s, steps);
      && t.rows == b.rows && t.templates == b.templates && t.history == b.history && t.changes == b.changes
      && t.clock == b.clock && t.pending == b.pending[r := Permitted(call, b.rows[call.id])]
  {
    Then(s, before, Read(r, call));
    steps := before + [Read(r, call)];
    Then(s, steps, Lookup(r, ok));
    steps := steps + [Lookup(r, ok)];
  }

  /** Request r reads its case, passes the check and is about to save. */
  lemma ReadyToSave(s: State, before: seq<Step>, r: nat, call: Call, ok: bool) returns (steps: seq<Step>)
    requires Runs(s, before) && call.Transition?
    requires var b := Run(s, before);
      r !in b.pending && call.id in b.rows && Passes(b.templates, b.rows[call.id], call.to, ok)
    ensures Runs(s, steps)
    ensures var b, t := Run(s, before), Run(s, steps);
      && t.rows == b.rows && t.templates == b.templates && t.history == b.history && t.changes == b.changes
      && t.pending == b.pending[r := Edited(call, b.rows[call.id], Enter(b.rows[call.id], call.to, b.clock))]
  {
    var permitted := ReadAndPermitted(s, before, r, call, ok);
    var stamp := Stamp(r, Run(s, before).clock);
    Then(s, permitted, stamp);
    steps := permitted + [stamp];
  }

  /** Request r saves its copy over the row and records its entry. */
  lemma SaveAndRecord(s: State, before: seq<Step>, r: nat) returns (steps: seq<Step>)
    requires Runs(s, before)
    requires var b := Run(s, before); r in b.pending && b.pending[r].Edited? && b.pending[r].call.Transition?
    ensures Runs(s, steps)
    ensures var b, t := Run(s, before), Run(s, steps); var p := b.pending[r];
      && t.rows == b.rows[p.copy.id := p.copy] && t.templates == b.templates && t.pending == b.pending - {r}
      && t.history == b.history + [Entry(p.copy.id, p.base.status, p.call.to, p.call.reason,
                                         p.call.performedBy, p.copy.updatedAt)]
  {
    Then(s, before, Save(r, true));
    steps := before + [Save(r, true)];
    Then(s, steps, Record(r, true));
    steps := steps + [Record(r, true)];
  }

  /** Both requests read "new"; each saves its own transition over the other. */
  lemma OverlappingTransitionsBreakTheChain(s: State) returns (steps: seq<Step>)
    requires Initial(s)
    ensures Runs(s, steps)
    ensures var t := Run(s, steps);
      && t.pending == map[] && |t.history| == 2
      && t.history[0].caseId == t.history[1].caseId == "c"
      && t.history[0].to == "open" && t.history[1].from == NEW
      && "c" in t.rows && !ChainTo(t.history, t.rows["c"].status)
  {
    steps := FreshCase(s, [], None);
    steps := ReadyToSave(s, steps, 1, Transition("c", "open", "", "p"), true);
    steps := ReadyToSave(s, steps, 2, Transition("c", "closed", "", "q"), true);
    steps := SaveAndRecord(s, steps, 1);
    steps := SaveAndRecord(s, steps, 2);
  }

  lemma NothingReachableWithoutEdges(status: string)
    requires status != NEW
    ensures !Reachable([], status)
  {
    forall walk | IsWalk([], walk)
      ensures walk[|walk| - 1] != status
    {
      assert |walk| > 1 ==> HasEdge([], walk[0], walk[1]);
    }
  }

  lemma {:induction false} Outgrow(edges: seq<Edge>) returns (n: nat)
    ensures forall i :: 0 <= i < |edges| ==> |edges[i].to| < n
  {
    if edges == [] {
      n := 0;
    } else {
      n := Outgrow(edges[1..]);
      n := if |edges[0].to| < n then n else |edges[0].to| + 1;
    }
  }

  /** No finite graph has every edge. */
  lemma SomeMissingEdge(edges: seq<Edge>, from: string) returns (to: string)
    ensures to != from && !HasEdge(edges, from, to)
  {
    var n := Outgrow(edges);
    to := seq(n + |from| + 1, _ => 'x');
  }

  /** The check holds every transition to the case's template exactly when the template lookup answered. */
  lemma CheckBindsExactlyWhenAnswered(templates: map<string, Template>, c: Case, ok: bool)
    requires c.Attached() && c.workflowId.value in templates
    ensures
      var edges := templates[c.workflowId.value].transitions;
      (forall to :: Passes(templates, c, to, ok) ==> HasEdge(edges, c.status, to)) <==> ok
  {
    if !ok {
      var to := SomeMissingEdge(templates[c.workflowId.value].transitions, c.status);
      assert Passes(templates, c, to, ok);
    }
  }

  /** One failed template lookup lets a case leave its graph: the check is skipped. */
  lemma FailedLookupLeavesTheGraph(s: State) returns (steps: seq<Step>)
    requires Initial(s)
    ensures Runs(s, steps)
    ensures var t := Run(s, steps);
      && "c" in t.rows && t.rows["c"].workflowId == Some("w") && "w" in t.templates
      && !Reachable(t.templates["w"].transitions, t.rows["c"].status)
  {
    var template := AddTemplate("w", Template([], 0, ""));
    Then(s, [], template);
    steps := FreshCase(s, [template], Some("w"));
    steps := ReadyToSave(s, steps, 1, Transition("c", "open", "", "p"), false);
    steps := SaveAndRecord(s, steps, 1);
    NothingReachableWithoutEdges("open");
  }
}
