/**
 The resolution and closing stamps of a case under any interleaving: when they are
 the times of its last saved changes into their status, and when they are not.
 */
module CaseStamps {
  import opened Prelude
  import opened CaseModel
  import opened CaseProtocol
  import opened CaseSafety
  import opened CaseChain
  import opened CaseAtomic
  import opened CaseHistory

  /** The two statuses that leave a stamp. */
  predicate Stamped(status: string) {
    status == RESOLVED || status == CLOSED
  }

  function StampFor(c: Case, status: string): Option<Time>
    requires Stamped(status)
  {
    if status == RESOLVED then c.resolvedAt else c.closedAt
  }

  /** The stamp is the time of the last saved change into its status, unset exactly when there is none. */
  ghost predicate StampTold(s: State, id: string, status: string)
    requires Stamped(status)
  {
    id in s.rows ==> StampFor(s.rows[id], status) == LastEntry(Moves(s, id), status)
  }

  ghost predicate AlwaysStampTold(s: State, steps: seq<Step>, id: string, status: string)
    requires Runs(s, steps) && Stamped(status)
    decreases steps
  {
    StampTold(s, id, status) && (steps == [] || AlwaysStampTold(Apply(s, steps[0]), steps[1..], id, status))
  }

  /** A save of the case, other than one that sets the stamp, that meets another stamp than its request read. */
  predicate Overstamps(s: State, step: Step, id: string, status: string)
    requires Enabled(s, step) && Stamped(status)
  {
    && step.Save? && step.ok && s.pending[step.r].copy.id == id && id in s.rows
    && var p := s.pending[step.r];
       !(p.call.Transition? && p.call.to == status) && StampFor(s.rows[id], status) != StampFor(p.base, status)
  }

  ghost predicate NeverOverstamps(s: State, steps: seq<Step>, id: string, status: string)
    requires Runs(s, steps) && Stamped(status)
    decreases steps
  {
    steps == [] ||
    (!Overstamps(s, steps[0], id, status) && NeverOverstamps(Apply(s, steps[0]), steps[1..], id, status))
  }

  // ---- What private copies hold ----

  predicate CopyStamped(p: Pending) {
    match p
    case Edited(call, base, copy) => EditTold(call, base, copy)
    case Drafted(copy) => copy.resolvedAt == copy.closedAt == None
    case _ => true
  }

  ghost predicate CopiesStamped(s: State) {
    forall r :: r in s.pending ==> CopyStamped(s.pending[r])
  }

  lemma ActorStamped(s: State, step: Step)
    requires Enabled(s, step) && !step.AddTemplate? && step.r in Apply(s, step).pending
    ensures CopyStamped(Apply(s, step).pending[step.r])
  {
  }

  lemma StepKeepsCopiesStamped(s: State, step: Step)
    requires Enabled(s, step) && CopiesStamped(s)
    ensures CopiesStamped(Apply(s, step))
  {
    var t := Apply(s, step);
    forall r | r in t.pending
      ensures CopyStamped(t.pending[r])
    {
      StepFrame(s, step, r);
      if !step.AddTemplate? && r == step.r { ActorStamped(s, step); }
    }
  }

  // ---- One step ----

  /** What a save leaves: the edited stamp, and the change if it is a transition. */
  lemma SaveStamps(s: State, step: Step, id: string, status: string)
    requires Safe(s) && CopiesStamped(s) && Enabled(s, step) && Stamped(status)
    requires step.Save? && step.ok && s.pending[step.r].copy.id == id
    ensures id in s.rows && id in Apply(s, step).rows
    ensures var p, t := s.pending[step.r], Apply(s, step);
      if p.call.Transition? && p.call.to == status
      then StampFor(t.rows[id], status) == LastEntry(Moves(t, id), status)
      else StampFor(t.rows[id], status) == StampFor(p.base, status) &&
           LastEntry(Moves(t, id), status) == LastEntry(Moves(s, id), status)
  {
    var p := s.pending[step.r];
    assert PendingOk(s, p) && CopyStamped(p);
    MovesAfter(s, step, id);
    if p.call.Transition? {
      LastEntryAppend(Moves(s, id), SaveCopy(s, p).changed.value, status);
    }
  }

  lemma InsertStamps(s: State, step: Step, id: string, status: string)
    requires Safe(s) && CopiesStamped(s) && Enabled(s, step) && Stamped(status)
    requires id !in s.rows && id in Apply(s, step).rows
    ensures StampTold(Apply(s, step), id, status)
  {
    assert step.Insert? && Apply(s, step).rows[id] == s.pending[step.r].copy by {
      if !step.AddTemplate? { RowWritten(s, step); }
      assert !step.Save? || PendingOk(s, s.pending[step.r]);
    }
    assert CopyStamped(s.pending[step.r]);
    MovesAfter(s, step, id);
    NoMovesBeforeInsert(s, id);
  }

  lemma OthersKeepStamp(s: State, step: Step, id: string, status: string)
    requires Safe(s) && Enabled(s, step) && Stamped(status) && StampTold(s, id, status) && id in s.rows
    requires !(step.Save? && step.ok && s.pending[step.r].copy.id == id)
    ensures StampTold(Apply(s, step), id, status)
  {
    if step.Insert? { assert PendingOk(s, s.pending[step.r]); }
    OtherRowsStay(s, step, id);
    MovesAfter(s, step, id);
  }

  /** One step keeps a stamp told exactly when it does not overstamp it. */
  lemma StepKeepsStampTold(s: State, step: Step, id: string, status: string)
    requires Safe(s) && CopiesStamped(s) && Enabled(s, step) && Stamped(status) && StampTold(s, id, status)
    ensures StampTold(Apply(s, step), id, status) <==> !Overstamps(s, step, id, status)
  {
    if step.Save? && step.ok && s.pending[step.r].copy.id == id {
      SaveStamps(s, step, id, status);
    } else if id in s.rows {
      OthersKeepStamp(s, step, id, status);
    } else if id in Apply(s, step).rows {
      InsertStamps(s, step, id, status);
    }
  }

  lemma {:induction false} ToldWhileNotOverstamped(s: State, steps: seq<Step>, id: string, status: string)
    requires Safe(s) && CopiesStamped(s) && Runs(s, steps) && Stamped(status) && StampTold(s, id, status)
    ensures AlwaysStampTold(s, steps, id, status) <==> NeverOverstamps(s, steps, id, status)
    decreases steps
  {
    if steps == [] {
    } else {
      var t := Apply(s, steps[0]);
      StepKeepsSafe(s, steps[0]);
      StepKeepsCopiesStamped(s, steps[0]);
      StepKeepsStampTold(s, steps[0], id, status);
      if StampTold(t, id, status) {
        ToldWhileNotOverstamped(t, steps[1..], id, status);
      } else {
        assert !AlwaysStampTold(t, steps[1..], id, status);
      }
    }
  }

  // ---- Main results ----

  /**
   In any interleaving, with any failures: at every moment of the run a stamp of the
   case is the time of its last saved change into that status, unset when there is
   none, if and only if no save but one that sets the stamp meets another stamp than
   its request read.
   */
  lemma StampsToldExactly(s: State, steps: seq<Step>, id: string, status: string)
    requires Initial(s) && Runs(s, steps) && Stamped(status)
    ensures AlwaysStampTold(s, steps, id, status) <==> NeverOverstamps(s, steps, id, status)
  {
    ToldWhileNotOverstamped(s, steps, id, status);
  }

  lemma {:induction false} ToldAtEnd(s: State, steps: seq<Step>, id: string, status: string)
    requires Runs(s, steps) && Stamped(status) && AlwaysStampTold(s, steps, id, status)
    ensures StampTold(Run(s, steps), id, status)
    decreases steps
  {
    if steps == [] {
    } else {
      ToldAtEnd(Apply(s, steps[0]), steps[1..], id, status);
    }
  }

  lemma {:induction false} NoOverwriteNoOverstamp(s: State, steps: seq<Step>, id: string, status: string)
    requires Runs(s, steps) && Stamped(status) && NeverOverwrites(s, steps, id)
    ensures NeverOverstamps(s, steps, id, status)
    decreases steps
  {
    if steps == [] {
    } else {
      NoOverwriteNoOverstamp(Apply(s, steps[0]), steps[1..], id, status);
    }
  }

  /**
   While the clock rises, no save of the case overwrites a row its request did not
   read, no entry is lost and nothing is left in flight: each stamp is the time of
   the latest entry into its status that a history query answers.
   */
  lemma StampsWithoutOverwrites(s: State, steps: seq<Step>, id: string, result: seq<Entry>, status: string)
    requires Initial(s) && Runs(s, steps) && ClockRises(s, steps) && Stamped(status)
    requires NeverOverwrites(s, steps, id) && NeverLoses(s, steps, id)
    requires Settled(Run(s, steps), id) && IsHistoryOf(result, Run(s, steps).history, id) && id in Run(s, steps).rows
    ensures StampFor(Run(s, steps).rows[id], status) == LastEntry(result, status)
  {
    NoOverwriteIsInTurn(s, steps, id);
    HistoryInTurnIsStatusChanges(s, steps, id, result);
    NoOverwriteNoOverstamp(s, steps, id, status);
    StampsToldExactly(s, steps, id, status);
    ToldAtEnd(s, steps, id, status);
  }
}
