/** Case numbers under every interleaving: no two cases of a tenant ever carry the same one. */
module CaseNumbering {
  import opened Prelude
  import opened CaseProtocol
  import opened CaseSafety
  import CaseNumber

  /** A case number is held by a stored case or by a request still creating one. */
  datatype Holder = Row(id: string) | Request(r: nat)

  datatype Claim = Claim(tenant: string, number: string)

  function ClaimOf(s: State, h: Holder): Option<Claim> {
    match h
    case Row(id) =>
      if id in s.rows then Some(Claim(s.rows[id].tenantId, s.rows[id].caseNumber)) else None
    case Request(r) =>
      if r !in s.pending then None
      else match s.pending[r] {
        case Numbered(draft, number) => Some(Claim(draft.tenantId, number))
        case Timed(draft, number, _) => Some(Claim(draft.tenantId, number))
        case Drafted(copy) => Some(Claim(copy.tenantId, copy.caseNumber))
        case _ => None
      }
  }

  /** The number was printed from a value the tenant's counter has passed. */
  predicate Issued(s: State, c: Claim) {
    CaseNumber.HasSerial(c.tenant, c.number) && 1 <= CaseNumber.Serial(c.tenant, c.number) <= CounterOf(s, c.tenant)
  }

  ghost predicate NumbersOk(s: State) {
    && (forall h :: ClaimOf(s, h).Some? ==> Issued(s, ClaimOf(s, h).value))
    && (forall g, h :: g != h && ClaimOf(s, g).Some? ==> ClaimOf(s, g) != ClaimOf(s, h))
  }

  /** Who held before the step what h holds after it. */
  function Origin(s: State, step: Step, h: Holder): Holder
    requires Enabled(s, step)
  {
    if step.Insert? && step.ok && h == Row(s.pending[step.r].copy.id) then Request(step.r) else h
  }

  predicate Takes(step: Step, h: Holder) {
    step.TakeNumber? && h == Request(step.r)
  }

  lemma RowClaimPassedOn(s: State, step: Step, id: string)
    requires Enabled(s, step) && WritesKnown(s, step)
    requires ClaimOf(Apply(s, step), Row(id)).Some?
    ensures ClaimOf(s, Origin(s, step, Row(id))) == ClaimOf(Apply(s, step), Row(id))
  {
    if !step.AddTemplate? {
      RowWritten(s, step);
    }
  }

  lemma RequestClaimPassedOn(s: State, step: Step, r: nat)
    requires Enabled(s, step) && !Takes(step, Request(r))
    requires ClaimOf(Apply(s, step), Request(r)).Some?
    ensures ClaimOf(s, Request(r)) == ClaimOf(Apply(s, step), Request(r))
  {
    if step.AddTemplate? || r != step.r {
      OthersKept(s, step, r);
    }
  }

  /** A claim is passed on, or it is the one just taken from the counter. */
  lemma ClaimPassedOn(s: State, step: Step, h: Holder)
    requires Safe(s) && Enabled(s, step)
    requires ClaimOf(Apply(s, step), h).Some? && !Takes(step, h)
    ensures ClaimOf(s, Origin(s, step, h)) == ClaimOf(Apply(s, step), h)
  {
    if step.Save? || step.Insert? { assert PendingOk(s, s.pending[step.r]); }
    match h
    case Row(id) => RowClaimPassedOn(s, step, id);
    case Request(r) => RequestClaimPassedOn(s, step, r);
  }

  lemma OriginInjective(s: State, step: Step, g: Holder, h: Holder)
    requires Enabled(s, step) && g != h
    requires ClaimOf(Apply(s, step), g).Some? && ClaimOf(Apply(s, step), h).Some?
    ensures Origin(s, step, g) != Origin(s, step, h)
  {
  }

  lemma CounterNeverShrinks(s: State, step: Step, tenant: string)
    requires Enabled(s, step)
    ensures CounterOf(s, tenant) <= CounterOf(Apply(s, step), tenant)
  {
  }

  lemma TakenNumberIsNew(s: State, step: Step, h: Holder)
    requires Enabled(s, step) && Takes(step, h)
    ensures var c := ClaimOf(Apply(s, step), h);
      c.Some? && Issued(Apply(s, step), c.value) && !Issued(s, c.value)
  {
    var tenant := step.draft.tenantId;
    var n := CounterOf(s, tenant) + 1;
    var t := Apply(s, step);
    assert t == Perform(s, step.r, TakeNext(s, step.draft));
    assert CounterOf(t, tenant) == n;
    assert ClaimOf(t, h) == Some(Claim(tenant, CaseNumber.Number(tenant, n)));
    CaseNumber.SerialOfNumber(tenant, n);
  }

  lemma StepKeepsNumbers(s: State, step: Step)
    requires Safe(s) && NumbersOk(s) && Enabled(s, step)
    ensures NumbersOk(Apply(s, step))
  {
    var t := Apply(s, step);
    forall h | ClaimOf(t, h).Some?
      ensures Issued(t, ClaimOf(t, h).value)
      ensures Takes(step, h) || (ClaimOf(s, Origin(s, step, h)) == ClaimOf(t, h) && Issued(s, ClaimOf(t, h).value))
    {
      if Takes(step, h) {
        TakenNumberIsNew(s, step, h);
      } else {
        ClaimPassedOn(s, step, h);
        CounterNeverShrinks(s, step, ClaimOf(t, h).value.tenant);
      }
    }
    forall g, h | g != h && ClaimOf(t, g).Some?
      ensures ClaimOf(t, g) != ClaimOf(t, h)
    {
      if ClaimOf(t, h).Some? {
        OriginInjective(s, step, g, h);
        if Takes(step, g) { TakenNumberIsNew(s, step, g); }
        if Takes(step, h) { TakenNumberIsNew(s, step, h); }
      }
    }
  }

  lemma {:induction false} RunKeepsNumbers(s: State, steps: seq<Step>)
    requires Safe(s) && NumbersOk(s) && Runs(s, steps)
    ensures NumbersOk(Run(s, steps))
    decreases steps
  {
    if steps == [] {
    } else {
      StepKeepsSafe(s, steps[0]);
      StepKeepsNumbers(s, steps[0]);
      RunKeepsNumbers(Apply(s, steps[0]), steps[1..]);
    }
  }

  /** Two cases of one tenant never share a number, whatever the interleaving and however many were opened. */
  lemma NumbersUniqueInEveryInterleaving(s: State, steps: seq<Step>, id: string, other: string)
    requires Initial(s) && Runs(s, steps)
    requires id in Run(s, steps).rows && other in Run(s, steps).rows && id != other
    requires Run(s, steps).rows[id].tenantId == Run(s, steps).rows[other].tenantId
    ensures Run(s, steps).rows[id].caseNumber != Run(s, steps).rows[other].caseNumber
  {
    RunKeepsNumbers(s, steps);
    var t := Run(s, steps);
    assert ClaimOf(t, Row(id)) != ClaimOf(t, Row(other));
  }
}
