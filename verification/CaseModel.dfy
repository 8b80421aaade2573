/** Entities of the workflow service and the pure rules its case operations apply to them. */
module CaseModel {
  import opened Prelude

  /** Nanoseconds since the epoch. */
  type Time = int

  const NEW := "new"
  const RESOLVED := "resolved"
  const CLOSED := "closed"
  const MEDIUM := "medium"

  /** time.Hour of Go's time package, in nanoseconds. */
  const HOUR := 3_600_000_000_000

  datatype Edge = Edge(from: string, to: string, caption: string)

  datatype Template = Template(transitions: seq<Edge>, slaHours: int, defaultPriority: string)

  datatype Case = Case(
    id: string, tenantId: string, caseNumber: string,
    title: string, description: string, status: string, priority: string,
    assigneeId: Option<string>, reporterId: string, workflowId: Option<string>,
    dueAt: Option<Time>, breached: bool, tags: Option<seq<string>>,
    createdAt: Time, updatedAt: Time, resolvedAt: Option<Time>, closedAt: Option<Time>)
  {
    /** Whether the case follows a workflow template. */
    predicate Attached() {
      workflowId.Some? && workflowId.value != ""
    }
  }

  datatype Entry = Entry(
    caseId: string, from: string, to: string,
    reason: string, performedBy: string, performedAt: Time)

  datatype Draft = Draft(
    tenantId: string, reporterId: string,
    title: string, description: string, priority: string,
    workflowId: Option<string>, tags: Option<seq<string>>)

  datatype Patch = Patch(
    title: Option<string>, description: Option<string>,
    priority: Option<string>, tags: Option<seq<string>>)

  // ---- Input checks ----

  /** unicode.IsSpace. */
  predicate IsSpace(c: char) {
    c in {'\t', '\n', '\U{000B}', '\U{000C}', '\r', ' ', '\U{0085}', '\U{00A0}', '\U{1680}',
          '\U{2028}', '\U{2029}', '\U{202F}', '\U{205F}', '\U{3000}'}
    || '\U{2000}' <= c <= '\U{200A}'
  }

  /** strings.TrimSpace(s) == "". */
  predicate Blank(s: string) {
    forall i :: 0 <= i < |s| ==> IsSpace(s[i])
  }

  /** Blank texts are those of white space alone. */
  lemma BlankTexts()
    ensures Blank("") && Blank(" \t\r\n") && !Blank("x") && !Blank(" x ")
  {
    assert "x"[0] == 'x' && " x "[1] == 'x';
  }

  predicate AcceptsDraft(d: Draft) {
    !Blank(d.title) && d.tenantId != "" && d.reporterId != ""
  }

  predicate AcceptsPatch(p: Patch) {
    p.title.Some? ==> !Blank(p.title.value)
  }

  // ---- The deadline ----

  /** time.Duration(hours) * time.Hour on int64. */
  function SlaDuration(hours: int): int {
    Wrap64(hours * HOUR)
  }

  /** The duration is the promised number of hours exactly up to 2562047 hours. */
  lemma SlaDurationExact(hours: int)
    requires 0 < hours
    ensures SlaDuration(hours) == hours * HOUR <==> hours <= 2562047
  {
    assert 2562047 * HOUR <= INT64_MAX < 2562048 * HOUR;
    if hours <= 2562047 {
      assert 0 <= hours * HOUR <= 2562047 * HOUR;
    } else {
      assert hours * HOUR >= 2562048 * HOUR;
    }
  }

  /** One hour more and the deadline falls centuries before the case was opened. */
  lemma SlaDurationWraps()
    ensures SlaDuration(2562048) < 0
  {
  }

  // ---- Edits of a fetched case ----

  predicate PastDue(c: Case, now: Time) {
    c.dueAt.Some? && now > c.dueAt.value
  }

  /** The flag GetCase and TransitionCase raise; it is never lowered. */
  function Flag(c: Case, now: Time): Case {
    if !c.breached && PastDue(c, now) then c.(breached := true) else c
  }

  function ApplyPatch(c: Case, p: Patch, now: Time): Case {
    c.(title := if p.title.Some? then p.title.value else c.title,
       description := if p.description.Some? then p.description.value else c.description,
       priority := if p.priority.Some? then p.priority.value else c.priority,
       tags := if p.tags.Some? then p.tags else c.tags,
       updatedAt := now)
  }

  function AssignTo(c: Case, assignee: string, now: Time): Case {
    c.(assigneeId := Some(assignee), updatedAt := now)
  }

  function Enter(c: Case, to: string, now: Time): Case {
    Flag(c.(status := to, updatedAt := now,
            resolvedAt := if to == RESOLVED then Some(now) else c.resolvedAt,
            closedAt := if to == CLOSED then Some(now) else c.closedAt), now)
  }

  /** The case a draft becomes; template is what the lookup returned. */
  function Open(d: Draft, id: string, number: string, now: Time, template: Option<Template>): Case {
    Case(id, d.tenantId, number, d.title, d.description, NEW,
         if d.priority == "" then MEDIUM else d.priority,
         None, d.reporterId, d.workflowId,
         if template.Some? && template.value.slaHours > 0
         then Some(now + SlaDuration(template.value.slaHours)) else None,
         false, d.tags, now, now, None, None)
  }

  /** The fields no operation may touch once the case exists. */
  predicate SameIdentity(a: Case, b: Case) {
    && a.id == b.id && a.tenantId == b.tenantId && a.caseNumber == b.caseNumber
    && a.reporterId == b.reporterId && a.workflowId == b.workflowId
    && a.dueAt == b.dueAt && a.createdAt == b.createdAt
  }

  // ---- The transition graph ----

  predicate HasEdge(edges: seq<Edge>, from: string, to: string) {
    exists i :: 0 <= i < |edges| && edges[i].from == from && edges[i].to == to
  }

  /** A walk along the graph, from the status of a new case. */
  ghost predicate IsWalk(edges: seq<Edge>, walk: seq<string>) {
    && walk != [] && walk[0] == NEW
    && forall i :: 0 <= i < |walk| - 1 ==> HasEdge(edges, walk[i], walk[i + 1])
  }

  ghost predicate Reachable(edges: seq<Edge>, status: string) {
    exists walk :: IsWalk(edges, walk) && walk[|walk| - 1] == status
  }

  lemma NewIsReachable(edges: seq<Edge>)
    ensures Reachable(edges, NEW)
  {
    assert IsWalk(edges, [NEW]) && [NEW][0] == NEW;
  }

  lemma EdgeExtendsReach(edges: seq<Edge>, from: string, to: string)
    requires Reachable(edges, from) && HasEdge(edges, from, to)
    ensures Reachable(edges, to)
  {
    var walk :| IsWalk(edges, walk) && walk[|walk| - 1] == from;
    var longer := walk + [to];
    forall i | 0 <= i < |longer| - 1
      ensures HasEdge(edges, longer[i], longer[i + 1])
    {
      assert i < |walk| - 1 || longer[i] == from;
    }
    assert IsWalk(edges, longer) && longer[|longer| - 1] == to;
  }

  /** isTransitionAllowed: the search loop finds an edge exactly when there is one. */
  method IsTransitionAllowed(transitions: seq<Edge>, from: string, to: string) returns (allowed: bool)
    ensures allowed <==> HasEdge(transitions, from, to)
  {
    for i := 0 to |transitions|
      invariant forall j :: 0 <= j < i ==> !(transitions[j].from == from && transitions[j].to == to)
    {
      if transitions[i].from == from && transitions[i].to == to {
        return true;
      }
    }
    return false;
  }
}
