/**
 The notification store. UpdateItem is an upsert, so marking a deleted
 notification read brings a row back; the row has no user, so no user sees it.
 */
module Notifications {
  import opened Prelude
  import opened Paging

  datatype Key = Key(tenant: string, id: string)

  /** A stored row: attributes may be missing, and some rows do not decode. */
  datatype Item = Item(
    userId: Option<string>, content: Option<string>,
    read: Option<bool>, readAt: Option<string>, decodes: bool)

  type Table = map<Key, Item>

  // ---- One access each ----

  function Sent(userId: string, content: string): Item {
    Item(Some(userId), Some(content), Some(false), None, true)
  }

  /** UpdateItem with SET read = true, readAt = now: creates the row when there is none. */
  function MarkedRow(t: Table, k: Key, now: string): Item {
    if k in t then t[k].(read := Some(true), readAt := Some(now))
    else Item(None, None, Some(true), Some(now), true)
  }

  function Marked(t: Table, k: Key, now: string): Table {
    t[k := MarkedRow(t, k, now)]
  }

  predicate OfUser(t: Table, k: Key, tenant: string, userId: string) {
    k in t && k.tenant == tenant && t[k].userId == Some(userId)
  }

  predicate Unread(t: Table, k: Key, tenant: string, userId: string) {
    OfUser(t, k, tenant, userId) && t[k].read == Some(false)
  }

  /** The store's answer to a query: each matching key once, in some order. */
  ghost predicate Enumerates(answer: seq<Key>, t: Table, tenant: string, userId: string, unreadOnly: bool) {
    && Distinct(answer)
    && (forall i :: 0 <= i < |answer| ==> answer[i] in t)
    && forall k :: k in answer <==> if unreadOnly then Unread(t, k, tenant, userId) else OfUser(t, k, tenant, userId)
  }

  /** A notification a user's listing shows. */
  predicate Listed(t: Table, k: Key, tenant: string, userId: string) {
    OfUser(t, k, tenant, userId) && t[k].decodes
  }

  // ---- The repository ----

  /** Environment of a bulk call: the readings of the clock and the updates that fail. */
  datatype Weather = Weather(times: seq<string>, failing: set<Key>)

  class Repository {
    var table: Table

    constructor ()
      ensures table == map[]
    {
      table := map[];
    }

    method Create(k: Key, userId: string, content: string, ok: bool)
      modifies this
      ensures table == if ok then old(table)[k := Sent(userId, content)] else old(table)
      ensures ok ==> Listed(table, k, k.tenant, userId) && Unread(table, k, k.tenant, userId)
      ensures ok ==> table[k].content == Some(content) && table[k].readAt == None
      ensures ok ==> forall other :: other != userId ==> !Listed(table, k, k.tenant, other)
      ensures forall other :: other != k ==> (other in table <==> other in old(table))
      ensures forall other :: other in table && other != k ==> table[other] == old(table)[other]
      ensures !ok ==> table == old(table)
    {
      if ok {
        table := table[k := Sent(userId, content)];
      }
    }

    method MarkRead(k: Key, now: string, ok: bool)
      modifies this
      ensures table == if ok then Marked(old(table), k, now) else old(table)
      ensures ok ==> k in table && table[k].read == Some(true) && table[k].readAt == Some(now)
      ensures ok && k in old(table) ==>
        table[k].userId == old(table)[k].userId && table[k].content == old(table)[k].content
      ensures ok && k !in old(table) ==> table[k].userId == None && table[k].content == None
      ensures forall other :: other != k ==> (other in table <==> other in old(table))
      ensures forall other :: other in table && other != k ==> table[other] == old(table)[other]
    {
      if ok {
        if k in table {
          table := table[k := table[k].(read := Some(true), readAt := Some(now))];
        } else {
          table := table[k := Item(None, None, Some(true), Some(now), true)];
        }
      }
    }

    method Delete(k: Key, ok: bool)
      modifies this
      ensures table == if ok then old(table) - {k} else old(table)
      ensures ok ==> k !in table
      ensures forall other :: other != k ==> (other in table <==> other in old(table))
      ensures forall other :: other in table && other != k ==> table[other] == old(table)[other]
    {
      if ok {
        table := table - {k};
      }
    }

    /**
     MarkAllRead, undisturbed: what stays unread of the user is exactly what did
     not decode or whose update failed; every other row is untouched.
     */
    method MarkAllRead(tenant: string, userId: string, answer: seq<Key>, w: Weather)
      requires Enumerates(answer, table, tenant, userId, true)
      requires |w.times| == |answer|
      modifies this
      ensures table.Keys == old(table).Keys
      ensures forall k :: Unread(table, k, tenant, userId) <==>
        Unread(old(table), k, tenant, userId) && (!old(table)[k].decodes || k in w.failing)
      ensures forall k :: k in table && !Unread(old(table), k, tenant, userId) ==> table[k] == old(table)[k]
      ensures forall k ::
        k in table && (k.tenant != tenant || old(table)[k].userId != Some(userId) || old(table)[k].read != Some(false))
        ==> table[k] == old(table)[k]
      ensures forall i :: 0 <= i < |answer| ==>
        var k := answer[i];
        k in table && k in old(table) &&
        table[k] == if old(table)[k].decodes && k !in w.failing
                    then old(table)[k].(read := Some(true), readAt := Some(w.times[i])) else old(table)[k]
    {
      for i := 0 to |answer|
        invariant table.Keys == old(table).Keys
        invariant forall j :: 0 <= j < i ==> (
          answer[j] in table && answer[j] in old(table) &&
          table[answer[j]] == if old(table)[answer[j]].decodes && answer[j] !in w.failing
                              then MarkedRow(old(table), answer[j], w.times[j]) else old(table)[answer[j]])
        invariant forall k :: k in table && k !in answer[..i] ==> table[k] == old(table)[k]
      {
        var k := answer[i];
        assert k in answer && Unread(old(table), k, tenant, userId);
        assert k !in answer[..i] by {
          assert forall j :: 0 <= j < i ==> answer[j] != answer[i];
        }
        if table[k].decodes {
          MarkRead(k, w.times[i], k !in w.failing);
        }
        assert answer[..i + 1] == answer[..i] + [k];
      }
      assert answer[..|answer|] == answer;
      forall k
        ensures Unread(table, k, tenant, userId) <==>
          Unread(old(table), k, tenant, userId) && (!old(table)[k].decodes || k in w.failing)
      {
        if k in answer {
          var i :| 0 <= i < |answer| && answer[i] == k;
        }
      }
    }

    /**
     MarkAllRead twice: the second call leaves the table as the first left it exactly
     when each update that failed in the first fails again. left is the answer the
     second call gets: what the first left unread, in some order.
     */
    method MarkAllReadTwice(tenant: string, userId: string, answer: seq<Key>, w: Weather, left: seq<Key>, w2: Weather)
      returns (ghost middle: Table)
      requires Enumerates(answer, table, tenant, userId, true) && |w.times| == |answer|
      requires Distinct(left) && (forall i :: 0 <= i < |left| ==> left[i] in table) && |w2.times| == |left|
      requires forall k :: k in left <==> Unread(table, k, tenant, userId) && (!table[k].decodes || k in w.failing)
      modifies this
      ensures Marks(old(table), middle, tenant, userId, w.failing) && Marks(middle, table, tenant, userId, w2.failing)
      ensures table == middle <==> forall k :: Unread(old(table), k, tenant, userId) ==>
        old(table)[k].decodes && k in w.failing ==> k in w2.failing
    {
      MarkAllRead(tenant, userId, answer, w);
      middle := table;
      MarkAllRead(tenant, userId, left, w2);
      SecondMarksNothingExactly(old(table), middle, table, tenant, userId, w.failing, w2.failing);
    }
  }

  /** What a bulk marking does to a table. */
  ghost predicate Marks(before: Table, after: Table, tenant: string, userId: string, failing: set<Key>) {
    && after.Keys == before.Keys
    && (forall k :: k in after && !Unread(before, k, tenant, userId) ==> after[k] == before[k])
    && (forall k :: Unread(before, k, tenant, userId) ==>
          if before[k].decodes && k !in failing
          then exists now :: after[k] == before[k].(read := Some(true), readAt := Some(now))
          else after[k] == before[k])
  }

  lemma SecondMarksNothingExactly(before: Table, middle: Table, after: Table, tenant: string, userId: string,
                                  failing: set<Key>, failing2: set<Key>)
    requires Marks(before, middle, tenant, userId, failing) && Marks(middle, after, tenant, userId, failing2)
    ensures after == middle <==> forall k :: Unread(before, k, tenant, userId) ==>
      before[k].decodes && k in failing ==> k in failing2
  {
    if forall k :: Unread(before, k, tenant, userId) ==> before[k].decodes && k in failing ==> k in failing2 {
      forall k | k in middle
        ensures after[k] == middle[k]
      {
        if Unread(middle, k, tenant, userId) { assert Unread(before, k, tenant, userId); }
      }
    } else {
      var k :| Unread(before, k, tenant, userId) && before[k].decodes && k in failing && k !in failing2;
      assert Unread(middle, k, tenant, userId) && after[k].read == Some(true);
    }
  }

  /** The rows of an answer that decode, in order. */
  function Shown(t: Table, answer: seq<Key>): seq<Key>
    requires forall i :: 0 <= i < |answer| ==> answer[i] in t
  {
    if answer == [] then []
    else
      var last := answer[|answer| - 1];
      Shown(t, answer[..|answer| - 1]) + (if t[last].decodes then [last] else [])
  }

  /** ListByUser: the asked page of the rows that decode; the keys stand for the notifications. */
  method ListByUser(t: Table, tenant: string, userId: string, answer: seq<Key>, page: int, limit: int)
    returns (r: Outcome<Key>, total: nat)
    requires Enumerates(answer, t, tenant, userId, false)
    requires Clamped(page, limit) && |answer| < MAX_LENGTH
    ensures total == |Shown(t, answer)|
    ensures r == Served(Shown(t, answer), page, limit)
    ensures r == Page(Slice(Shown(t, answer), page, limit)) <==> OffsetHolds(total, page, limit)
  {
    var notifications: seq<Key> := [];
    for i := 0 to |answer|
      invariant notifications == Shown(t, answer[..i]) && |notifications| <= i
    {
      assert answer[..i + 1][..i] == answer[..i];
      if t[answer[i]].decodes {
        notifications := notifications + [answer[i]];
      }
    }
    assert answer[..|answer|] == answer;
    total := |notifications|;
    r := Paginate(notifications, page, limit);
  }

  /** One row shows or not, and answers show one after the other. */
  lemma {:induction false} ShownInOrder(t: Table, a: seq<Key>, b: seq<Key>)
    requires forall i :: 0 <= i < |a + b| ==> (a + b)[i] in t
    ensures forall i :: 0 <= i < |a| ==> a[i] in t
    ensures forall i :: 0 <= i < |b| ==> b[i] in t
    ensures Shown(t, a + b) == Shown(t, a) + Shown(t, b)
    ensures |b| == 1 ==> Shown(t, b) == if t[b[0]].decodes then [b[0]] else []
    decreases b
  {
    forall i | 0 <= i < |a|
      ensures a[i] in t
    {
      assert (a + b)[i] == a[i];
    }
    forall i | 0 <= i < |b|
      ensures b[i] in t
    {
      assert (a + b)[|a| + i] == b[i];
    }
    if b == [] {
      assert a + b == a;
    } else {
      var init := b[..|b| - 1];
      assert (a + b)[..|a + b| - 1] == a + init;
      ShownInOrder(t, a, init);
    }
  }

  lemma {:induction false} ShownKeys(t: Table, answer: seq<Key>)
    requires Distinct(answer) && forall i :: 0 <= i < |answer| ==> answer[i] in t
    ensures Distinct(Shown(t, answer))
    ensures forall k :: k in Shown(t, answer) <==> k in answer && t[k].decodes
  {
    if answer == [] {
    } else {
      var init, last := answer[..|answer| - 1], answer[|answer| - 1];
      ShownKeys(t, init);
      assert answer == init + [last];
      assert last !in init;
    }
  }

  /** All pages together show each notification of the user's listing once, and nothing else. */
  lemma PagesShowListing(t: Table, tenant: string, userId: string, answer: seq<Key>, limit: int)
    requires Enumerates(answer, t, tenant, userId, false) && limit >= 1
    ensures var all := Pages(Shown(t, answer), limit, PageCount(|Shown(t, answer)|, limit));
      Distinct(all) && forall k :: k in all <==> Listed(t, k, tenant, userId)
  {
    PagesCoverList(Shown(t, answer), limit);
    ShownKeys(t, answer);
  }

  // ---- The store under concurrent calls ----

  /** One store access of some call; MarkAllRead in its loop is Snapshot, Advance .. Advance, Finish. */
  datatype Step =
    | Send(k: Key, userId: string, content: string)
    | Mark(k: Key, now: string)
    | Snapshot(r: nat, tenant: string, userId: string, answer: seq<Key>)
    | Advance(r: nat, now: string, ok: bool)
    | Finish(r: nat)
    | Dismiss(k: Key)

  /** queues: the keys each running MarkAllRead has still to mark. known: the keys any call ever named. */
  datatype State = State(table: Table, queues: map<nat, seq<Key>>, known: set<Key>)

  /** Ids are drawn fresh: a key is sent only if no call named it before. */
  ghost predicate Enabled(s: State, step: Step) {
    match step
    case Send(k, _, _) => k !in s.known
    case Mark(_, _) => true
    case Snapshot(r, tenant, userId, answer) =>
      r !in s.queues && Enumerates(answer, s.table, tenant, userId, true)
    case Advance(r, _, _) => r in s.queues && s.queues[r] != []
    case Finish(r) => r in s.queues && s.queues[r] == []
    case Dismiss(_) => true
  }

  ghost function Apply(s: State, step: Step): State
    requires Enabled(s, step)
  {
    match step
    case Send(k, userId, content) => State(s.table[k := Sent(userId, content)], s.queues, s.known + {k})
    case Mark(k, now) => State(Marked(s.table, k, now), s.queues, s.known + {k})
    case Snapshot(r, _, _, answer) => State(s.table, s.queues[r := answer], s.known)
    case Advance(r, now, ok) =>
      var k := s.queues[r][0];
      State(if ok then Marked(s.table, k, now) else s.table, s.queues[r := s.queues[r][1..]], s.known)
    case Finish(r) => State(s.table, s.queues - {r}, s.known)
    case Dismiss(k) => State(s.table - {k}, s.queues, s.known + {k})
  }

  ghost predicate Runs(s: State, steps: seq<Step>)
    decreases steps
  {
    steps == [] || (Enabled(s, steps[0]) && Runs(Apply(s, steps[0]), steps[1..]))
  }

  ghost function Run(s: State, steps: seq<Step>): State
    requires Runs(s, steps)
    decreases steps
  {
    if steps == [] then s else Run(Apply(s, steps[0]), steps[1..])
  }

  predicate Initial(s: State) {
    s.table == map[] && s.queues == map[] && s.known == {}
  }

  /** Only keys that some call named are stored or queued. */
  ghost predicate KeysKnown(s: State) {
    && s.table.Keys <= s.known
    && (forall r :: r in s.queues ==> forall i :: 0 <= i < |s.queues[r]| ==> s.queues[r][i] in s.known)
  }

  lemma StepKeepsKeys(s: State, step: Step)
    requires KeysKnown(s) && Enabled(s, step)
    ensures KeysKnown(Apply(s, step)) && s.known <= Apply(s, step).known
  {
    if step.Snapshot? {
      forall i | 0 <= i < |step.answer|
        ensures step.answer[i] in s.known
      {
        assert step.answer[i] in step.answer;
      }
    }
  }

  /** Whether the step writes a row under the key by marking it. */
  ghost predicate Upserts(s: State, step: Step, k: Key)
    requires Enabled(s, step)
  {
    (step.Mark? && step.k == k) || (step.Advance? && step.ok && s.queues[step.r][0] == k)
  }

  /** Some step writes the key's row by marking it, and no later step dismisses the key. */
  ghost predicate MarkedLast(s: State, steps: seq<Step>, k: Key)
    requires Runs(s, steps)
    decreases steps
  {
    steps != [] &&
    ((Upserts(s, steps[0], k) && Dismiss(k) !in steps[1..]) || MarkedLast(Apply(s, steps[0]), steps[1..], k))
  }

  predicate Ownerless(t: Table, k: Key) {
    k in t ==> t[k].userId.None?
  }

  lemma {:induction false} StaysOwnerless(s: State, steps: seq<Step>, k: Key)
    requires KeysKnown(s) && k in s.known && Ownerless(s.table, k) && Runs(s, steps)
    ensures Ownerless(Run(s, steps).table, k)
    decreases steps
  {
    if steps == [] {
    } else {
      StepKeepsKeys(s, steps[0]);
      StaysOwnerless(Apply(s, steps[0]), steps[1..], k);
    }
  }

  lemma {:induction false} RunKeepsKeys(s: State, steps: seq<Step>)
    requires KeysKnown(s) && Runs(s, steps)
    ensures KeysKnown(Run(s, steps))
    decreases steps
  {
    if steps == [] {
    } else {
      StepKeepsKeys(s, steps[0]);
      RunKeepsKeys(Apply(s, steps[0]), steps[1..]);
    }
  }

  /**
   In every interleaving: once dismissed, a notification is in no user's listing
   again, even when a MarkRead or a MarkAllRead still in its loop marks its key.
   */
  lemma DismissedNeverListed(s: State, before: seq<Step>, k: Key, after: seq<Step>, tenant: string, userId: string)
    requires Initial(s) && Runs(s, before)
    requires Runs(Apply(Run(s, before), Dismiss(k)), after)
    ensures !Listed(Run(Apply(Run(s, before), Dismiss(k)), after).table, k, tenant, userId)
  {
    RunKeepsKeys(s, before);
    StepKeepsKeys(Run(s, before), Dismiss(k));
    StaysOwnerless(Apply(Run(s, before), Dismiss(k)), after, k);
  }

  // ---- Who sees a notification that was sent ----

  lemma {:induction false} StaysSent(s: State, steps: seq<Step>, k: Key, userId: string, content: string)
    requires KeysKnown(s) && k in s.known && Runs(s, steps) && Dismiss(k) !in steps
    requires k in s.table && s.table[k].userId == Some(userId) && s.table[k].content == Some(content)
    requires s.table[k].decodes
    ensures var t := Run(s, steps).table;
      && k in t && t[k].userId == Some(userId) && t[k].content == Some(content) && t[k].decodes
    decreases steps
  {
    if steps == [] {
    } else {
      assert steps[0] in steps;
      StepKeepsKeys(s, steps[0]);
      StaysSent(Apply(s, steps[0]), steps[1..], k, userId, content);
    }
  }

  /**
   In every interleaving: a notification sent to a user and not dismissed since is
   in that user's listing, with its content, and in no other listing.
   */
  lemma SentListedForItsUser(s: State, before: seq<Step>, k: Key, userId: string, content: string, after: seq<Step>,
                             tenant: string, reader: string)
    requires Initial(s) && Runs(s, before) && Enabled(Run(s, before), Send(k, userId, content))
    requires Runs(Apply(Run(s, before), Send(k, userId, content)), after) && Dismiss(k) !in after
    ensures var t := Run(Apply(Run(s, before), Send(k, userId, content)), after).table;
      && (Listed(t, k, tenant, reader) <==> tenant == k.tenant && reader == userId)
      && k in t && t[k].content == Some(content)
  {
    var u := Run(s, before);
    RunKeepsKeys(s, before);
    StepKeepsKeys(u, Send(k, userId, content));
    StaysSent(Apply(u, Send(k, userId, content)), after, k, userId, content);
  }

  ghost predicate NeverMarked(s: State, steps: seq<Step>, k: Key)
    requires Runs(s, steps)
    decreases steps
  {
    steps == [] || (!Upserts(s, steps[0], k) && NeverMarked(Apply(s, steps[0]), steps[1..], k))
  }

  lemma {:induction false} ReadIffMarked(s: State, steps: seq<Step>, k: Key)
    requires KeysKnown(s) && k in s.known && Runs(s, steps) && Dismiss(k) !in steps && k in s.table
    ensures k in Run(s, steps).table
    ensures Run(s, steps).table[k].read == if NeverMarked(s, steps, k) then s.table[k].read else Some(true)
    decreases steps
  {
    if steps == [] {
    } else {
      assert steps[0] in steps;
      StepKeepsKeys(s, steps[0]);
      ReadIffMarked(Apply(s, steps[0]), steps[1..], k);
    }
  }

  /** In every interleaving: such a notification is unread exactly as long as nothing marked its key. */
  lemma SentUnreadUntilMarked(s: State, before: seq<Step>, k: Key, userId: string, content: string, after: seq<Step>)
    requires Initial(s) && Runs(s, before) && Enabled(Run(s, before), Send(k, userId, content))
    requires Runs(Apply(Run(s, before), Send(k, userId, content)), after) && Dismiss(k) !in after
    ensures var sent := Apply(Run(s, before), Send(k, userId, content));
      Unread(Run(sent, after).table, k, k.tenant, userId) <==> NeverMarked(sent, after, k)
  {
    var sent := Apply(Run(s, before), Send(k, userId, content));
    RunKeepsKeys(s, before);
    StepKeepsKeys(Run(s, before), Send(k, userId, content));
    StaysSent(sent, after, k, userId, content);
    ReadIffMarked(sent, after, k);
  }

  // ---- Looking a dismissed notification up by its id ----

  /** A key that calls know stays when nothing dismisses it, and comes back when marking is last. */
  lemma {:induction false} PresentIffMarkedLast(s: State, steps: seq<Step>, k: Key)
    requires k in s.known && KeysKnown(s) && Runs(s, steps)
    ensures k in Run(s, steps).table <==> MarkedLast(s, steps, k) || (k in s.table && Dismiss(k) !in steps)
    decreases steps
  {
    if steps == [] {
    } else {
      StepKeepsKeys(s, steps[0]);
      PresentIffMarkedLast(Apply(s, steps[0]), steps[1..], k);
      PresenceAfter(s, steps[0], k);
      assert Dismiss(k) in steps <==> steps[0] == Dismiss(k) || Dismiss(k) in steps[1..];
    }
  }

  lemma PresenceAfter(s: State, step: Step, k: Key)
    requires k in s.known && Enabled(s, step)
    ensures k in Apply(s, step).table <==> Upserts(s, step, k) || (k in s.table && step != Dismiss(k))
  {
  }

  /**
   In every interleaving: a dismissed notification is found by its id again exactly
   when its key was marked read after the last time it was dismissed.
   */
  lemma DismissedFoundIffMarkedLater(s: State, before: seq<Step>, k: Key, after: seq<Step>)
    requires Initial(s) && Runs(s, before)
    requires Runs(Apply(Run(s, before), Dismiss(k)), after)
    ensures k in Run(Apply(Run(s, before), Dismiss(k)), after).table
       <==> MarkedLast(Apply(Run(s, before), Dismiss(k)), after, k)
  {
    RunKeepsKeys(s, before);
    StepKeepsKeys(Run(s, before), Dismiss(k));
    PresentIffMarkedLast(Apply(Run(s, before), Dismiss(k)), after, k);
  }
}
