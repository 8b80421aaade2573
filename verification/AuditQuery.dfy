/** What the audit query returns: the compiled expression preserves the meaning of the filter, end to end. */
module AuditQuery {
  import opened Prelude
  import opened FilterExpression
  import opened AuditLog
  import opened Paging
  import Text
  import Rfc3339

  // ---- The expression means the filter ----

  lemma ConditionWords()
    ensures IsWord("actorId") && IsWord("#action") && IsWord("#resource") && IsWord("resourceId") && IsWord("#ts")
    ensures IsWord(":actorId") && IsWord(":action") && IsWord(":resource") && IsWord(":resourceId")
    ensures IsWord(":from") && IsWord(":to")
  {
  }

  lemma PlaceholdersApart(f: Filter)
    requires f.Writable()
    ensures var cs := Conditions(f);
      && (forall i, j :: 0 <= i < j < |cs| ==> cs[i].placeholder != cs[j].placeholder)
      && (forall i :: 0 <= i < |cs| ==> cs[i].placeholder != ":tid")
  {
    var lengths := [8, 7, 9, 11, 5, 3];
    var cs := Conditions(f);
    assert forall i :: 0 <= i < |cs| ==> |cs[i].placeholder| == lengths[i];
  }

  lemma TokensAgree(f: Filter)
    requires f.Writable()
    ensures var cs := Conditions(f);
      && (forall i :: 0 <= i < |cs| && !IsAlias(cs[i].token) ==> cs[i].token == cs[i].attribute)
      && (forall i, j :: 0 <= i < j < |cs| && cs[i].token == cs[j].token ==> cs[i].attribute == cs[j].attribute)
  {
    var lengths := [7, 7, 9, 10, 3, 3];
    var cs := Conditions(f);
    assert forall i :: 0 <= i < |cs| ==> |cs[i].token| == lengths[i];
    assert IsAlias(cs[1].token) && !IsAlias(cs[0].token);
  }

  /** The six conditions of the source name their placeholders and aliases apart. */
  lemma ConditionsConsistent(f: Filter)
    requires f.Writable()
    ensures Consistent(Conditions(f))
  {
    ConditionWords();
    PlaceholdersApart(f);
    TokensAgree(f);
  }

  /** The filter's meaning, condition by condition. */
  lemma MeaningIsAllMet(f: Filter, item: Item)
    requires f.Writable()
    ensures AllMet(Conditions(f), item) <==> Meaning(f, item)
  {
    var cs := Conditions(f);
    assert AllMet(cs, item) <==>
      && Met(cs[0], item) && Met(cs[1], item) && Met(cs[2], item)
      && Met(cs[3], item) && Met(cs[4], item) && Met(cs[5], item);
  }

  predicate NoneWanted(cs: seq<Condition>) {
    forall i :: 0 <= i < |cs| ==> cs[i].wanted.None?
  }

  lemma {:induction false} NoClauses(cs: seq<Condition>)
    ensures ClausesOf(cs) == [] <==> NoneWanted(cs)
  {
    if cs == [] {
    } else {
      var init, last := cs[..|cs| - 1], cs[|cs| - 1];
      NoClauses(init);
      assert NoneWanted(cs) <==> NoneWanted(init) && last.wanted.None?;
    }
  }

  lemma EmptyIffNoClauses(f: Filter)
    requires f.Writable()
    ensures ClausesOf(Conditions(f)) == [] <==> IsEmpty(f)
  {
    var cs := Conditions(f);
    NoClauses(cs);
    if NoneWanted(cs) {
      assert cs[0].wanted.None? && cs[1].wanted.None? && cs[2].wanted.None?;
      assert cs[3].wanted.None? && cs[4].wanted.None? && cs[5].wanted.None?;
    }
  }

  /** What the store does with a request: no filter expression selects everything. */
  function Selects(q: Request, item: Item): Option<bool> {
    if q.filter.None? then Some(true) else Evaluate(q.filter.value, q.names, q.values, item)
  }

  /** On every filter and every item: reading and evaluating the built text gives the conjunction of the set filters. */
  lemma RequestMeansFilter(tenant: string, f: Filter, item: Item)
    requires f.Writable()
    ensures Selects(RequestOf(tenant, f), item) == Some(Meaning(f, item))
  {
    EmptyIffNoClauses(f);
    if ClausesOf(Conditions(f)) != [] {
      ConditionsConsistent(f);
      CompiledMeansConditions(Conditions(f), map[":tid" := tenant], item);
      MeaningIsAllMet(f, item);
    }
  }

  /** The names and values sent are exactly those the two expressions use, so the store accepts the request. */
  lemma PlaceholdersExact(tenant: string, f: Filter)
    requires f.Writable()
    ensures var q := RequestOf(tenant, f);
      var cs := if q.filter.Some? then Parse(q.filter.value) else Some([]);
      && (q.filter.None? <==> IsEmpty(f)) && cs.Some?
      && q.values.Keys == {":tid"} + ValuesIn(cs.value)
      && q.names.Keys == AliasesIn(cs.value)
  {
    EmptyIffNoClauses(f);
    MapsAreUsed(Conditions(f), map[":tid" := tenant]);
    if ClausesOf(Conditions(f)) != [] {
      ConditionsConsistent(f);
      CompiledMeansConditions(Conditions(f), map[":tid" := tenant], map[]);
    }
  }

  lemma {:induction false} BaseKept(base: map<string, string>, cs: seq<Condition>, key: string)
    requires key in base && forall i :: 0 <= i < |cs| ==> cs[i].placeholder != key
    ensures key in ValuesOf(base, cs) && ValuesOf(base, cs)[key] == base[key]
  {
    if cs == [] {
    } else {
      BaseKept(base, cs[..|cs| - 1], key);
    }
  }

  lemma TenantBound(tenant: string, f: Filter)
    requires f.Writable()
    ensures ":tid" in RequestOf(tenant, f).values && RequestOf(tenant, f).values[":tid"] == tenant
  {
    PlaceholdersApart(f);
    BaseKept(map[":tid" := tenant], Conditions(f), ":tid");
  }

  // ---- Time bounds ----

  /** What the item says about its time, when it was recorded by the service: UTC, whole seconds. */
  function Recorded(instant: int): string
    requires CanStamp(ZonedTime(instant, 0))
  {
    Stamp(ZonedTime(instant, 0))
  }

  predicate Storable(instant: int) {
    CanStamp(ZonedTime(instant, 0))
  }

  lemma FromSecond(m: ZonedTime, instant: int)
    requires CanStamp(m) && Storable(instant) && m.offset == 0
    ensures Text.AtMost(Stamp(m), Recorded(instant)) <==> Rfc3339.Seconds(m.instant) <= Rfc3339.Seconds(instant)
  {
    Rfc3339.UtcOrder(m.instant, instant);
  }

  lemma ToSecond(m: ZonedTime, instant: int)
    requires CanStamp(m) && Storable(instant) && m.offset == 0
    ensures Text.AtMost(Recorded(instant), Stamp(m)) <==> Rfc3339.Seconds(instant) <= Rfc3339.Seconds(m.instant)
  {
    Rfc3339.UtcOrder(instant, m.instant);
  }

  /** UTC bounds select exactly the events whose second lies in the inclusive window. */
  lemma UtcWindowExact(f: Filter, item: Item, instant: int)
    requires f.Writable() && Storable(instant)
    requires "timestamp" in item && item["timestamp"] == Recorded(instant)
    requires (f.from.Some? ==> f.from.value.offset == 0) && (f.to.Some? ==> f.to.value.offset == 0)
    ensures Meaning(f, item) <==>
      && AttributeIs(item, "actorId", f.actorId) && AttributeIs(item, "action", f.action)
      && AttributeIs(item, "resource", f.resource) && AttributeIs(item, "resourceId", f.resourceId)
      && (f.from.Some? ==> Rfc3339.Seconds(f.from.value.instant) <= Rfc3339.Seconds(instant))
      && (f.to.Some? ==> Rfc3339.Seconds(instant) <= Rfc3339.Seconds(f.to.value.instant))
  {
    if f.from.Some? { FromSecond(f.from.value, instant); }
    if f.to.Some? { ToSecond(f.to.value, instant); }
  }

  /** A bound that comparing text gets right: held in UTC, or the first second any timestamp can write. */
  predicate IsExactBound(m: ZonedTime) {
    m.offset == 0 || (m.offset > 0 && Rfc3339.Wall(m.instant, m.offset) == 0)
  }

  lemma WritableSecond(sec: int, bound: ZonedTime)
    requires CanStamp(bound) && 0 <= sec <= Rfc3339.Wall(bound.instant, bound.offset)
    ensures Storable(sec * Rfc3339.SECOND) && Rfc3339.Seconds(sec * Rfc3339.SECOND) == sec
  {
    Rfc3339.EarlierFits(sec, Rfc3339.Wall(bound.instant, bound.offset));
  }

  predicate FromRight(m: ZonedTime, u: int)
    requires CanStamp(m) && Storable(u)
  {
    Text.AtMost(Stamp(m), Recorded(u)) <==> Rfc3339.Seconds(m.instant) <= Rfc3339.Seconds(u)
  }

  predicate ToRight(m: ZonedTime, u: int)
    requires CanStamp(m) && Storable(u)
  {
    Text.AtMost(Recorded(u), Stamp(m)) <==> Rfc3339.Seconds(u) <= Rfc3339.Seconds(m.instant)
  }

  lemma ExactBoundsAreRight(m: ZonedTime, u: int)
    requires CanStamp(m) && Storable(u) && IsExactBound(m)
    ensures FromRight(m, u) && ToRight(m, u)
  {
    if m.offset == 0 {
      FromSecond(m, u);
      ToSecond(m, u);
    } else {
      Rfc3339.ZonedAgainstUtc(m.instant, m.offset, u);
    }
  }

  /** A second at which a bound of another zone goes wrong, between the wall clock and the instant. */
  lemma WrongSecond(m: ZonedTime, sec: int) returns (u: int)
    requires CanStamp(m) && m.offset != 0 && 0 <= sec <= Rfc3339.Wall(m.instant, m.offset)
    ensures Storable(u) && Rfc3339.Seconds(u) == sec
    ensures Text.AtMost(Stamp(m), Recorded(u)) <==> Rfc3339.Wall(m.instant, m.offset) <= sec
    ensures Text.AtMost(Recorded(u), Stamp(m)) <==> sec < Rfc3339.Wall(m.instant, m.offset)
  {
    u := sec * Rfc3339.SECOND;
    WritableSecond(sec, m);
    Rfc3339.ZonedAgainstUtc(m.instant, m.offset, u);
  }

  lemma WrongFrom(m: ZonedTime) returns (u: int)
    requires CanStamp(m) && !IsExactBound(m)
    ensures Storable(u) && !FromRight(m, u)
  {
    var at, wall := Rfc3339.Seconds(m.instant), Rfc3339.Wall(m.instant, m.offset);
    var sec := if m.offset < 0 then wall else if at < 0 then 0 else at;
    assert 0 <= sec <= wall && (wall <= sec <==> m.offset < 0) && (at <= sec <==> m.offset > 0);
    u := WrongSecond(m, sec);
  }

  lemma WrongTo(m: ZonedTime) returns (u: int)
    requires CanStamp(m) && !IsExactBound(m)
    ensures Storable(u) && !ToRight(m, u)
  {
    var at, wall := Rfc3339.Seconds(m.instant), Rfc3339.Wall(m.instant, m.offset);
    var sec := if m.offset < 0 then wall else if at < 0 then 0 else at + 1;
    assert 0 <= sec <= wall && (sec < wall <==> m.offset > 0) && (sec <= at <==> m.offset < 0);
    u := WrongSecond(m, sec);
  }

  /** A lower bound is right for every recorded event exactly when it is held in UTC, or nothing is earlier. */
  lemma FromExactIffUtc(m: ZonedTime)
    requires CanStamp(m)
    ensures (forall u :: Storable(u) ==> FromRight(m, u)) <==> IsExactBound(m)
  {
    if IsExactBound(m) {
      forall u | Storable(u)
        ensures FromRight(m, u)
      {
        ExactBoundsAreRight(m, u);
      }
    } else {
      var _ := WrongFrom(m);
    }
  }

  /** And so is an upper bound. */
  lemma ToExactIffUtc(m: ZonedTime)
    requires CanStamp(m)
    ensures (forall u :: Storable(u) ==> ToRight(m, u)) <==> IsExactBound(m)
  {
    if IsExactBound(m) {
      forall u | Storable(u)
        ensures ToRight(m, u)
      {
        ExactBoundsAreRight(m, u);
      }
    } else {
      var _ := WrongTo(m);
    }
  }

  // ---- Items ----

  datatype Event = Event(
    id: string, tenantId: string, actorId: string, actorEmail: string, action: string,
    resource: string, resourceId: string, oldValue: Option<string>, newValue: Option<string>,
    ipAddress: string, userAgent: string, instant: int)

  /** Go's zero time, 0001-01-01T00:00:00Z, which an unreadable timestamp leaves in place. */
  const ZERO_TIME := 366 * Rfc3339.DAY * Rfc3339.SECOND

  function Field(item: Item, attribute: string): string {
    if attribute in item then item[attribute] else ""
  }

  function OptionalField(item: Item, attribute: string): Option<string> {
    if Field(item, attribute) == "" then None else Some(Field(item, attribute))
  }

  function RequiredFields(e: Event, stamp: string): Item {
    map["tenantId" := e.tenantId, "eventId" := e.id, "actorId" := e.actorId, "actorEmail" := e.actorEmail,
        "action" := e.action, "resource" := e.resource, "resourceId" := e.resourceId,
        "ipAddress" := e.ipAddress, "userAgent" := e.userAgent, "timestamp" := stamp]
  }

  function Add(item: Item, attribute: string, value: Option<string>): Item {
    if value.Some? then item[attribute := value.value] else item
  }

  /** toAuditItem; old and new values are given as the JSON text they are stored as. */
  function ToItem(e: Event): Item
    requires Storable(e.instant)
  {
    Add(Add(RequiredFields(e, Recorded(e.instant)), "oldValue", e.oldValue), "newValue", e.newValue)
  }

  method BuildItem(e: Event) returns (item: Item)
    requires Storable(e.instant)
    ensures item == ToItem(e)
  {
    item := RequiredFields(e, Recorded(e.instant));
    if e.oldValue.Some? {
      item := item["oldValue" := e.oldValue.value];
    }
    if e.newValue.Some? {
      item := item["newValue" := e.newValue.value];
    }
  }

  lemma RequiredFieldsRead(e: Event, stamp: string)
    ensures var item := RequiredFields(e, stamp);
      && AttributeIs(item, "tenantId", Some(e.tenantId)) && AttributeIs(item, "eventId", Some(e.id))
      && AttributeIs(item, "actorId", Some(e.actorId)) && AttributeIs(item, "actorEmail", Some(e.actorEmail))
      && AttributeIs(item, "action", Some(e.action)) && AttributeIs(item, "resource", Some(e.resource))
      && AttributeIs(item, "resourceId", Some(e.resourceId)) && AttributeIs(item, "ipAddress", Some(e.ipAddress))
      && AttributeIs(item, "userAgent", Some(e.userAgent)) && AttributeIs(item, "timestamp", Some(stamp))
      && "oldValue" !in item && "newValue" !in item
  {
  }

  lemma AddKeeps(item: Item, attribute: string, value: Option<string>, other: string)
    requires attribute != other
    ensures other in Add(item, attribute, value) <==> other in item
    ensures Field(Add(item, attribute, value), other) == Field(item, other)
  {
  }

  lemma OptionalFieldsKeep(item: Item, old_: Option<string>, new_: Option<string>, other: string)
    requires other != "oldValue" && other != "newValue"
    ensures var full := Add(Add(item, "oldValue", old_), "newValue", new_);
      (other in full <==> other in item) && Field(full, other) == Field(item, other)
  {
    AddKeeps(item, "oldValue", old_, other);
    AddKeeps(Add(item, "oldValue", old_), "newValue", new_, other);
  }

  /** Every attribute the service writes reads back. */
  lemma ItemReads(e: Event, attribute: string, value: string)
    requires Storable(e.instant) && attribute != "oldValue" && attribute != "newValue"
    requires AttributeIs(RequiredFields(e, Recorded(e.instant)), attribute, Some(value))
    ensures AttributeIs(ToItem(e), attribute, Some(value)) && Field(ToItem(e), attribute) == value
  {
    OptionalFieldsKeep(RequiredFields(e, Recorded(e.instant)), e.oldValue, e.newValue, attribute);
  }

  lemma OptionalFieldsRead(item: Item, old_: Option<string>, new_: Option<string>)
    requires old_ != Some("") && new_ != Some("") && "oldValue" !in item && "newValue" !in item
    ensures var full := Add(Add(item, "oldValue", old_), "newValue", new_);
      OptionalField(full, "oldValue") == old_ && OptionalField(full, "newValue") == new_
  {
    AddKeeps(item, "oldValue", old_, "newValue");
    AddKeeps(Add(item, "oldValue", old_), "newValue", new_, "oldValue");
  }

  /** Old and new values are stored under their names, and not at all when there are none. */
  lemma OptionalFieldsStored(e: Event)
    requires Storable(e.instant)
    ensures "oldValue" in ToItem(e) <==> e.oldValue.Some?
    ensures "newValue" in ToItem(e) <==> e.newValue.Some?
    ensures e.oldValue.Some? ==> ToItem(e)["oldValue"] == e.oldValue.value
    ensures e.newValue.Some? ==> ToItem(e)["newValue"] == e.newValue.value
  {
    RequiredFieldsRead(e, Recorded(e.instant));
  }

  /** An unreadable timestamp leaves Go's zero time, the start of year 1. */
  lemma UnreadableTimestamp(item: Item)
    requires Rfc3339.Parse(Field(item, "timestamp")) == None
    ensures FromItem(item).instant == 366 * 86400 * 1_000_000_000
  {
  }

  /** Storing an event and reading it back keeps everything but the fraction of its second. */
  lemma ItemRoundTrip(e: Event)
    requires Storable(e.instant) && e.oldValue != Some("") && e.newValue != Some("")
    ensures FromItem(ToItem(e)) == e.(instant := Rfc3339.Seconds(e.instant) * Rfc3339.SECOND)
  {
    RequiredFieldsRead(e, Recorded(e.instant));
    ItemReads(e, "tenantId", e.tenantId);
    ItemReads(e, "eventId", e.id);
    ItemReads(e, "actorId", e.actorId);
    ItemReads(e, "actorEmail", e.actorEmail);
    ItemReads(e, "action", e.action);
    ItemReads(e, "resource", e.resource);
    ItemReads(e, "resourceId", e.resourceId);
    ItemReads(e, "ipAddress", e.ipAddress);
    ItemReads(e, "userAgent", e.userAgent);
    ItemReads(e, "timestamp", Recorded(e.instant));
    OptionalFieldsRead(RequiredFields(e, Recorded(e.instant)), e.oldValue, e.newValue);
    InstantReads(ToItem(e), e.instant);
  }

  lemma InstantReads(item: Item, instant: int)
    requires Storable(instant) && Field(item, "timestamp") == Recorded(instant)
    ensures InstantOf(item) == Rfc3339.Seconds(instant) * Rfc3339.SECOND
  {
    Rfc3339.FormatParse(instant, 0);
  }

  /** For an event of the service: which filters with UTC bounds its item meets. */
  lemma EventMeetsFilter(e: Event, f: Filter)
    requires Storable(e.instant) && f.Writable()
    requires (f.from.Some? ==> f.from.value.offset == 0) && (f.to.Some? ==> f.to.value.offset == 0)
    ensures Meaning(f, ToItem(e)) <==>
      && (f.actorId.Some? ==> f.actorId.value == e.actorId) && (f.action.Some? ==> f.action.value == e.action)
      && (f.resource.Some? ==> f.resource.value == e.resource)
      && (f.resourceId.Some? ==> f.resourceId.value == e.resourceId)
      && (f.from.Some? ==> Rfc3339.Seconds(f.from.value.instant) <= Rfc3339.Seconds(e.instant))
      && (f.to.Some? ==> Rfc3339.Seconds(e.instant) <= Rfc3339.Seconds(f.to.value.instant))
  {
    RequiredFieldsRead(e, Recorded(e.instant));
    ItemReads(e, "actorId", e.actorId);
    ItemReads(e, "action", e.action);
    ItemReads(e, "resource", e.resource);
    ItemReads(e, "resourceId", e.resourceId);
    ItemReads(e, "timestamp", Recorded(e.instant));
    UtcWindowExact(f, ToItem(e), e.instant);
  }

  function InstantOf(item: Item): int {
    var sec := Rfc3339.Parse(Field(item, "timestamp"));
    if sec.Some? then sec.value * Rfc3339.SECOND else ZERO_TIME
  }

  function FromItem(item: Item): Event {
    Event(Field(item, "eventId"), Field(item, "tenantId"), Field(item, "actorId"), Field(item, "actorEmail"),
          Field(item, "action"), Field(item, "resource"), Field(item, "resourceId"),
          OptionalField(item, "oldValue"), OptionalField(item, "newValue"),
          Field(item, "ipAddress"), Field(item, "userAgent"), InstantOf(item))
  }

  // ---- The query ----

  /** A row of the table; some rows do not decode. */
  datatype Row = Row(attributes: Item, decodes: bool)

  /** The events a filter asks for, in table order. */
  function Wanted(table: seq<Row>, tenant: string, f: Filter): seq<Event>
    requires f.Writable()
  {
    if table == [] then []
    else
      var last := table[|table| - 1];
      Wanted(table[..|table| - 1], tenant, f) +
      (if last.decodes && AttributeIs(last.attributes, "tenantId", Some(tenant)) && Meaning(f, last.attributes)
       then [FromItem(last.attributes)] else [])
  }

  /** One row is wanted or not, and tables give their events one after the other. */
  lemma {:induction false} WantedInOrder(a: seq<Row>, b: seq<Row>, tenant: string, f: Filter)
    requires f.Writable()
    ensures Wanted(a + b, tenant, f) == Wanted(a, tenant, f) + Wanted(b, tenant, f)
    ensures |b| == 1 ==>
      var item := b[0].attributes;
      var wanted := b[0].decodes && "tenantId" in item && item["tenantId"] == tenant && Meaning(f, item);
      Wanted(b, tenant, f) == if wanted then [FromItem(item)] else []
    decreases b
  {
    if b == [] {
      assert a + b == a;
    } else {
      var init := b[..|b| - 1];
      assert (a + b)[..|a + b| - 1] == a + init;
      WantedInOrder(a, init, tenant, f);
    }
  }

  /** The rows the store answers with: the tenant's, filtered by the expression; None when it refuses the request. */
  function Answer(table: seq<Row>, q: Request): Option<seq<Row>> {
    if table == [] then Some([])
    else
      var last := table[|table| - 1];
      var rest := Answer(table[..|table| - 1], q);
      var selected := Selects(q, last.attributes);
      if rest.None? || selected.None? || ":tid" !in q.values then None
      else if AttributeIs(last.attributes, "tenantId", Some(q.values[":tid"])) && selected.value
      then Some(rest.value + [last]) else rest
  }

  /** The events among the rows that decode. */
  function Decoded(rows: seq<Row>): seq<Event> {
    if rows == [] then []
    else
      var last := rows[|rows| - 1];
      Decoded(rows[..|rows| - 1]) + (if last.decodes then [FromItem(last.attributes)] else [])
  }

  lemma {:induction false} AnswerIsWanted(table: seq<Row>, tenant: string, f: Filter)
    requires f.Writable()
    ensures Answer(table, RequestOf(tenant, f)).Some?
    ensures Decoded(Answer(table, RequestOf(tenant, f)).value) == Wanted(table, tenant, f)
    ensures |Answer(table, RequestOf(tenant, f)).value| <= |table|
  {
    if table == [] {
    } else {
      var init, last := table[..|table| - 1], table[|table| - 1];
      AnswerIsWanted(init, tenant, f);
      RequestMeansFilter(tenant, f, last.attributes);
      TenantBound(tenant, f);
      var rest := Answer(init, RequestOf(tenant, f)).value;
      assert (rest + [last])[..|rest|] == rest;
    }
  }

  /** The loop over the response; a row that does not decode is skipped. */
  method DecodeRows(rows: seq<Row>) returns (events: seq<Event>)
    ensures events == Decoded(rows) && |events| <= |rows|
  {
    events := [];
    for i := 0 to |rows|
      invariant events == Decoded(rows[..i]) && |events| <= i
    {
      assert rows[..i + 1][..i] == rows[..i];
      if rows[i].decodes {
        events := events + [FromItem(rows[i].attributes)];
      }
    }
    assert rows[..|rows|] == rows;
  }

  /**
   Query, end to end: the store never refuses the request, and the result is the
   page of the tenant's events that meet every filter that was set.
   */
  method Query(table: seq<Row>, tenant: string, f: Filter, page: int, limit: int)
    returns (r: Outcome<Event>, total: nat)
    requires f.Writable() && Clamped(page, limit) && |table| < MAX_LENGTH
    ensures total == |Wanted(table, tenant, f)|
    ensures r == Served(Wanted(table, tenant, f), page, limit)
    ensures r == Page(Slice(Wanted(table, tenant, f), page, limit)) <==> OffsetHolds(total, page, limit)
  {
    var q := BuildRequest(tenant, f);
    AnswerIsWanted(table, tenant, f);
    var events := DecodeRows(Answer(table, q).value);
    total := |events|;
    r := Paginate(events, page, limit);
  }
}
