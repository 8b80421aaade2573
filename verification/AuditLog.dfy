/**
 The audit repository: a filter record is compiled into a filter expression,
 part by part and with two maps grown in place, and the answer is decoded and
 paged by hand. On every filter and every item the expression means the
 conjunction of the filters that were set.
 */
module AuditLog {
  import opened Prelude
  import opened FilterExpression
  import Text
  import Rfc3339

  /** A time.Time: an instant and the offset of its zone in minutes. */
  datatype ZonedTime = ZonedTime(instant: int, offset: int)

  /** The times RFC 3339 can write: four-digit years, offsets of less than a day. */
  predicate CanStamp(m: ZonedTime) {
    Rfc3339.IsOffset(m.offset) && Rfc3339.FourDigitYear(Rfc3339.Wall(m.instant, m.offset))
  }

  function Stamp(m: ZonedTime): string
    requires CanStamp(m)
  {
    Rfc3339.Format(m.instant, m.offset)
  }

  datatype Filter = Filter(
    actorId: Option<string>, action: Option<string>, resource: Option<string>,
    resourceId: Option<string>, from: Option<ZonedTime>, to: Option<ZonedTime>)
  {
    predicate Writable() {
      (from.Some? ==> CanStamp(from.value)) && (to.Some? ==> CanStamp(to.value))
    }
  }

  // ---- What a filter means ----

  predicate AttributeIs(item: Item, attribute: string, wanted: Option<string>) {
    wanted.Some? ==> attribute in item && item[attribute] == wanted.value
  }

  /** The conjunction of the filters that were set. */
  predicate Meaning(f: Filter, item: Item)
    requires f.Writable()
  {
    && AttributeIs(item, "actorId", f.actorId)
    && AttributeIs(item, "action", f.action)
    && AttributeIs(item, "resource", f.resource)
    && AttributeIs(item, "resourceId", f.resourceId)
    && (f.from.Some? ==> "timestamp" in item && Text.AtMost(Stamp(f.from.value), item["timestamp"]))
    && (f.to.Some? ==> "timestamp" in item && Text.AtMost(item["timestamp"], Stamp(f.to.value)))
  }

  predicate IsEmpty(f: Filter) {
    f == Filter(None, None, None, None, None, None)
  }

  // ---- What the compiler builds ----

  function StampOf(m: Option<ZonedTime>): Option<string>
    requires m.Some? ==> CanStamp(m.value)
  {
    if m.Some? then Some(Stamp(m.value)) else None
  }

  // The conditions, in the order the source compiles them.

  function ActorCondition(f: Filter): Condition {
    Condition("actorId", "actorId", "=", ":actorId", f.actorId)
  }

  function ActionCondition(f: Filter): Condition {
    Condition("action", "#action", "=", ":action", f.action)
  }

  function ResourceCondition(f: Filter): Condition {
    Condition("resource", "#resource", "=", ":resource", f.resource)
  }

  function ResourceIdCondition(f: Filter): Condition {
    Condition("resourceId", "resourceId", "=", ":resourceId", f.resourceId)
  }

  function FromCondition(from: Option<string>): Condition {
    Condition("timestamp", "#ts", ">=", ":from", from)
  }

  function ToCondition(to: Option<string>): Condition {
    Condition("timestamp", "#ts", "<=", ":to", to)
  }

  function Conditions(f: Filter): seq<Condition>
    requires f.Writable()
  {
    [ActorCondition(f), ActionCondition(f), ResourceCondition(f), ResourceIdCondition(f),
     FromCondition(StampOf(f.from)), ToCondition(StampOf(f.to))]
  }

  datatype Request = Request(filter: Option<string>, names: map<string, string>, values: map<string, string>)

  function RequestOf(tenant: string, f: Filter): Request
    requires f.Writable()
  {
    var cs := Conditions(f);
    var text := Parts(ClausesOf(cs));
    Request(if |text| > 5 then Some(text[5..]) else None, NamesOf(cs), ValuesOf(map[":tid" := tenant], cs))
  }

  // The strings the source appends are the parts of their clauses.

  lemma ActorPart()
    ensures Part(Clause("actorId", "=", ":actorId")) == " AND actorId = :actorId"
    ensures !IsAlias("actorId")
  {
  }

  lemma ActionPart()
    ensures Part(Clause("#action", "=", ":action")) == " AND #action = :action"
    ensures IsAlias("#action")
  {
  }

  lemma ResourcePart()
    ensures Part(Clause("#resource", "=", ":resource")) == " AND #resource = :resource"
    ensures IsAlias("#resource")
  {
  }

  lemma ResourceIdPart()
    ensures Part(Clause("resourceId", "=", ":resourceId")) == " AND resourceId = :resourceId"
    ensures !IsAlias("resourceId")
  {
  }

  lemma FromPart()
    ensures Part(Clause("#ts", ">=", ":from")) == " AND #ts >= :from"
    ensures IsAlias("#ts")
  {
  }

  lemma ToPart()
    ensures Part(Clause("#ts", "<=", ":to")) == " AND #ts <= :to"
    ensures IsAlias("#ts")
  {
  }

  /** A wanted condition adds its text, its value and its alias. */
  lemma Added(cs: seq<Condition>, c: Condition, base: map<string, string>,
              parts: string, names: map<string, string>, values: map<string, string>, text: string)
    requires Compiled(cs, base, parts, names, values) && c.wanted.Some? && Part(c.AsClause()) == text
    ensures Compiled(cs + [c], base, parts + text,
      if IsAlias(c.token) then names[c.token := c.attribute] else names, values[c.placeholder := c.wanted.value])
  {
    CompileNext(cs, c, base, parts, names, values);
  }

  lemma Skipped(cs: seq<Condition>, c: Condition, base: map<string, string>,
                parts: string, names: map<string, string>, values: map<string, string>)
    requires Compiled(cs, base, parts, names, values) && c.wanted.None?
    ensures Compiled(cs + [c], base, parts, names, values)
  {
    CompileNext(cs, c, base, parts, names, values);
  }

  method CompileWho(f: Filter, filterParts: string, exprNames: map<string, string>, exprValues: map<string, string>,
                    ghost cs: seq<Condition>, ghost base: map<string, string>)
    returns (parts: string, names: map<string, string>, values: map<string, string>)
    requires Compiled(cs, base, filterParts, exprNames, exprValues)
    ensures Compiled(cs + [ActorCondition(f)] + [ActionCondition(f)], base, parts, names, values)
  {
    parts, names, values := filterParts, exprNames, exprValues;
    if f.actorId.Some? {
      ActorPart();
      Added(cs, ActorCondition(f), base, parts, names, values, " AND actorId = :actorId");
      parts := parts + " AND actorId = :actorId";
      values := values[":actorId" := f.actorId.value];
    } else {
      Skipped(cs, ActorCondition(f), base, parts, names, values);
    }
    ghost var more := cs + [ActorCondition(f)];
    if f.action.Some? {
      ActionPart();
      Added(more, ActionCondition(f), base, parts, names, values, " AND #action = :action");
      parts := parts + " AND #action = :action";
      values := values[":action" := f.action.value];
      names := names["#action" := "action"];
    } else {
      Skipped(more, ActionCondition(f), base, parts, names, values);
    }
  }

  method CompileWhat(f: Filter, filterParts: string, exprNames: map<string, string>, exprValues: map<string, string>,
                     ghost cs: seq<Condition>, ghost base: map<string, string>)
    returns (parts: string, names: map<string, string>, values: map<string, string>)
    requires Compiled(cs, base, filterParts, exprNames, exprValues)
    ensures Compiled(cs + [ResourceCondition(f)] + [ResourceIdCondition(f)], base, parts, names, values)
  {
    parts, names, values := filterParts, exprNames, exprValues;
    if f.resource.Some? {
      ResourcePart();
      Added(cs, ResourceCondition(f), base, parts, names, values, " AND #resource = :resource");
      parts := parts + " AND #resource = :resource";
      values := values[":resource" := f.resource.value];
      names := names["#resource" := "resource"];
    } else {
      Skipped(cs, ResourceCondition(f), base, parts, names, values);
    }
    ghost var more := cs + [ResourceCondition(f)];
    if f.resourceId.Some? {
      ResourceIdPart();
      Added(more, ResourceIdCondition(f), base, parts, names, values, " AND resourceId = :resourceId");
      parts := parts + " AND resourceId = :resourceId";
      values := values[":resourceId" := f.resourceId.value];
    } else {
      Skipped(more, ResourceIdCondition(f), base, parts, names, values);
    }
  }

  /** from and to are the bounds as they are formatted. */
  method CompileWhen(from: Option<string>, to: Option<string>,
                     filterParts: string, exprNames: map<string, string>, exprValues: map<string, string>,
                     ghost cs: seq<Condition>, ghost base: map<string, string>)
    returns (parts: string, names: map<string, string>, values: map<string, string>)
    requires Compiled(cs, base, filterParts, exprNames, exprValues)
    requires "#ts" !in exprNames
    ensures Compiled(cs + [FromCondition(from)] + [ToCondition(to)], base, parts, names, values)
  {
    parts, names, values := filterParts, exprNames, exprValues;
    if from.Some? {
      FromPart();
      Added(cs, FromCondition(from), base, parts, names, values, " AND #ts >= :from");
      parts := parts + " AND #ts >= :from";
      values := values[":from" := from.value];
      names := names["#ts" := "timestamp"];
    } else {
      Skipped(cs, FromCondition(from), base, parts, names, values);
    }
    assert "#ts" in names ==> names["#ts" := "timestamp"] == names;
    ghost var more := cs + [FromCondition(from)];
    if to.Some? {
      ToPart();
      Added(more, ToCondition(to), base, parts, names, values, " AND #ts <= :to");
      if "#ts" !in names {
        names := names["#ts" := "timestamp"];
      }
      parts := parts + " AND #ts <= :to";
      values := values[":to" := to.value];
    } else {
      Skipped(more, ToCondition(to), base, parts, names, values);
    }
  }

  lemma OthersHaveNoTimeAlias(f: Filter)
    ensures "#ts" !in NamesOf(
      [] + [ActorCondition(f)] + [ActionCondition(f)] + [ResourceCondition(f)] + [ResourceIdCondition(f)])
  {
    var cs := [] + [ActorCondition(f)] + [ActionCondition(f)] + [ResourceCondition(f)] + [ResourceIdCondition(f)];
    AliasNeedsToken(cs, "#ts");
  }

  /** The first part of Query: the request sent to DynamoDB. */
  method BuildRequest(tenant: string, f: Filter) returns (q: Request)
    requires f.Writable()
    ensures q == RequestOf(tenant, f)
  {
    ghost var base := map[":tid" := tenant];
    ghost var who := [] + [ActorCondition(f)] + [ActionCondition(f)];
    ghost var what := who + [ResourceCondition(f)] + [ResourceIdCondition(f)];
    var parts, names, values := CompileWho(f, "", map[], map[":tid" := tenant], [], base);
    parts, names, values := CompileWhat(f, parts, names, values, who, base);
    OthersHaveNoTimeAlias(f);
    parts, names, values := CompileWhen(StampOf(f.from), StampOf(f.to), parts, names, values, what, base);
    ConditionsInOrder(f);
    NoShortText(ClausesOf(Conditions(f)));
    if parts != "" {
      q := Request(Some(parts[5..]), names, values);
    } else {
      q := Request(None, names, values);
    }
  }

  lemma ConditionsInOrder(f: Filter)
    requires f.Writable()
    ensures [] + [ActorCondition(f)] + [ActionCondition(f)] + [ResourceCondition(f)] + [ResourceIdCondition(f)]
      + [FromCondition(StampOf(f.from))] + [ToCondition(StampOf(f.to))] == Conditions(f)
  {
  }

  lemma NoShortText(cs: seq<Clause>)
    ensures Parts(cs) == "" || |Parts(cs)| > 5
  {
    if cs != [] {
      LeadingAnd(cs);
    }
  }
}
