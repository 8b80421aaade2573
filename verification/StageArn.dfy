/**
 The API gateway authorizer: one policy per stage, and a signing secret cached
 for a limited time.
 */
module StageArn {
  import opened Prelude
  import Text

  // ---- The wildcard ARN ----

  /** The fields with ':' between neighbours. */
  function Join(fields: seq<string>): string {
    if fields == [] then "" else if |fields| == 1 then fields[0] else fields[0] + (":" + Join(fields[1..]))
  }

  /** stageWildcardArn; None stands for the exception on too few fields, a missing stage prints as JavaScript does. */
  function StageWildcardArn(methodArn: string): Option<string> {
    var parts := Text.Split(methodArn, ':');
    if |parts| < 6 then None
    else
      var path := Text.Split(parts[5], '/');
      var stage := if |path| < 2 then "undefined" else path[1];
      Some(Join(parts[..5]) + (":" + (path[0] + ("/" + (stage + "/*/*")))))
  }

  /** The first five fields of an ARN, the API and the stage: what one stage's ARNs share. */
  datatype Stage = Stage(fields: seq<string>, apiId: string, name: string)
  {
    predicate WellFormed() {
      && |fields| == 5 && (forall i :: 0 <= i < 5 ==> Text.Lacks(fields[i], ':'))
      && Text.Lacks(apiId, ':') && Text.Lacks(apiId, '/') && Text.Lacks(name, ':') && Text.Lacks(name, '/')
    }

    function Prefix(): string {
      Join(fields) + (":" + (apiId + ("/" + name)))
    }
  }

  /** An ARN of the stage; rest is {method}/{resource} and may hold ':' and '/'. */
  function MethodArn(s: Stage, rest: string): string {
    s.Prefix() + ("/" + rest)
  }

  lemma {:induction false} SplitFields(f: seq<string>, tail: string)
    requires f != [] && forall i :: 0 <= i < |f| ==> Text.Lacks(f[i], ':')
    ensures Text.Split(Join(f) + (":" + tail), ':') == f + Text.Split(tail, ':')
  {
    if |f| == 1 {
      Text.SplitFirst(f[0], tail, ':');
      assert f == [f[0]];
    } else {
      var more := Join(f[1..]) + (":" + tail);
      SplitFields(f[1..], tail);
      Text.SplitFirst(f[0], more, ':');
      assert Join(f) + (":" + tail) == f[0] + (":" + more);
      assert [f[0]] + (f[1..] + Text.Split(tail, ':')) == f + Text.Split(tail, ':');
    }
  }

  /** The path keeps API and stage even when the resource cuts it short at a ':'. */
  lemma SplitPath(apiId: string, stage: string, rest: string)
    requires Text.Lacks(apiId, ':') && Text.Lacks(apiId, '/') && Text.Lacks(stage, ':') && Text.Lacks(stage, '/')
    ensures var path := Text.Split(Text.Split(apiId + ("/" + (stage + ("/" + rest))), ':')[0], '/');
      |path| >= 2 && path[0] == apiId && path[1] == stage
  {
    var front := apiId + ("/" + (stage + "/"));
    assert apiId + ("/" + (stage + ("/" + rest))) == front + rest;
    assert Text.Lacks(front, ':');
    Text.SplitInFront(front, rest, ':');
    var cut := Text.Split(rest, ':')[0];
    assert front + cut == apiId + ("/" + (stage + ("/" + cut)));
    Text.SplitFirst(apiId, stage + ("/" + cut), '/');
    Text.SplitFirst(stage, cut, '/');
  }

  /** One policy per stage: the same for all methods and resources, keeping fields, API and stage. */
  lemma WildcardOfStage(s: Stage, rest: string)
    requires s.WellFormed()
    ensures StageWildcardArn(MethodArn(s, rest)) == Some(s.Prefix() + "/*/*")
  {
    var tail := s.apiId + ("/" + (s.name + ("/" + rest)));
    var front, slash := s.apiId + ("/" + s.name), "/" + rest;
    assert front + slash == tail;
    assert MethodArn(s, rest) == Join(s.fields) + (":" + tail);
    SplitFields(s.fields, tail);
    SplitPath(s.apiId, s.name, rest);
    var parts := s.fields + Text.Split(tail, ':');
    assert parts[..5] == s.fields && parts[5] == Text.Split(tail, ':')[0];
    assert s.Prefix() + "/*/*" == Join(s.fields) + (":" + (s.apiId + ("/" + (s.name + "/*/*")))) by {
      assert front + "/*/*" == s.apiId + ("/" + (s.name + "/*/*"));
    }
  }

  lemma {:induction false} SplitJoin(f: seq<string>)
    requires f != [] && forall i :: 0 <= i < |f| ==> Text.Lacks(f[i], ':')
    ensures Text.Split(Join(f), ':') == f
  {
    if |f| == 1 {
      Text.SplitWhole(f[0], ':');
      assert f == [f[0]];
    } else {
      SplitJoin(f[1..]);
      Text.SplitFirst(f[0], Join(f[1..]), ':');
      assert f == [f[0]] + f[1..];
    }
  }

  /** With fewer than six fields it throws; without a '/' in the sixth the stage reads "undefined". */
  lemma MalformedArns(f: seq<string>)
    requires f != [] && (forall i :: 0 <= i < |f| ==> Text.Lacks(f[i], ':'))
    ensures StageWildcardArn(Join(f)) == None <==> |f| < 6
    ensures |f| >= 6 && Text.Lacks(f[5], '/') ==>
      StageWildcardArn(Join(f)) == Some(Join(f[..5]) + (":" + (f[5] + ("/" + ("undefined" + "/*/*")))))
  {
    SplitJoin(f);
    if |f| >= 6 && Text.Lacks(f[5], '/') { Text.SplitWhole(f[5], '/'); }
  }

  // ---- What the policy covers ----

  /** Policy matching: '*' stands for any text, '?' for any one character. */
  predicate Matches(pattern: string, s: string)
    decreases |pattern| + |s|
  {
    if pattern == "" then s == ""
    else if pattern[0] == '*' then Matches(pattern[1..], s) || (s != "" && Matches(pattern, s[1..]))
    else s != "" && (pattern[0] == '?' || pattern[0] == s[0]) && Matches(pattern[1..], s[1..])
  }

  predicate IsLiteral(p: string) {
    Text.Lacks(p, '*') && Text.Lacks(p, '?')
  }

  lemma {:induction false} MatchesLiteralFirst(p: string, q: string, s: string)
    requires IsLiteral(p)
    ensures Matches(p + q, s) <==> p <= s && Matches(q, s[|p|..])
  {
    if p == "" {
      assert p + q == q && s[0..] == s;
    } else if s != "" {
      assert (p + q)[1..] == p[1..] + q;
      MatchesLiteralFirst(p[1..], q, s[1..]);
      if p[0] == s[0] {
        assert p <= s <==> p[1..] <= s[1..] by {
          assert p == [p[0]] + p[1..] && s == [s[0]] + s[1..];
        }
        if p <= s { assert s[1..][|p| - 1..] == s[|p|..]; }
      }
    }
  }

  lemma {:induction false} StarMatchesAll(s: string)
    ensures Matches("*", s)
  {
    if s == "" {
      assert "*"[1..] == "";
    } else {
      StarMatchesAll(s[1..]);
    }
  }

  predicate Has(s: string, c: char) {
    !Text.Lacks(s, c)
  }

  lemma {:induction false} TwoSegments(s: string)
    ensures Matches("*/*", s) <==> Has(s, '/')
  {
    assert "*/*"[1..] == "/*" && "/*"[1..] == "*";
    if s == "" {
    } else {
      TwoSegments(s[1..]);
      StarMatchesAll(s[1..]);
      assert Has(s, '/') <==> s[0] == '/' || Has(s[1..], '/');
    }
  }

  /** The policy of a stage covers exactly the ARNs of that stage that name a method and a resource. */
  lemma PolicyCoversStageExactly(s: Stage, rest: string, arn: string)
    requires s.WellFormed() && IsLiteral(s.Prefix())
    ensures
      var policy := StageWildcardArn(MethodArn(s, rest));
      policy.Some? && (Matches(policy.value, arn) <==>
        s.Prefix() + "/" <= arn && Has(arn[|s.Prefix()| + 1..], '/'))
  {
    WildcardOfStage(s, rest);
    var front := s.Prefix() + "/";
    assert s.Prefix() + "/*/*" == front + "*/*";
    MatchesLiteralFirst(front, "*/*", arn);
    if front <= arn { TwoSegments(arn[|front|..]); }
  }

  /** It covers the request it was made for. */
  lemma PolicyCoversRequest(s: Stage, httpMethod: string, resource: string)
    requires s.WellFormed() && IsLiteral(s.Prefix())
    ensures
      var arn := MethodArn(s, httpMethod + ("/" + resource));
      var policy := StageWildcardArn(arn);
      policy.Some? && Matches(policy.value, arn)
  {
    var rest := httpMethod + ("/" + resource);
    var arn := MethodArn(s, rest);
    PolicyCoversStageExactly(s, rest, arn);
    assert arn == (s.Prefix() + "/") + rest;
    assert arn[|s.Prefix()| + 1..] == rest && rest[|httpMethod|] == '/';
  }

  // ---- The cached secret ----

  const CACHE_TTL := 5 * 60 * 1000

  class SecretCache {
    var cachedSecret: Option<string>
    var cacheExpiry: int
    /** The secret the store holds, by time in milliseconds. */
    ghost const store: int -> string
    /** When the store gave the cached secret, and when the last call ended. */
    ghost var cachedAt: int
    ghost var lastEnd: int

    ghost predicate Valid()
      reads this
    {
      cachedSecret.Some? ==>
        cachedSecret.value == store(cachedAt) && cacheExpiry - CACHE_TTL <= cachedAt <= lastEnd
    }

    constructor (ghost store: int -> string)
      ensures Valid() && this.store == store && cachedSecret == None
    {
      cachedSecret, cacheExpiry := None, 0;
      this.store := store;
      cachedAt, lastEnd := 0, 0;
    }

    /** Whether a call at that time is answered from the cache; an empty secret is not. */
    predicate Hit(now: int)
      reads this
    {
      cachedSecret.Some? && cachedSecret.value != "" && now < cacheExpiry
    }

    /**
     The secret returned was the store's at some moment less than five minutes before
     the call, or while it waited. response is what the store answers at answeredAt,
     None when the fetch fails; a failed fetch leaves the cache alone.
     */
    method GetJwtSecret(now: int, response: Option<string>, ghost answeredAt: int) returns (r: Result<string, ()>)
      requires Valid() && lastEnd <= now <= answeredAt
      requires response.Some? ==> response.value == store(answeredAt)
      modifies this
      ensures Valid() && now <= lastEnd <= answeredAt
      ensures r.Err? <==> !old(Hit(now)) && response.None?
      ensures r.Ok? ==> exists fetched :: now - 300_000 < fetched <= lastEnd && r.value == store(fetched)
      ensures old(Hit(now)) ==> r == Ok(old(cachedSecret).value)
      ensures old(Hit(now)) || r.Err? ==> cachedSecret == old(cachedSecret) && cacheExpiry == old(cacheExpiry)
      ensures !old(Hit(now)) && r.Ok? ==> cachedSecret == response == Some(r.value) && cacheExpiry == now + 300_000
    {
      lastEnd := now;
      if cachedSecret.Some? && cachedSecret.value != "" && now < cacheExpiry {
        assert now - CACHE_TTL < cachedAt <= lastEnd;
        return Ok(cachedSecret.value);
      }
      lastEnd := answeredAt;
      if response.None? {
        return Err(());
      }
      cachedSecret := response;
      cacheExpiry := now + CACHE_TTL;
      cachedAt := answeredAt;
      return Ok(response.value);
    }
  }
}
