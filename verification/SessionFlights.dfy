/**
 Logins and refreshes in flight: each reads the store, and dates its access token
 later, while other calls log users out or take their status away. What survives
 is bounded by how long a call may take between its first read and that date.
 */
module SessionFlights {
  import opened Prelude
  import opened Sessions

  /**
   A call between its first read and its end. read is how long the log was at that
   read, readAt what the clock said; loaded is how long the log was when the user
   was read.
   */
  datatype Flight =
    | SigningIn(user: User, read: nat, readAt: int)
    | Storing(user: User, access: Access, issuedAt: int, read: nat, readAt: int)
    | Presenting(token: string, stored: RefreshToken, read: nat, readAt: int)
    | Checked(token: string, stored: RefreshToken, checkedAt: int, read: nat, readAt: int)
    | Renewing(token: string, stored: RefreshToken, checkedAt: int, user: User, loaded: nat, read: nat, readAt: int)

  datatype Sky = Sky(store: State, flights: map<nat, Flight>)

  /** One access of the call r; Whole is a registration, a logout or a status change; Tick lets time pass. */
  datatype Move =
    | Tick(now: int)
    | Whole(call: Call)
    | ReadUser(r: nat, email: string, password: string, finds: bool, matches: bool)
    | Sign(r: nat, now: int)
    | Store(r: nat, token: string, start: int, ok: bool)
    | ReadToken(r: nat, token: string, finds: bool)
    | Check(r: nat, now: int)
    | Load(r: nat, loads: bool)
    | Issue(r: nat, now: int)
    | Abort(r: nat)

  /**
   The store's clock is the current time, and ticks between accesses. delay bounds
   the time from a call's first read to the date of its access token.
   */
  predicate Enabled(f: Sky, cfg: Config, delay: nat, m: Move) {
    match m
    case Tick(now) => now >= f.store.clock
    case Whole(call) => !call.Login? && !call.Refresh? && Sessions.Enabled(f.store, cfg, call)
    case ReadUser(r, _, _, _, _) => r !in f.flights
    case Sign(r, now) =>
      r in f.flights && f.flights[r].SigningIn? && f.store.clock <= now <= f.flights[r].readAt + delay
    case Store(r, token, start, _) =>
      r in f.flights && f.flights[r].Storing? && start >= f.store.clock && cfg.key(token) !in f.store.tokens
    case ReadToken(r, _, _) => r !in f.flights
    case Check(r, now) => r in f.flights && f.flights[r].Presenting? && now >= f.store.clock
    case Load(r, _) => r in f.flights && f.flights[r].Checked?
    case Issue(r, now) =>
      r in f.flights && f.flights[r].Renewing? && f.store.clock <= now <= f.flights[r].readAt + delay
    case Abort(r) => r in f.flights
  }

  function Grounded(f: Sky, r: nat, store: State): Sky {
    Sky(store, f.flights - {r})
  }

  function Aloft(f: Sky, r: nat, flight: Flight, store: State): Sky {
    Sky(store, f.flights[r := flight])
  }

  function ReadUserMove(f: Sky, cfg: Config, m: Move): Sky
    requires m.ReadUser?
  {
    var u := LoginUser(f.store, cfg, m.email, m.password, m.finds, m.matches);
    if u.Err? then f else Aloft(f, m.r, SigningIn(u.value, |f.store.log|, f.store.clock), f.store)
  }

  function StoreMove(f: Sky, cfg: Config, m: Move): Sky
    requires m.Store? && m.r in f.flights && f.flights[m.r].Storing?
  {
    var p := f.flights[m.r];
    Grounded(f, m.r,
      if m.ok then StoreSession(f.store, cfg, p.user, m.token, p.access, p.issuedAt, m.start)
      else f.store.(clock := m.start))
  }

  function ReadTokenMove(f: Sky, cfg: Config, m: Move): Sky
    requires m.ReadToken?
  {
    var stored := FetchToken(f.store, cfg, m.token, m.finds);
    if stored.Err? then f else Aloft(f, m.r, Presenting(m.token, stored.value, |f.store.log|, f.store.clock), f.store)
  }

  function CheckMove(f: Sky, m: Move): Sky
    requires m.Check? && m.r in f.flights && f.flights[m.r].Presenting?
  {
    var p, store := f.flights[m.r], f.store.(clock := m.now);
    if p.stored.IsValid(m.now) then Aloft(f, m.r, Checked(p.token, p.stored, m.now, p.read, p.readAt), store)
    else Grounded(f, m.r, store)
  }

  function LoadMove(f: Sky, m: Move): Sky
    requires m.Load? && m.r in f.flights && f.flights[m.r].Checked?
  {
    var p := f.flights[m.r];
    var u := FetchUser(f.store, p.stored.userId, m.loads);
    if u.Err? then Grounded(f, m.r, f.store)
    else Aloft(f, m.r, Renewing(p.token, p.stored, p.checkedAt, u.value, |f.store.log|, p.read, p.readAt), f.store)
  }

  function IssueMove(f: Sky, cfg: Config, m: Move): Sky
    requires m.Issue? && m.r in f.flights && f.flights[m.r].Renewing?
  {
    var p := f.flights[m.r];
    Grounded(f, m.r, Append(f.store, m.now, Refreshed(p.token, Claims(cfg, p.user, m.now), p.checkedAt, m.now)))
  }

  function Apply(f: Sky, cfg: Config, delay: nat, m: Move): Sky
    requires Enabled(f, cfg, delay, m)
  {
    match m
    case Tick(now) => f.(store := f.store.(clock := now))
    case Whole(call) => f.(store := Sessions.Apply(f.store, cfg, call))
    case ReadUser(_, _, _, _, _) => ReadUserMove(f, cfg, m)
    case Sign(r, now) =>
      var p := f.flights[r];
      Aloft(f, r, Storing(p.user, Claims(cfg, p.user, now), now, p.read, p.readAt), f.store.(clock := now))
    case Store(_, _, _, _) => StoreMove(f, cfg, m)
    case ReadToken(_, _, _) => ReadTokenMove(f, cfg, m)
    case Check(_, _) => CheckMove(f, m)
    case Load(_, _) => LoadMove(f, m)
    case Issue(_, _) => IssueMove(f, cfg, m)
    case Abort(r) => Grounded(f, r, f.store)
  }

  predicate Runs(f: Sky, cfg: Config, delay: nat, moves: seq<Move>)
    decreases moves
  {
    moves == [] || (Enabled(f, cfg, delay, moves[0]) && Runs(Apply(f, cfg, delay, moves[0]), cfg, delay, moves[1..]))
  }

  function Run(f: Sky, cfg: Config, delay: nat, moves: seq<Move>): Sky
    requires Runs(f, cfg, delay, moves)
    decreases moves
  {
    if moves == [] then f else Run(Apply(f, cfg, delay, moves[0]), cfg, delay, moves[1..])
  }

  predicate Initial(f: Sky) {
    Sessions.Initial(f.store) && f.flights == map[]
  }

  // ---- What the log says of reads that are past ----

  /** Everything logged from position k on happened at that time or later. */
  predicate NotBefore(log: seq<Event>, k: nat, time: int) {
    forall m :: k <= m < |log| ==> time <= TimeOf(log[m])
  }

  /** The user of an access token was active at some read at most delay before its date. */
  ghost predicate UserWasActive(before: seq<Event>, e: Event, delay: nat)
    requires Issues(e)
  {
    exists k: nat :: k <= |before| &&
      StatusIn(before[..k], e.access.sub) == Some(ACTIVE) && NotBefore(before, k, e.issuedAt - delay)
  }

  /** The session of a refresh was open at some read at most delay before its date, and in time at its check. */
  ghost predicate SessionWasOpen(cfg: Config, before: seq<Event>, e: Event, delay: nat)
    requires e.Refreshed?
  {
    exists k: nat :: k <= |before| && OpenSession(before[..k], cfg, e.token).Some? &&
      OpenSession(before[..k], cfg, e.token).value.userId == e.access.sub &&
      (var start := OpenSession(before[..k], cfg, e.token).value.start;
       start <= e.checkedAt < start + cfg.refreshTtl) &&
      NotBefore(before, k, e.issuedAt - delay)
  }

  ghost predicate Honest(cfg: Config, before: seq<Event>, e: Event, delay: nat) {
    && (e.Registered? ==> StatusIn(before, e.userId) == None)
    && (Issues(e) ==>
          UserWasActive(before, e, delay) && e.access.exp == (e.issuedAt + cfg.accessTtl) / SECOND &&
          e.issuedAt <= TimeOf(e))
    && (e.Refreshed? ==> SessionWasOpen(cfg, before, e, delay))
  }

  ghost predicate LogOk(cfg: Config, log: seq<Event>, delay: nat) {
    && (forall i :: 0 <= i < |log| ==> Honest(cfg, log[..i], log[i], delay))
    && (forall i, j :: 0 <= i < j < |log| ==> TimeOf(log[i]) <= TimeOf(log[j]))
  }

  /** The user a call has read is one of the store's, with its tenant and address. */
  predicate UserKnown(s: State, p: Flight) {
    p.SigningIn? || p.Storing? || p.Renewing? ==>
      && p.user.id in s.users && p.user.tenantId == s.users[p.user.id].tenantId
      && p.user.email == s.users[p.user.id].email
  }

  /** What a call in flight may rely on. */
  ghost predicate FlightOk(f: Sky, cfg: Config, delay: nat, p: Flight) {
    && UserKnown(f.store, p)
    && p.read <= |f.store.log| && p.readAt <= f.store.clock && NotBefore(f.store.log, p.read, p.readAt)
    && match p
       case SigningIn(user, read, _) => StatusIn(f.store.log[..read], user.id) == Some(ACTIVE)
       case Storing(user, access, issuedAt, read, readAt) =>
         && StatusIn(f.store.log[..read], user.id) == Some(ACTIVE)
         && access == Claims(cfg, user, issuedAt) && issuedAt <= f.store.clock && issuedAt <= readAt + delay
       case Presenting(token, stored, read, readAt) =>
         !stored.revoked ==> Opened(f, cfg, token, stored, read) && stored.expiresAt - cfg.refreshTtl <= readAt
       case Checked(token, stored, checkedAt, read, _) =>
         Opened(f, cfg, token, stored, read) && stored.expiresAt - cfg.refreshTtl <= checkedAt < stored.expiresAt
       case Renewing(token, stored, checkedAt, user, loaded, read, _) =>
         && Opened(f, cfg, token, stored, read)
         && stored.expiresAt - cfg.refreshTtl <= checkedAt < stored.expiresAt
         && read <= loaded <= |f.store.log| && user.id == stored.userId
         && StatusIn(f.store.log[..loaded], user.id) == Some(ACTIVE)
  }

  /** The token read is the one of a session that was open then. */
  predicate Opened(f: Sky, cfg: Config, token: string, stored: RefreshToken, read: nat)
    requires read <= |f.store.log|
  {
    OpenSession(f.store.log[..read], cfg, token) == Some(Session(stored.userId, stored.expiresAt - cfg.refreshTtl))
  }

  ghost predicate StoreTold(s: State, cfg: Config) {
    && EmailsKnown(s, cfg) && ClaimsKnown(s)
    && (forall t :: TokensTold(s, cfg, t)) && (forall u :: UserTold(s, u))
    && (forall id :: id in s.users ==> s.users[id].id == id)
    && (forall i :: 0 <= i < |s.log| ==> TimeOf(s.log[i]) <= s.clock)
  }

  ghost predicate Sound(f: Sky, cfg: Config, delay: nat) {
    && StoreTold(f.store, cfg) && LogOk(cfg, f.store.log, delay)
    && (forall r :: r in f.flights ==> FlightOk(f, cfg, delay, f.flights[r]))
  }

  // ---- Every move keeps it ----

  /** The event a move adds to the log, if any. */
  function Added(f: Sky, cfg: Config, delay: nat, m: Move): seq<Event>
    requires Enabled(f, cfg, delay, m)
  {
    var before, after := f.store.log, Apply(f, cfg, delay, m).store.log;
    if |after| > |before| then after[|before|..] else []
  }

  lemma WholeAddsAtMostOne(s: State, cfg: Config, c: Call)
    requires Sessions.Enabled(s, cfg, c) && !c.Login? && !c.Refresh?
    ensures var t := Sessions.Apply(s, cfg, c);
      && t.clock >= s.clock && s.log <= t.log && |t.log| <= |s.log| + 1
      && (|t.log| > |s.log| ==> TimeOf(t.log[|s.log|]) == t.clock)
  {
  }

  lemma AddsAtMostOne(f: Sky, cfg: Config, delay: nat, m: Move)
    requires Enabled(f, cfg, delay, m)
    ensures var t := Apply(f, cfg, delay, m);
      && t.store.clock >= f.store.clock && t.store.log == f.store.log + Added(f, cfg, delay, m)
      && |Added(f, cfg, delay, m)| <= 1
      && forall e :: e in Added(f, cfg, delay, m) ==> TimeOf(e) == t.store.clock
  {
    if m.Whole? { WholeAddsAtMostOne(f.store, cfg, m.call); }
  }

  lemma UserRead(f: Sky, cfg: Config, u: User)
    requires StoreTold(f.store, cfg) && u.id in f.store.users && f.store.users[u.id] == u && u.IsActive()
    ensures StatusIn(f.store.log[..|f.store.log|], u.id) == Some(ACTIVE)
  {
    assert f.store.log[..|f.store.log|] == f.store.log;
    assert UserTold(f.store, u.id);
  }

  lemma TokenRead(f: Sky, cfg: Config, token: string)
    requires StoreTold(f.store, cfg) && cfg.key(token) in f.store.tokens && !f.store.tokens[cfg.key(token)].revoked
    ensures var stored := f.store.tokens[cfg.key(token)];
      Opened(f, cfg, token, stored, |f.store.log|) && stored.expiresAt - cfg.refreshTtl <= f.store.clock
  {
    assert f.store.log[..|f.store.log|] == f.store.log;
    assert TokensTold(f.store, cfg, token);
    var j := LoginBehind(f.store.log, cfg, token);
    assert TimeOf(f.store.log[j]) <= f.store.clock;
  }

  /** A longer log says the same of what was read before. */
  lemma FlightStaysOk(f: Sky, g: Sky, cfg: Config, delay: nat, p: Flight)
    requires FlightOk(f, cfg, delay, p) && f.store.clock <= g.store.clock
    requires f.store.log <= g.store.log && UsersStay(f.store, g.store)
    requires forall i :: |f.store.log| <= i < |g.store.log| ==> TimeOf(g.store.log[i]) >= f.store.clock
    ensures FlightOk(g, cfg, delay, p)
  {
    assert g.store.log[..p.read] == f.store.log[..p.read];
    if p.Renewing? { assert g.store.log[..p.loaded] == f.store.log[..p.loaded]; }
  }

  lemma ActorStaysOk(f: Sky, cfg: Config, delay: nat, m: Move)
    requires Sound(f, cfg, delay) && Enabled(f, cfg, delay, m) && !m.Whole? && !m.Tick?
    requires m.r in Apply(f, cfg, delay, m).flights
    ensures FlightOk(Apply(f, cfg, delay, m), cfg, delay, Apply(f, cfg, delay, m).flights[m.r])
  {
    match m
    case ReadUser(_, email, password, finds, matches) =>
      var u := LoginUser(f.store, cfg, email, password, finds, matches);
      if u.Ok? { UserRead(f, cfg, u.value); }
    case ReadToken(_, token, finds) =>
      var stored := FetchToken(f.store, cfg, token, finds);
      if stored.Ok? && !stored.value.revoked { TokenRead(f, cfg, token); }
    case Load(r, loads) =>
      var u := FetchUser(f.store, f.flights[r].stored.userId, loads);
      if u.Ok? { UserRead(f, cfg, u.value); }
    case _ =>
  }

  lemma MoveKeepsUsers(f: Sky, cfg: Config, delay: nat, m: Move)
    requires Enabled(f, cfg, delay, m)
    ensures UsersStay(f.store, Apply(f, cfg, delay, m).store)
  {
    if m.Whole? { UsersKept(f.store, cfg, m.call); }
  }

  lemma FlightsStayOk(f: Sky, cfg: Config, delay: nat, m: Move)
    requires Sound(f, cfg, delay) && Enabled(f, cfg, delay, m)
    ensures var t := Apply(f, cfg, delay, m);
      forall r :: r in t.flights ==> FlightOk(t, cfg, delay, t.flights[r])
  {
    var t := Apply(f, cfg, delay, m);
    AddsAtMostOne(f, cfg, delay, m);
    MoveKeepsUsers(f, cfg, delay, m);
    forall r | r in t.flights
      ensures FlightOk(t, cfg, delay, t.flights[r])
    {
      if !m.Whole? && !m.Tick? && r == m.r {
        ActorStaysOk(f, cfg, delay, m);
      } else {
        FlightStaysOk(f, t, cfg, delay, f.flights[r]);
      }
    }
  }

  lemma StoreStaysTold(s: State, t: State, cfg: Config, e: Event)
    requires StoreTold(s, cfg) && Follows(s, cfg, e, t) && TimeOf(e) == t.clock >= s.clock
    requires t.users == s.users && t.emails == s.emails && (Issues(e) ==> TellsUser(s, e.access))
    ensures StoreTold(t, cfg)
  {
    EmailsAlike(s, t, cfg);
    forall i | 0 <= i < |t.log| && Issues(t.log[i])
      ensures TellsUser(t, t.log[i].access)
    {
      if i < |s.log| { assert TellsUser(s, s.log[i].access); }
    }
    forall token
      ensures TokensTold(t, cfg, token)
    {
      assert TokensTold(s, cfg, token);
      TokenFollows(s, cfg, e, t, token);
    }
    forall userId
      ensures UserTold(t, userId)
    {
      assert UserTold(s, userId);
      UserFollows(s, cfg, e, t, userId);
    }
  }

  lemma EmailsAlike(s: State, t: State, cfg: Config)
    requires EmailsKnown(s, cfg) && t.users == s.users && t.emails == s.emails
    ensures EmailsKnown(t, cfg)
  {
    forall id | id in t.users
      ensures Indexed(t, cfg, id)
    {
      assert Indexed(s, cfg, id);
    }
  }

  lemma ClaimsAlike(s: State, t: State)
    requires ClaimsKnown(s) && UsersStay(s, t) && s.log <= t.log
    requires forall i :: |s.log| <= i < |t.log| ==> !Issues(t.log[i])
    ensures ClaimsKnown(t)
  {
    forall i | 0 <= i < |t.log| && Issues(t.log[i])
      ensures TellsUser(t, t.log[i].access)
    {
      assert TellsUser(s, s.log[i].access);
    }
  }

  lemma WholeIssuesNothing(s: State, cfg: Config, c: Call)
    requires Sessions.Enabled(s, cfg, c) && !c.Login? && !c.Refresh?
    ensures var t := Sessions.Apply(s, cfg, c);
      |t.log| > |s.log| ==> !Issues(t.log[|s.log|])
  {
  }

  lemma WholeStaysTold(s: State, cfg: Config, c: Call)
    requires StoreTold(s, cfg) && Sessions.Enabled(s, cfg, c) && !c.Login? && !c.Refresh?
    ensures StoreTold(Sessions.Apply(s, cfg, c), cfg)
  {
    var t := Sessions.Apply(s, cfg, c);
    KeysKept(s, cfg, c);
    WholeAddsAtMostOne(s, cfg, c);
    WholeIssuesNothing(s, cfg, c);
    UsersKept(s, cfg, c);
    ClaimsAlike(s, t);
    EmailsStayKnown(s, cfg, c);
    forall token
      ensures TokensTold(t, cfg, token)
    {
      assert TokensTold(s, cfg, token);
      TokenKept(s, cfg, c, token);
    }
    forall userId
      ensures UserTold(t, userId)
    {
      assert UserTold(s, userId);
      UserKept(s, cfg, c, userId);
    }
  }

  lemma StoreMoveFollows(f: Sky, cfg: Config, delay: nat, m: Move)
    requires Enabled(f, cfg, delay, m) && m.Store? && m.ok
    requires FlightOk(f, cfg, delay, f.flights[m.r])
    ensures var p := f.flights[m.r];
      Follows(f.store, cfg, LoggedIn(m.token, p.access, p.issuedAt, m.start), Apply(f, cfg, delay, m).store)
  {
  }

  lemma IssueMoveFollows(f: Sky, cfg: Config, delay: nat, m: Move)
    requires Enabled(f, cfg, delay, m) && m.Issue?
    ensures var p := f.flights[m.r];
      Follows(f.store, cfg, Refreshed(p.token, Claims(cfg, p.user, m.now), p.checkedAt, m.now),
              Apply(f, cfg, delay, m).store)
  {
  }

  lemma MoveKeepsStore(f: Sky, cfg: Config, delay: nat, m: Move)
    requires Sound(f, cfg, delay) && Enabled(f, cfg, delay, m)
    ensures StoreTold(Apply(f, cfg, delay, m).store, cfg)
  {
    var s, t := f.store, Apply(f, cfg, delay, m).store;
    match m
    case Whole(call) => WholeStaysTold(s, cfg, call);
    case Store(r, token, start, ok) =>
      if ok {
        StoreMoveFollows(f, cfg, delay, m);
        StoreStaysTold(s, t, cfg, LoggedIn(token, f.flights[r].access, f.flights[r].issuedAt, start));
      } else {
        OnlyClock(s, t, cfg);
      }
    case Issue(r, now) =>
      var p := f.flights[r];
      IssueMoveFollows(f, cfg, delay, m);
      StoreStaysTold(s, t, cfg, Refreshed(p.token, Claims(cfg, p.user, now), p.checkedAt, now));
    case _ => OnlyClock(s, t, cfg);
  }

  lemma OnlyClock(s: State, t: State, cfg: Config)
    requires StoreTold(s, cfg) && t == s.(clock := t.clock) && t.clock >= s.clock
    ensures StoreTold(t, cfg)
  {
    EmailsAlike(s, t, cfg);
    ClaimsAlike(s, t);
    forall token
      ensures TokensTold(t, cfg, token)
    {
      assert TokensTold(s, cfg, token);
    }
    forall userId
      ensures UserTold(t, userId)
    {
      assert UserTold(s, userId);
    }
  }

  lemma IssueIsHonest(f: Sky, cfg: Config, delay: nat, m: Move)
    requires Sound(f, cfg, delay) && Enabled(f, cfg, delay, m) && m.Issue?
    ensures var p := f.flights[m.r];
      Honest(cfg, f.store.log, Refreshed(p.token, Claims(cfg, p.user, m.now), p.checkedAt, m.now), delay)
  {
    var p := f.flights[m.r];
    var e := Refreshed(p.token, Claims(cfg, p.user, m.now), p.checkedAt, m.now);
    assert FlightOk(f, cfg, delay, p);
    assert UserWasActive(f.store.log, e, delay) by {
      assert StatusIn(f.store.log[..p.loaded], e.access.sub) == Some(ACTIVE);
    }
    assert SessionWasOpen(cfg, f.store.log, e, delay) by {
      assert OpenSession(f.store.log[..p.read], cfg, e.token).Some?;
    }
  }

  lemma StoreIsHonest(f: Sky, cfg: Config, delay: nat, m: Move)
    requires Sound(f, cfg, delay) && Enabled(f, cfg, delay, m) && m.Store?
    ensures var p := f.flights[m.r];
      Honest(cfg, f.store.log, LoggedIn(m.token, p.access, p.issuedAt, m.start), delay)
  {
    var p := f.flights[m.r];
    var e := LoggedIn(m.token, p.access, p.issuedAt, m.start);
    assert FlightOk(f, cfg, delay, p);
    assert UserWasActive(f.store.log, e, delay) by {
      assert StatusIn(f.store.log[..p.read], e.access.sub) == Some(ACTIVE);
    }
  }

  lemma AddedIsHonest(f: Sky, cfg: Config, delay: nat, m: Move, e: Event)
    requires Sound(f, cfg, delay) && Enabled(f, cfg, delay, m) && e in Added(f, cfg, delay, m)
    ensures Honest(cfg, f.store.log, e, delay)
  {
    match m
    case Whole(call) => if call.Register? { assert UserTold(f.store, call.user.id); }
    case Store(_, _, _, _) => StoreIsHonest(f, cfg, delay, m);
    case Issue(_, _) => IssueIsHonest(f, cfg, delay, m);
    case _ =>
  }

  lemma LogOkAppend(cfg: Config, log: seq<Event>, e: Event, delay: nat)
    requires LogOk(cfg, log, delay) && Honest(cfg, log, e, delay)
    requires forall i :: 0 <= i < |log| ==> TimeOf(log[i]) <= TimeOf(e)
    ensures LogOk(cfg, log + [e], delay)
  {
    var all := log + [e];
    forall i | 0 <= i < |all|
      ensures Honest(cfg, all[..i], all[i], delay)
    {
      assert all[..i] == log[..i];
      assert log[..|log|] == log;
    }
  }

  lemma MoveKeepsSound(f: Sky, cfg: Config, delay: nat, m: Move)
    requires Sound(f, cfg, delay) && Enabled(f, cfg, delay, m)
    ensures Sound(Apply(f, cfg, delay, m), cfg, delay)
  {
    FlightsStayOk(f, cfg, delay, m);
    MoveKeepsStore(f, cfg, delay, m);
    AddsAtMostOne(f, cfg, delay, m);
    var added := Added(f, cfg, delay, m);
    if added == [] {
      assert f.store.log + added == f.store.log;
    } else {
      AddedIsHonest(f, cfg, delay, m, added[0]);
      LogOkAppend(cfg, f.store.log, added[0], delay);
      assert added == [added[0]];
    }
  }

  lemma {:induction false} RunKeepsSound(f: Sky, cfg: Config, delay: nat, moves: seq<Move>)
    requires Sound(f, cfg, delay) && Runs(f, cfg, delay, moves)
    ensures Sound(Run(f, cfg, delay, moves), cfg, delay)
    decreases moves
  {
    if moves == [] {
    } else {
      MoveKeepsSound(f, cfg, delay, moves[0]);
      RunKeepsSound(Apply(f, cfg, delay, moves[0]), cfg, delay, moves[1..]);
    }
  }

  // ---- Main results ----

  /**
   Whatever overlaps: once a user is deactivated for good, no access token of that
   user validates at or after that moment plus delay plus accessTtl.
   */
  lemma DeactivationEndsAccessInFlight(f: Sky, cfg: Config, delay: nat, moves: seq<Move>,
                                       userId: string, k: int, i: nat, now: int)
    requires Initial(f) && Runs(f, cfg, delay, moves)
    requires DeactivatedAt(Run(f, cfg, delay, moves).store.log, userId, k)
    requires var log := Run(f, cfg, delay, moves).store.log;
      i < |log| && Issues(log[i]) && log[i].access.sub == userId && Unexpired(log[i].access, now)
    ensures var log := Run(f, cfg, delay, moves).store.log;
      log[i].access.exp == 0 || now < log[k].at + delay + cfg.accessTtl
  {
    RunKeepsSound(f, cfg, delay, moves);
    ActiveReadBound(cfg, Run(f, cfg, delay, moves).store.log, delay, userId, k, i);
  }

  /** The read behind an access token. */
  lemma ActiveRead(cfg: Config, log: seq<Event>, delay: nat, i: nat) returns (read: nat)
    requires LogOk(cfg, log, delay) && i < |log| && Issues(log[i])
    ensures read <= i && StatusIn(log[..read], log[i].access.sub) == Some(ACTIVE)
    ensures forall m :: read <= m < i ==> log[i].issuedAt - delay <= TimeOf(log[m])
    ensures log[i].issuedAt <= TimeOf(log[i]) && log[i].access.exp == (log[i].issuedAt + cfg.accessTtl) / SECOND
  {
    var before := log[..i];
    assert Honest(cfg, before, log[i], delay);
    read :| read <= |before| && StatusIn(before[..read], log[i].access.sub) == Some(ACTIVE) &&
      NotBefore(before, read, log[i].issuedAt - delay);
    assert before[..read] == log[..read];
    forall m | read <= m < i
      ensures log[i].issuedAt - delay <= TimeOf(log[m])
    {
      assert before[m] == log[m];
    }
  }

  lemma ActiveReadBound(cfg: Config, log: seq<Event>, delay: nat, userId: string, k: int, i: nat)
    requires LogOk(cfg, log, delay) && DeactivatedAt(log, userId, k)
    requires i < |log| && Issues(log[i]) && log[i].access.sub == userId
    ensures log[i].issuedAt <= log[k].at + delay
    ensures log[i].access.exp * SECOND <= log[i].issuedAt + cfg.accessTtl
  {
    var read := ActiveRead(cfg, log, delay, i);
    if read > k {
      RegistersOnce(cfg, log, delay);
      assert DeactivatedAt(log[..read], userId, k);
      RegisteredOncePrefix(log, read);
      StaysInactive(log[..read], userId, k);
    } else if k > i {
      assert TimeOf(log[i]) <= TimeOf(log[k]);
    }
  }

  lemma RegistersOnce(cfg: Config, log: seq<Event>, delay: nat)
    requires LogOk(cfg, log, delay)
    ensures RegisteredOnce(log)
  {
    forall i | 0 <= i < |log| && log[i].Registered?
      ensures StatusIn(log[..i], log[i].userId) == None
    {
      assert Honest(cfg, log[..i], log[i], delay);
    }
  }

  /** Event p logs the token out, and no later login returns it. */
  predicate ClosedAt(log: seq<Event>, cfg: Config, token: string, p: int) {
    && 0 <= p < |log| && log[p].LoggedOut? && cfg.key(log[p].token) == cfg.key(token)
    && forall j :: p < j < |log| ==> !(log[j].LoggedIn? && cfg.key(log[j].token) == cfg.key(token))
  }

  lemma {:induction false} StaysClosed(log: seq<Event>, cfg: Config, token: string, p: int)
    requires ClosedAt(log, cfg, token, p)
    ensures OpenSession(log, cfg, token) == None
  {
    if p == |log| - 1 {
    } else {
      assert ClosedAt(log[..|log| - 1], cfg, token, p);
      StaysClosed(log[..|log| - 1], cfg, token, p);
    }
  }

  /** Whatever overlaps: after a logout its session issues nothing dated later than the logout plus delay. */
  lemma LogoutEndsSessionInFlight(f: Sky, cfg: Config, delay: nat, moves: seq<Move>, token: string, p: int, i: nat)
    requires Initial(f) && Runs(f, cfg, delay, moves)
    requires ClosedAt(Run(f, cfg, delay, moves).store.log, cfg, token, p)
    requires var log := Run(f, cfg, delay, moves).store.log;
      p < i < |log| && log[i].Refreshed? && log[i].token == token
    ensures var log := Run(f, cfg, delay, moves).store.log;
      log[i].issuedAt <= log[p].at + delay
  {
    RunKeepsSound(f, cfg, delay, moves);
    var log := Run(f, cfg, delay, moves).store.log;
    var read := OpenRead(cfg, log, delay, i);
    if read > p {
      assert ClosedAt(log[..read], cfg, token, p);
      StaysClosed(log[..read], cfg, token, p);
    } else {
      assert TimeOf(log[p]) == log[p].at;
    }
  }

  /** The read of the refresh token behind a refresh. */
  lemma OpenRead(cfg: Config, log: seq<Event>, delay: nat, i: nat) returns (read: nat)
    requires LogOk(cfg, log, delay) && i < |log| && log[i].Refreshed?
    ensures read <= i && OpenSession(log[..read], cfg, log[i].token).Some?
    ensures var session := OpenSession(log[..read], cfg, log[i].token).value;
      session.userId == log[i].access.sub && session.start <= log[i].checkedAt < session.start + cfg.refreshTtl
    ensures forall m :: read <= m < i ==> log[i].issuedAt - delay <= TimeOf(log[m])
  {
    var before := log[..i];
    assert Honest(cfg, before, log[i], delay);
    read :| read <= |before| && OpenSession(before[..read], cfg, log[i].token).Some? &&
      OpenSession(before[..read], cfg, log[i].token).value.userId == log[i].access.sub &&
      (var start := OpenSession(before[..read], cfg, log[i].token).value.start;
       start <= log[i].checkedAt < start + cfg.refreshTtl) &&
      NotBefore(before, read, log[i].issuedAt - delay);
    assert before[..read] == log[..read];
    forall m | read <= m < i
      ensures log[i].issuedAt - delay <= TimeOf(log[m])
    {
      assert before[m] == log[m];
    }
  }

  /** Whatever overlaps: a refresh checks its token before the limit of the login that returned it. */
  lemma LimitHoldsInFlight(f: Sky, cfg: Config, delay: nat, moves: seq<Move>, i: nat)
    requires Initial(f) && Runs(f, cfg, delay, moves)
    requires i < |Run(f, cfg, delay, moves).store.log| && Run(f, cfg, delay, moves).store.log[i].Refreshed?
    ensures var log := Run(f, cfg, delay, moves).store.log;
      exists j :: 0 <= j < i && log[j].LoggedIn? && cfg.key(log[j].token) == cfg.key(log[i].token) &&
        log[j].access.sub == log[i].access.sub && log[j].start <= log[i].checkedAt < log[j].start + cfg.refreshTtl
  {
    RunKeepsSound(f, cfg, delay, moves);
    var log := Run(f, cfg, delay, moves).store.log;
    var read := OpenRead(cfg, log, delay, i);
    var j := LoginBehind(log[..read], cfg, log[i].token);
    assert log[..read][j] == log[j];
  }

  lemma {:induction false} Then(f: Sky, cfg: Config, delay: nat, moves: seq<Move>, m: Move)
    requires Runs(f, cfg, delay, moves) && Enabled(Run(f, cfg, delay, moves), cfg, delay, m)
    ensures Runs(f, cfg, delay, moves + [m])
    ensures Run(f, cfg, delay, moves + [m]) == Apply(Run(f, cfg, delay, moves), cfg, delay, m)
    decreases moves
  {
    if moves == [] {
      assert [] + [m] == [m] && [m][1..] == [];
      assert Runs(Apply(f, cfg, delay, m), cfg, delay, []);
    } else {
      assert (moves + [m])[1..] == moves[1..] + [m];
      Then(Apply(f, cfg, delay, moves[0]), cfg, delay, moves[1..], m);
    }
  }

  // ---- What passes the reads ----

  /**
   Whatever overlaps: a login gets past its read exactly when address and password
   are given, the lookup answers, the password matches and a user of that address
   was last given the status active; it goes on with that user.
   */
  lemma ReadUserPassesExactly(f: Sky, cfg: Config, delay: nat, moves: seq<Move>, m: Move)
    requires Initial(f) && Runs(f, cfg, delay, moves) && m.ReadUser?
    requires Enabled(Run(f, cfg, delay, moves), cfg, delay, m)
    ensures var g := Run(f, cfg, delay, moves); var t := Apply(g, cfg, delay, m);
      && (m.r in t.flights <==>
            m.email != "" && m.password != "" && m.finds && m.matches && ActiveAt(g.store, cfg, Normal(m.email)))
      && (m.r in t.flights ==>
            && t.flights[m.r].SigningIn?
            && Holds(g.store, cfg, t.flights[m.r].user.id, Normal(m.email)))
  {
    RunKeepsSound(f, cfg, delay, moves);
    OneHolder(Run(f, cfg, delay, moves).store, cfg, Normal(m.email));
  }

  /** Whatever overlaps: a refresh gets past its reads and its check exactly as it should. */
  lemma RefreshPassesExactly(f: Sky, cfg: Config, delay: nat, moves: seq<Move>, m: Move)
    requires Initial(f) && Runs(f, cfg, delay, moves) && (m.ReadToken? || m.Check? || m.Load?)
    requires Enabled(Run(f, cfg, delay, moves), cfg, delay, m)
    ensures var g := Run(f, cfg, delay, moves); var t := Apply(g, cfg, delay, m);
      m.r in t.flights <==>
        match m
        case ReadToken(_, token, finds) => token != "" && finds && cfg.key(token) in g.store.tokens
        case Check(r, now) => !g.flights[r].stored.revoked && now < g.flights[r].stored.expiresAt
        case Load(r, loads) => loads && StatusIn(g.store.log, g.flights[r].stored.userId) == Some("active")
        case _ => false
  {
    RunKeepsSound(f, cfg, delay, moves);
    var g := Run(f, cfg, delay, moves);
    if m.Load? { assert UserTold(g.store, g.flights[m.r].stored.userId); }
  }

  /** Whatever overlaps: tenant and address in every access token issued are those of its user. */
  lemma TokensTellTheirUserInFlight(f: Sky, cfg: Config, delay: nat, moves: seq<Move>, i: nat)
    requires Initial(f) && Runs(f, cfg, delay, moves)
    requires var log := Run(f, cfg, delay, moves).store.log; i < |log| && Issues(log[i])
    ensures var t := Run(f, cfg, delay, moves).store; var a := t.log[i].access;
      && a.sub in t.users && a.tid == t.users[a.sub].tenantId && a.email == t.users[a.sub].email
      && a.exp == (t.log[i].issuedAt + cfg.accessTtl) / 1_000_000_000
  {
    RunKeepsSound(f, cfg, delay, moves);
    var log := Run(f, cfg, delay, moves).store.log;
    assert Honest(cfg, log[..i], log[i], delay);
  }

  // ---- At once exactly without delay ----

  /** Every access token of a user deactivated for good is dated no later than the deactivation. */
  ghost predicate DatedByDeactivation(log: seq<Event>) {
    forall i, k :: 0 <= i < |log| && Issues(log[i]) && DeactivatedAt(log, log[i].access.sub, k) ==>
      log[i].issuedAt <= log[k].at
  }

  /** And none of them is good for longer than accessTtl after it; an expiry of 0 counts as none. */
  ghost predicate ExpiredByDeactivation(log: seq<Event>, cfg: Config) {
    forall i, k, now ::
      0 <= i < |log| && Issues(log[i]) && DeactivatedAt(log, log[i].access.sub, k) && Unexpired(log[i].access, now) ==>
        log[i].access.exp == 0 || now < log[k].at + cfg.accessTtl
  }

  /** Every refresh of a session logged out for good is dated no later than the logout. */
  ghost predicate DatedByLogout(log: seq<Event>, cfg: Config) {
    forall i, p :: 0 <= p < i < |log| && log[i].Refreshed? && ClosedAt(log, cfg, log[i].token, p) ==>
      log[i].issuedAt <= log[p].at
  }

  /** A time from which on a token dated delay later expires on the second, not at 0. */
  lemma FullSecond(clock: int, delay: nat, ttl: int) returns (at: int)
    ensures at >= clock && (at + delay + ttl) % SECOND == 0 && at + delay + ttl != 0
  {
    var base := clock + delay + ttl;
    at := clock + SECOND - base % SECOND;
    if at + delay + ttl == 0 { at := at + SECOND; }
  }

  /** A registered user, at a time the caller chooses. */
  lemma OneUser(f: Sky, cfg: Config, delay: nat, at: int) returns (moves: seq<Move>)
    requires Initial(f) && at >= f.store.clock
    ensures Runs(f, cfg, delay, moves)
    ensures var g := Run(f, cfg, delay, moves); var u := User("u", "t", "a", ACTIVE);
      && g.store.clock == at && g.flights == map[] && g.store.log == [Registered("u", at)] && g.store.tokens == map[]
      && g.store.users == map["u" := u] && g.store.emails == map[cfg.key("a") := "u"]
  {
    var u := User("u", "t", "a", ACTIVE);
    assert Normal("a") == "a";
    moves := [Tick(at)];
    Then(f, cfg, delay, [], Tick(at));
    Then(f, cfg, delay, moves, Whole(Register(u, true, true, at, true)));
    moves := moves + [Whole(Register(u, true, true, at, true))];
  }

  /** The bound is reached: a login that read the user before the deactivation dates its token delay later. */
  lemma OldReadOutlivesDeactivation(f: Sky, cfg: Config, delay: nat) returns (moves: seq<Move>)
    requires Initial(f)
    ensures Runs(f, cfg, delay, moves)
    ensures var log := Run(f, cfg, delay, moves).store.log;
      && |log| == 3 && log[0].Registered? && DeactivatedAt(log, log[0].userId, 1) && log[2].LoggedIn?
      && log[2].access.sub == log[0].userId && log[2].issuedAt == log[1].at + delay
      && log[2].access.exp != 0 && log[2].access.exp * SECOND == log[1].at + delay + cfg.accessTtl
  {
    var now := FullSecond(f.store.clock, delay, cfg.accessTtl);
    moves := OneUser(f, cfg, delay, now);
    assert Normal("a") == "a";
    Then(f, cfg, delay, moves, ReadUser(0, "a", "p", true, true));
    moves := moves + [ReadUser(0, "a", "p", true, true)];
    Then(f, cfg, delay, moves, Whole(SetStatus("u", INACTIVE, true, now, true)));
    moves := moves + [Whole(SetStatus("u", INACTIVE, true, now, true))];
    Then(f, cfg, delay, moves, Sign(0, now + delay));
    moves := moves + [Sign(0, now + delay)];
    Then(f, cfg, delay, moves, Store(0, "r", now + delay, true));
    moves := moves + [Store(0, "r", now + delay, true)];
  }

  lemma NoDelayDeactivates(f: Sky, cfg: Config, moves: seq<Move>)
    requires Initial(f) && Runs(f, cfg, 0, moves)
    ensures DatedByDeactivation(Run(f, cfg, 0, moves).store.log)
    ensures ExpiredByDeactivation(Run(f, cfg, 0, moves).store.log, cfg)
  {
    RunKeepsSound(f, cfg, 0, moves);
    var log := Run(f, cfg, 0, moves).store.log;
    forall i, k | 0 <= i < |log| && Issues(log[i]) && DeactivatedAt(log, log[i].access.sub, k)
      ensures log[i].issuedAt <= log[k].at && log[i].access.exp * SECOND <= log[k].at + cfg.accessTtl
    {
      ActiveReadBound(cfg, log, 0, log[i].access.sub, k, i);
    }
  }

  /**
   Over all runs in which a call takes at most delay from its first read to the date
   of its token: a deactivation stops the access tokens of its user at once, by date
   as by validity, if and only if there is no delay.
   */
  lemma DeactivationAtOnceExactly(f: Sky, cfg: Config, delay: nat)
    requires Initial(f)
    ensures (forall moves :: Runs(f, cfg, delay, moves) ==>
              DatedByDeactivation(Run(f, cfg, delay, moves).store.log)) <==> delay == 0
    ensures (forall moves :: Runs(f, cfg, delay, moves) ==>
              ExpiredByDeactivation(Run(f, cfg, delay, moves).store.log, cfg)) <==> delay == 0
  {
    if delay == 0 {
      forall moves | Runs(f, cfg, delay, moves)
        ensures DatedByDeactivation(Run(f, cfg, delay, moves).store.log)
        ensures ExpiredByDeactivation(Run(f, cfg, delay, moves).store.log, cfg)
      {
        NoDelayDeactivates(f, cfg, moves);
      }
    } else {
      var moves := OldReadOutlivesDeactivation(f, cfg, delay);
      var log := Run(f, cfg, delay, moves).store.log;
      assert DeactivatedAt(log, log[2].access.sub, 1) && Unexpired(log[2].access, log[1].at + cfg.accessTtl);
    }
  }

  /** An open session of the one user. */
  lemma OneSession(f: Sky, cfg: Config, delay: nat, at: int) returns (moves: seq<Move>)
    requires Initial(f) && at >= f.store.clock
    ensures Runs(f, cfg, delay, moves)
    ensures var g := Run(f, cfg, delay, moves);
      && g.store.clock == at && g.flights == map[] && "u" in g.store.users
      && g.store.users["u"] == User("u", "t", "a", ACTIVE)
      && g.store.tokens == map[cfg.key("r") := RefreshToken("u", at + cfg.refreshTtl, false)]
      && |g.store.log| == 2 && g.store.log[1].LoggedIn? && g.store.log[1].token == "r"
  {
    moves := OneUser(f, cfg, delay, at);
    assert Normal("a") == "a";
    Then(f, cfg, delay, moves, ReadUser(0, "a", "p", true, true));
    moves := moves + [ReadUser(0, "a", "p", true, true)];
    Then(f, cfg, delay, moves, Sign(0, at));
    moves := moves + [Sign(0, at)];
    Then(f, cfg, delay, moves, Store(0, "r", at, true));
    moves := moves + [Store(0, "r", at, true)];
  }

  /** A refresh that read its token before the logout dates its access token delay later. */
  lemma OldReadOutlivesLogout(f: Sky, cfg: Config, delay: nat) returns (moves: seq<Move>)
    requires Initial(f) && cfg.refreshTtl > 0
    ensures Runs(f, cfg, delay, moves)
    ensures var log := Run(f, cfg, delay, moves).store.log;
      && |log| == 4 && log[1].LoggedIn? && ClosedAt(log, cfg, log[1].token, 2)
      && log[3].Refreshed? && log[3].token == log[1].token && log[3].issuedAt == log[2].at + delay
  {
    var now := f.store.clock;
    moves := OneSession(f, cfg, delay, now);
    Then(f, cfg, delay, moves, ReadToken(0, "r", true));
    moves := moves + [ReadToken(0, "r", true)];
    Then(f, cfg, delay, moves, Whole(Logout("r", true)));
    moves := moves + [Whole(Logout("r", true))];
    Then(f, cfg, delay, moves, Check(0, now));
    moves := moves + [Check(0, now)];
    Then(f, cfg, delay, moves, Load(0, true));
    moves := moves + [Load(0, true)];
    Then(f, cfg, delay, moves, Issue(0, now + delay));
    moves := moves + [Issue(0, now + delay)];
  }

  /**
   Over all such runs: a logout stops the refreshes of its session at once if and
   only if there is no delay, or no session can be refreshed at all.
   */
  lemma LogoutAtOnceExactly(f: Sky, cfg: Config, delay: nat)
    requires Initial(f)
    ensures (forall moves :: Runs(f, cfg, delay, moves) ==>
              DatedByLogout(Run(f, cfg, delay, moves).store.log, cfg)) <==> delay == 0 || cfg.refreshTtl <= 0
  {
    if delay == 0 || cfg.refreshTtl <= 0 {
      forall moves | Runs(f, cfg, delay, moves)
        ensures DatedByLogout(Run(f, cfg, delay, moves).store.log, cfg)
      {
        var log := Run(f, cfg, delay, moves).store.log;
        forall i, p | 0 <= p < i < |log| && log[i].Refreshed? && ClosedAt(log, cfg, log[i].token, p)
          ensures log[i].issuedAt <= log[p].at
        {
          LogoutEndsSessionInFlight(f, cfg, delay, moves, log[i].token, p, i);
          LimitHoldsInFlight(f, cfg, delay, moves, i);
        }
      }
    } else {
      var moves := OldReadOutlivesLogout(f, cfg, delay);
      var log := Run(f, cfg, delay, moves).store.log;
      assert ClosedAt(log, cfg, log[3].token, 2);
    }
  }
}
