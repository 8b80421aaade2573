/**
 Sessions and access tokens of the auth service: login, refresh, logout, status
 changes and a clock. Every call is a function of the stores; what callers were
 told is kept in a log, and the results speak of that log alone.
 Times are nanoseconds since the epoch. A signed token is the claims it carries;
 only claims the service signed verify.
 */
module Sessions {
  import opened Prelude

  const SECOND := 1_000_000_000

  const ACTIVE := "active"
  const INACTIVE := "inactive"
  const SUSPENDED := "suspended"

  /**
   Token lifetimes, in nanoseconds, and the database's collation: two texts are
   the same to a lookup or a unique index when they have the same key.
   */
  datatype Config = Config(accessTtl: int, refreshTtl: int, key: string -> string)

  datatype User = User(id: string, tenantId: string, email: string, status: string)
  {
    predicate IsActive() {
      status == ACTIVE
    }
  }

  datatype RefreshToken = RefreshToken(userId: string, expiresAt: int, revoked: bool)
  {
    predicate IsValid(now: int) {
      !revoked && now < expiresAt
    }
  }

  /** The claims of an access token; exp in seconds. */
  datatype Access = Access(sub: string, tid: string, email: string, exp: int)

  datatype Error =
    | InvalidInput | InvalidCredentials | UserInactive | UserNotFound | UserExists
    | TokenInvalid | TokenRevoked | TokenExpired | StoreFailed

  /** What a call did, as its caller and the clock saw it. */
  datatype Event =
    | Registered(userId: string, at: int)
    | LoggedIn(token: string, access: Access, issuedAt: int, start: int)
    | Refreshed(token: string, access: Access, checkedAt: int, issuedAt: int)
    | LoggedOut(token: string, at: int)
    | StatusSet(userId: string, status: string, at: int)

  /** emails and tokens are indexed by the key of the address or the token. */
  datatype State = State(
    clock: int,
    users: map<string, User>,
    emails: map<string, string>,
    tokens: map<string, RefreshToken>,
    log: seq<Event>)

  datatype Reply<T> = Reply(state: State, result: Result<T, Error>)

  // ---- The calls ----

  /** generateAccessToken; jwt stores whole seconds. */
  function Claims(cfg: Config, u: User, now: int): Access {
    Access(u.id, u.tenantId, u.email, (now + cfg.accessTtl) / SECOND)
  }

  function LowerChar(c: char): char {
    if 'A' <= c <= 'Z' then 'a' + (c - 'A') else c
  }

  function Lower(s: string): string {
    seq(|s|, i requires 0 <= i < |s| => LowerChar(s[i]))
  }

  predicate IsBlank(c: char) {
    c in {' ', '\t', '\n', '\r'}
  }

  function TrimLeft(s: string): string {
    if s != "" && IsBlank(s[0]) then TrimLeft(s[1..]) else s
  }

  function TrimRight(s: string): string {
    if s != "" && IsBlank(s[|s| - 1]) then TrimRight(s[..|s| - 1]) else s
  }

  /** strings.ToLower(strings.TrimSpace(email)). */
  function Normal(email: string): string {
    Lower(TrimRight(TrimLeft(email)))
  }

  predicate AllBlank(s: string) {
    forall i :: 0 <= i < |s| ==> s[i] in {' ', '\t', '\n', '\r'}
  }

  lemma {:induction false} LeftTrimmed(s: string) returns (from: nat)
    ensures from <= |s| && AllBlank(s[..from]) && TrimLeft(s) == s[from..]
    ensures TrimLeft(s) != "" ==> TrimLeft(s)[0] !in {' ', '\t', '\n', '\r'}
  {
    if s != "" && IsBlank(s[0]) {
      var rest := LeftTrimmed(s[1..]);
      from := rest + 1;
      assert s[..from] == [s[0]] + s[1..][..rest];
    } else {
      from := 0;
    }
  }

  lemma {:induction false} RightTrimmed(s: string) returns (to: nat)
    ensures to <= |s| && AllBlank(s[to..]) && TrimRight(s) == s[..to]
    ensures to > 0 ==> s[to - 1] !in {' ', '\t', '\n', '\r'}
  {
    if s != "" && IsBlank(s[|s| - 1]) {
      to := RightTrimmed(s[..|s| - 1]);
      assert s[to..] == s[..|s| - 1][to..] + [s[|s| - 1]];
    } else {
      to := |s|;
    }
  }

  /** The text between the outer blanks, with 'A' to 'Z' in lower case. */
  lemma NormalIsTrimmedLower(email: string) returns (from: nat, to: nat)
    ensures from <= to <= |email| && AllBlank(email[..from]) && AllBlank(email[to..])
    ensures from < to ==>
      email[from] !in {' ', '\t', '\n', '\r'} && email[to - 1] !in {' ', '\t', '\n', '\r'}
    ensures |Normal(email)| == to - from
    ensures forall i :: 0 <= i < to - from ==>
      var c := email[from + i];
      Normal(email)[i] == if 'A' <= c <= 'Z' then c + ' ' else c
  {
    from := LeftTrimmed(email);
    var left := email[from..];
    var end := RightTrimmed(left);
    to := from + end;
    assert email[to..] == left[end..];
  }

  function Append(s: State, now: int, e: Event): State {
    s.(clock := now, log := s.log + [e])
  }

  /** The user an address belongs to. */
  function UserAt(s: State, cfg: Config, email: string): Option<User> {
    if cfg.key(email) in s.emails && s.emails[cfg.key(email)] in s.users
    then Some(s.users[s.emails[cfg.key(email)]]) else None
  }

  /** Whether the existence check of a registration finds a user. */
  predicate Exists(s: State, cfg: Config, u: User) {
    var existing := UserAt(s, cfg, u.email);
    existing.Some? && cfg.key(existing.value.tenantId) == cfg.key(u.tenantId)
  }

  /**
   The existence check uses the address as typed, and a check that fails counts as
   passed; the unique index on stored addresses decides. checks and stores are the
   answers of the two accesses.
   */
  function RegisterCall(s: State, cfg: Config, u: User, filled: bool, checks: bool, now: int, stores: bool)
    : Reply<User>
  {
    var stored := u.(email := Normal(u.email), status := ACTIVE);
    if !filled || u.tenantId == "" || u.email == "" then Reply(s, Err(InvalidInput))
    else if checks && Exists(s, cfg, u) then Reply(s, Err(UserExists))
    else if !stores || cfg.key(stored.email) in s.emails then Reply(s.(clock := now), Err(StoreFailed))
    else Reply(Append(s, now, Registered(u.id, now))
                 .(users := s.users[u.id := stored], emails := s.emails[cfg.key(stored.email) := u.id]), Ok(stored))
  }

  /** What a login holds once it is past its checks: the user, as read. */
  function LoginUser(s: State, cfg: Config, email: string, password: string, finds: bool, matches: bool)
    : Result<User, Error>
  {
    var u := UserAt(s, cfg, Normal(email));
    if email == "" || password == "" then Err(InvalidInput)
    else if !finds || u.None? || !matches then Err(InvalidCredentials)
    else if !u.value.IsActive() then Err(UserInactive)
    else Ok(u.value)
  }

  /** A session stored and its access token returned. */
  function StoreSession(s: State, cfg: Config, u: User, token: string, access: Access, issuedAt: int, start: int)
    : State
  {
    Append(s, start, LoggedIn(token, access, issuedAt, start))
      .(tokens := s.tokens[cfg.key(token) := RefreshToken(u.id, start + cfg.refreshTtl, false)])
  }

  /** issuedAt is the reading that dates the access token, start the one that dates the session. */
  function LoginCall(s: State, cfg: Config, email: string, password: string, finds: bool, matches: bool,
                     token: string, issuedAt: int, start: int, stores: bool): Reply<Access> {
    var u := LoginUser(s, cfg, email, password, finds, matches);
    if u.Err? then Reply(s, Err(u.error))
    else if !stores then Reply(s.(clock := start), Err(StoreFailed))
    else
      var access := Claims(cfg, u.value, issuedAt);
      Reply(StoreSession(s, cfg, u.value, token, access, issuedAt, start), Ok(access))
  }

  /** The refresh token a refresh reads. */
  function FetchToken(s: State, cfg: Config, token: string, finds: bool): Result<RefreshToken, Error> {
    if token == "" then Err(InvalidInput)
    else if !finds || cfg.key(token) !in s.tokens then Err(TokenInvalid)
    else Ok(s.tokens[cfg.key(token)])
  }

  /** The user a refresh reads, past the check of the status. */
  function FetchUser(s: State, userId: string, loads: bool): Result<User, Error> {
    if !loads || userId !in s.users then Err(UserNotFound)
    else if !s.users[userId].IsActive() then Err(UserInactive)
    else Ok(s.users[userId])
  }

  /** finds and loads are the answers of the token table and of the user table. */
  function RefreshCall(s: State, cfg: Config, token: string, finds: bool, checkedAt: int, loads: bool, issuedAt: int)
    : Reply<Access>
  {
    var stored := FetchToken(s, cfg, token, finds);
    if stored.Err? then Reply(s, Err(stored.error))
    else if !stored.value.IsValid(checkedAt) then
      Reply(s.(clock := checkedAt), Err(if stored.value.revoked then TokenRevoked else TokenExpired))
    else
      var u := FetchUser(s, stored.value.userId, loads);
      if u.Err? then Reply(s.(clock := checkedAt), Err(u.error))
      else
        var access := Claims(cfg, u.value, issuedAt);
        Reply(Append(s, issuedAt, Refreshed(token, access, checkedAt, issuedAt)), Ok(access))
  }

  /** Revoking a token nobody holds succeeds too. */
  function LogoutCall(s: State, cfg: Config, token: string, stores: bool): Reply<()> {
    var k := cfg.key(token);
    if token == "" then Reply(s, Err(InvalidInput))
    else if !stores then Reply(s, Err(StoreFailed))
    else Reply(Append(s, s.clock, LoggedOut(token, s.clock))
                 .(tokens := if k in s.tokens then s.tokens[k := s.tokens[k].(revoked := true)] else s.tokens),
               Ok(()))
  }

  function StatusCall(s: State, userId: string, status: string, finds: bool, now: int, saves: bool): Reply<()> {
    if !finds then Reply(s, Err(StoreFailed))
    else if userId !in s.users then Reply(s, Err(UserNotFound))
    else if status !in {ACTIVE, INACTIVE, SUSPENDED} then Reply(s, Err(InvalidInput))
    else if !saves then Reply(s.(clock := now), Err(StoreFailed))
    else Reply(Append(s, now, StatusSet(userId, status, now))
                 .(users := s.users[userId := s.users[userId].(status := status)]), Ok(()))
  }

  // ---- Runs ----

  datatype Call =
    | Register(user: User, filled: bool, checks: bool, now: int, stores: bool)
    | Login(email: string, password: string, finds: bool, matches: bool,
            token: string, issuedAt: int, start: int, stores: bool)
    | Refresh(token: string, finds: bool, checkedAt: int, loads: bool, issuedAt: int)
    | Logout(token: string, stores: bool)
    | SetStatus(userId: string, status: string, finds: bool, now: int, saves: bool)

  /** The clock never runs backwards, and drawn ids and tokens are new. */
  predicate Enabled(s: State, cfg: Config, c: Call) {
    match c
    case Register(u, _, _, now, _) => now >= s.clock && u.id !in s.users
    case Login(_, _, _, _, token, issuedAt, start, _) =>
      s.clock <= issuedAt <= start && cfg.key(token) !in s.tokens
    case Refresh(_, _, checkedAt, _, issuedAt) => s.clock <= checkedAt <= issuedAt
    case Logout(_, _) => true
    case SetStatus(_, _, _, now, _) => now >= s.clock
  }

  function Apply(s: State, cfg: Config, c: Call): State {
    match c
    case Register(u, filled, checks, now, stores) => RegisterCall(s, cfg, u, filled, checks, now, stores).state
    case Login(email, password, finds, matches, token, issuedAt, start, stores) =>
      LoginCall(s, cfg, email, password, finds, matches, token, issuedAt, start, stores).state
    case Refresh(token, finds, checkedAt, loads, issuedAt) =>
      RefreshCall(s, cfg, token, finds, checkedAt, loads, issuedAt).state
    case Logout(token, stores) => LogoutCall(s, cfg, token, stores).state
    case SetStatus(userId, status, finds, now, saves) => StatusCall(s, userId, status, finds, now, saves).state
  }

  predicate Runs(s: State, cfg: Config, calls: seq<Call>)
    decreases calls
  {
    calls == [] || (Enabled(s, cfg, calls[0]) && Runs(Apply(s, cfg, calls[0]), cfg, calls[1..]))
  }

  function Run(s: State, cfg: Config, calls: seq<Call>): State
    decreases calls
  {
    if calls == [] then s else Run(Apply(s, cfg, calls[0]), cfg, calls[1..])
  }

  predicate Initial(s: State) {
    s.users == map[] && s.emails == map[] && s.tokens == map[] && s.log == []
  }

  // ---- What the log says ----

  datatype Session = Session(userId: string, start: int)

  /** The session of a token: the login that returned it, unless it was logged out since. */
  function OpenSession(log: seq<Event>, cfg: Config, token: string): Option<Session> {
    if log == [] then None
    else
      var last := log[|log| - 1];
      if last.LoggedIn? && cfg.key(last.token) == cfg.key(token) then Some(Session(last.access.sub, last.start))
      else if last.LoggedOut? && cfg.key(last.token) == cfg.key(token) then None
      else OpenSession(log[..|log| - 1], cfg, token)
  }

  /** The status a user was last given; None before registration. */
  function StatusIn(log: seq<Event>, userId: string): Option<string> {
    if log == [] then None
    else
      var last := log[|log| - 1];
      if last.StatusSet? && last.userId == userId then Some(last.status)
      else if last.Registered? && last.userId == userId then Some(ACTIVE)
      else StatusIn(log[..|log| - 1], userId)
  }

  predicate Issues(e: Event) {
    e.LoggedIn? || e.Refreshed?
  }

  /** The last clock reading of the call. */
  function TimeOf(e: Event): int {
    if e.LoggedIn? then e.start else if e.Refreshed? then e.issuedAt else e.at
  }

  // ---- The invariant ----

  predicate TokensTold(s: State, cfg: Config, token: string) {
    var k := cfg.key(token);
    OpenSession(s.log, cfg, token) ==
      if k in s.tokens && !s.tokens[k].revoked
      then Some(Session(s.tokens[k].userId, s.tokens[k].expiresAt - cfg.refreshTtl)) else None
  }

  predicate UserTold(s: State, userId: string) {
    StatusIn(s.log, userId) == if userId in s.users then Some(s.users[userId].status) else None
  }

  /** Whether a login returned the token. */
  predicate WasIssued(log: seq<Event>, cfg: Config, token: string) {
    exists i :: 0 <= i < |log| && log[i].LoggedIn? && cfg.key(log[i].token) == cfg.key(token)
  }

  /**
   A user registers once and a token is returned by one login; and every access
   token was issued to a user active at that point, for accessTtl, a refreshed one
   from a session still open and in time.
   */
  predicate Honest(cfg: Config, before: seq<Event>, e: Event) {
    && (e.Registered? ==> StatusIn(before, e.userId) == None)
    && (e.LoggedIn? ==> !WasIssued(before, cfg, e.token))
    && (Issues(e) ==>
          && StatusIn(before, e.access.sub) == Some(ACTIVE)
          && e.access.exp == (e.issuedAt + cfg.accessTtl) / SECOND && e.issuedAt <= TimeOf(e))
    && (e.Refreshed? ==>
          var session := OpenSession(before, cfg, e.token);
          session.Some? && session.value.userId == e.access.sub && e.checkedAt < session.value.start + cfg.refreshTtl)
  }

  ghost predicate LogOk(cfg: Config, log: seq<Event>) {
    && (forall i :: 0 <= i < |log| ==> Honest(cfg, log[..i], log[i]))
    && (forall i, j :: 0 <= i < j < |log| ==> TimeOf(log[i]) <= TimeOf(log[j]))
  }

  /** The index of addresses holds each user's address, and nothing else. */
  ghost predicate EmailsKnown(s: State, cfg: Config) {
    && (forall k :: k in s.emails ==> s.emails[k] in s.users && cfg.key(s.users[s.emails[k]].email) == k)
    && (forall id :: id in s.users ==> Indexed(s, cfg, id))
  }

  predicate Indexed(s: State, cfg: Config, id: string)
    requires id in s.users
  {
    var k := cfg.key(s.users[id].email);
    k in s.emails && s.emails[k] == id
  }

  /** A user holds the address, as the collation compares it. */
  predicate Holds(s: State, cfg: Config, id: string, email: string) {
    id in s.users && cfg.key(s.users[id].email) == cfg.key(email)
  }

  /** The tenant and the address in every access token issued are its user's. */
  ghost predicate ClaimsKnown(s: State) {
    forall i :: 0 <= i < |s.log| && Issues(s.log[i]) ==> TellsUser(s, s.log[i].access)
  }

  predicate TellsUser(s: State, a: Access) {
    a.sub in s.users && a.tid == s.users[a.sub].tenantId && a.email == s.users[a.sub].email
  }

  /** Users are never removed, and keep tenant and address. */
  ghost predicate UsersStay(s: State, t: State) {
    forall id :: id in s.users ==>
      id in t.users && t.users[id].tenantId == s.users[id].tenantId && t.users[id].email == s.users[id].email
  }

  ghost predicate Sound(s: State, cfg: Config) {
    && ClaimsKnown(s)
    && (forall t :: TokensTold(s, cfg, t)) && (forall u :: UserTold(s, u))
    && (forall id :: id in s.users ==> s.users[id].id == id) && EmailsKnown(s, cfg)
    && (forall i :: 0 <= i < |s.log| && s.log[i].LoggedIn? ==> cfg.key(s.log[i].token) in s.tokens)
    && LogOk(cfg, s.log)
    && (forall i :: 0 <= i < |s.log| ==> TimeOf(s.log[i]) <= s.clock)
  }

  lemma LogAppend(cfg: Config, log: seq<Event>, e: Event, clock: int)
    requires LogOk(cfg, log) && Honest(cfg, log, e)
    requires forall i :: 0 <= i < |log| ==> TimeOf(log[i]) <= clock
    requires TimeOf(e) >= clock
    ensures LogOk(cfg, log + [e])
  {
    var all := log + [e];
    forall i | 0 <= i < |all|
      ensures Honest(cfg, all[..i], all[i])
    {
      if i < |log| {
        assert all[..i] == log[..i];
      } else {
        assert all[..i] == log;
      }
    }
  }

  lemma SessionAppend(log: seq<Event>, e: Event, cfg: Config, token: string)
    ensures OpenSession(log + [e], cfg, token) ==
      (if e.LoggedIn? && cfg.key(e.token) == cfg.key(token) then Some(Session(e.access.sub, e.start))
       else if e.LoggedOut? && cfg.key(e.token) == cfg.key(token) then None else OpenSession(log, cfg, token))
  {
    assert (log + [e])[..|log|] == log;
  }

  lemma StatusAppend(log: seq<Event>, e: Event, userId: string)
    ensures StatusIn(log + [e], userId) ==
      (if e.StatusSet? && e.userId == userId then Some(e.status)
       else if e.Registered? && e.userId == userId then Some(ACTIVE) else StatusIn(log, userId))
  {
    assert (log + [e])[..|log|] == log;
  }

  lemma RegisterLogsHonestly(s: State, cfg: Config, c: Call)
    requires Sound(s, cfg) && Enabled(s, cfg, c) && c.Register?
    ensures LogsHonestly(s, cfg, Apply(s, cfg, c))
  {
    assert UserTold(s, c.user.id);
  }

  lemma LoginLogsHonestly(s: State, cfg: Config, c: Call)
    requires Sound(s, cfg) && Enabled(s, cfg, c) && c.Login?
    ensures LogsHonestly(s, cfg, Apply(s, cfg, c))
  {
    var u := LoginUser(s, cfg, c.email, c.password, c.finds, c.matches);
    if u.Ok? { assert UserTold(s, u.value.id); }
  }

  lemma RefreshLogsHonestly(s: State, cfg: Config, c: Call)
    requires Sound(s, cfg) && Enabled(s, cfg, c) && c.Refresh?
    ensures LogsHonestly(s, cfg, Apply(s, cfg, c))
  {
    var stored := FetchToken(s, cfg, c.token, c.finds);
    assert TokensTold(s, cfg, c.token);
    if stored.Ok? { assert UserTold(s, stored.value.userId); }
  }

  /** At most one event is added, dated by the last clock reading, and it is honest. */
  predicate LogsHonestly(s: State, cfg: Config, t: State) {
    t.clock >= s.clock &&
    (t.log == s.log ||
     (|t.log| == |s.log| + 1 && t.log == s.log + [t.log[|s.log|]] && TimeOf(t.log[|s.log|]) == t.clock &&
      Honest(cfg, s.log, t.log[|s.log|])))
  }

  lemma CallLogsHonestly(s: State, cfg: Config, c: Call)
    requires Sound(s, cfg) && Enabled(s, cfg, c)
    ensures LogsHonestly(s, cfg, Apply(s, cfg, c))
  {
    match c
    case Register(_, _, _, _, _) => RegisterLogsHonestly(s, cfg, c);
    case Login(_, _, _, _, _, _, _, _) => LoginLogsHonestly(s, cfg, c);
    case Refresh(_, _, _, _, _) => RefreshLogsHonestly(s, cfg, c);
    case _ =>
  }

  /** The tokens after an event, and the users. */
  ghost predicate Follows(s: State, cfg: Config, e: Event, t: State) {
    && t.log == s.log + [e]
    && t.tokens == (
      if e.LoggedIn? then s.tokens[cfg.key(e.token) := RefreshToken(e.access.sub, e.start + cfg.refreshTtl, false)]
      else if e.LoggedOut? && cfg.key(e.token) in s.tokens
      then s.tokens[cfg.key(e.token) := s.tokens[cfg.key(e.token)].(revoked := true)] else s.tokens)
    && t.users.Keys == s.users.Keys + (if e.Registered? then {e.userId} else {})
    && (e.StatusSet? ==> e.userId in s.users)
    && (forall u :: u in t.users ==> t.users[u].status == StatusAfter(s, e, u))
  }

  /** The status of a user after an event. */
  function StatusAfter(s: State, e: Event, u: string): string {
    if e.StatusSet? && u == e.userId then e.status
    else if (e.Registered? && u == e.userId) || u !in s.users then ACTIVE
    else s.users[u].status
  }

  ghost predicate LeavesAll(s: State, t: State) {
    t.log == s.log && t.tokens == s.tokens && t.users == s.users
  }

  /** Nothing but the clock changes, or one event is added and the stores follow it. */
  ghost predicate AddsFollowing(s: State, cfg: Config, t: State) {
    LeavesAll(s, t) || (|t.log| == |s.log| + 1 && Follows(s, cfg, t.log[|s.log|], t))
  }

  lemma RegisterFollows(s: State, cfg: Config, c: Call)
    requires c.Register? && Enabled(s, cfg, c) && forall id :: id in s.users ==> s.users[id].id == id
    ensures AddsFollowing(s, cfg, Apply(s, cfg, c))
  {
  }

  lemma LoginFollows(s: State, cfg: Config, c: Call)
    requires c.Login? && Enabled(s, cfg, c) && forall id :: id in s.users ==> s.users[id].id == id
    ensures AddsFollowing(s, cfg, Apply(s, cfg, c))
  {
  }

  lemma RefreshFollows(s: State, cfg: Config, c: Call)
    requires c.Refresh? && Enabled(s, cfg, c) && forall id :: id in s.users ==> s.users[id].id == id
    ensures AddsFollowing(s, cfg, Apply(s, cfg, c))
  {
  }

  lemma LogoutFollows(s: State, cfg: Config, c: Call)
    requires c.Logout? && Enabled(s, cfg, c) && forall id :: id in s.users ==> s.users[id].id == id
    ensures AddsFollowing(s, cfg, Apply(s, cfg, c))
  {
  }

  lemma SetStatusFollows(s: State, cfg: Config, c: Call)
    requires c.SetStatus? && Enabled(s, cfg, c) && forall id :: id in s.users ==> s.users[id].id == id
    ensures AddsFollowing(s, cfg, Apply(s, cfg, c))
  {
  }

  lemma CallFollows(s: State, cfg: Config, c: Call)
    requires Enabled(s, cfg, c) && forall id :: id in s.users ==> s.users[id].id == id
    ensures AddsFollowing(s, cfg, Apply(s, cfg, c))
  {
    match c
    case Register(_, _, _, _, _) => RegisterFollows(s, cfg, c);
    case Login(_, _, _, _, _, _, _, _) => LoginFollows(s, cfg, c);
    case Refresh(_, _, _, _, _) => RefreshFollows(s, cfg, c);
    case Logout(_, _) => LogoutFollows(s, cfg, c);
    case SetStatus(_, _, _, _, _) => SetStatusFollows(s, cfg, c);
  }

  lemma TokenFollows(s: State, cfg: Config, e: Event, t: State, token: string)
    requires Follows(s, cfg, e, t) && TokensTold(s, cfg, token)
    ensures TokensTold(t, cfg, token)
  {
    SessionAppend(s.log, e, cfg, token);
  }

  lemma UserFollows(s: State, cfg: Config, e: Event, t: State, userId: string)
    requires Follows(s, cfg, e, t) && UserTold(s, userId)
    ensures UserTold(t, userId)
  {
    StatusAppend(s.log, e, userId);
  }

  /** What the log tells of a token stays told, and so of a user. */
  lemma TokenKept(s: State, cfg: Config, c: Call, token: string)
    requires Enabled(s, cfg, c) && TokensTold(s, cfg, token)
    requires forall id :: id in s.users ==> s.users[id].id == id
    ensures TokensTold(Apply(s, cfg, c), cfg, token)
  {
    var t := Apply(s, cfg, c);
    CallFollows(s, cfg, c);
    if !LeavesAll(s, t) { TokenFollows(s, cfg, t.log[|s.log|], t, token); }
  }

  lemma UserKept(s: State, cfg: Config, c: Call, userId: string)
    requires Enabled(s, cfg, c) && UserTold(s, userId)
    requires forall id :: id in s.users ==> s.users[id].id == id
    ensures UserTold(Apply(s, cfg, c), userId)
  {
    var t := Apply(s, cfg, c);
    CallFollows(s, cfg, c);
    if !LeavesAll(s, t) { UserFollows(s, cfg, t.log[|s.log|], t, userId); }
  }

  lemma KeysKept(s: State, cfg: Config, c: Call)
    requires Enabled(s, cfg, c)
    requires forall id :: id in s.users ==> s.users[id].id == id
    ensures forall id :: id in Apply(s, cfg, c).users ==> Apply(s, cfg, c).users[id].id == id
    ensures s.tokens.Keys <= Apply(s, cfg, c).tokens.Keys
    ensures var t := Apply(s, cfg, c);
      |t.log| > |s.log| && t.log[|s.log|].LoggedIn? ==> cfg.key(t.log[|s.log|].token) in t.tokens
  {
  }

  lemma RegisterIndexes(s: State, cfg: Config, c: Call)
    requires Enabled(s, cfg, c) && c.Register? && EmailsKnown(s, cfg)
    ensures EmailsKnown(Apply(s, cfg, c), cfg)
  {
    var t := Apply(s, cfg, c);
    forall id | id in t.users
      ensures Indexed(t, cfg, id)
    {
      if id in s.users { assert Indexed(s, cfg, id); }
    }
  }

  lemma SetStatusIndexes(s: State, cfg: Config, c: Call)
    requires Enabled(s, cfg, c) && c.SetStatus? && EmailsKnown(s, cfg)
    ensures EmailsKnown(Apply(s, cfg, c), cfg)
  {
    var t := Apply(s, cfg, c);
    forall id | id in t.users
      ensures Indexed(t, cfg, id)
    {
      assert Indexed(s, cfg, id);
    }
  }

  lemma EmailsStayKnown(s: State, cfg: Config, c: Call)
    requires Enabled(s, cfg, c) && EmailsKnown(s, cfg)
    ensures EmailsKnown(Apply(s, cfg, c), cfg)
  {
    if c.Register? {
      RegisterIndexes(s, cfg, c);
    } else if c.SetStatus? {
      SetStatusIndexes(s, cfg, c);
    } else {
      var t := Apply(s, cfg, c);
      assert t.users == s.users && t.emails == s.emails;
      forall id | id in t.users
        ensures Indexed(t, cfg, id)
      {
        assert Indexed(s, cfg, id);
      }
    }
  }

  lemma UsersKept(s: State, cfg: Config, c: Call)
    requires Enabled(s, cfg, c)
    ensures UsersStay(s, Apply(s, cfg, c))
  {
  }

  lemma NewClaimsKnown(s: State, cfg: Config, c: Call)
    requires Enabled(s, cfg, c) && forall id :: id in s.users ==> s.users[id].id == id
    ensures var t := Apply(s, cfg, c);
      |t.log| > |s.log| && Issues(t.log[|s.log|]) ==> TellsUser(t, t.log[|s.log|].access)
  {
  }

  lemma ClaimsStayKnown(s: State, cfg: Config, c: Call)
    requires Sound(s, cfg) && Enabled(s, cfg, c)
    ensures ClaimsKnown(Apply(s, cfg, c))
  {
    var t := Apply(s, cfg, c);
    UsersKept(s, cfg, c);
    CallLogsHonestly(s, cfg, c);
    NewClaimsKnown(s, cfg, c);
    forall i | 0 <= i < |t.log| && Issues(t.log[i])
      ensures TellsUser(t, t.log[i].access)
    {
      if i < |s.log| { assert TellsUser(s, s.log[i].access); }
    }
  }

  lemma CallKeepsSound(s: State, cfg: Config, c: Call)
    requires Sound(s, cfg) && Enabled(s, cfg, c)
    ensures Sound(Apply(s, cfg, c), cfg)
  {
    var t := Apply(s, cfg, c);
    KeysKept(s, cfg, c);
    EmailsStayKnown(s, cfg, c);
    ClaimsStayKnown(s, cfg, c);
    CallLogsHonestly(s, cfg, c);
    if t.log != s.log {
      LogAppend(cfg, s.log, t.log[|s.log|], s.clock);
    }
    forall token
      ensures TokensTold(t, cfg, token)
    {
      assert TokensTold(s, cfg, token);
      TokenKept(s, cfg, c, token);
    }
    forall userId
      ensures UserTold(t, userId)
    {
      assert UserTold(s, userId);
      UserKept(s, cfg, c, userId);
    }
  }

  lemma {:induction false} RunKeepsSound(s: State, cfg: Config, calls: seq<Call>)
    requires Sound(s, cfg) && Runs(s, cfg, calls)
    ensures Sound(Run(s, cfg, calls), cfg)
    decreases calls
  {
    if calls == [] {
    } else {
      CallKeepsSound(s, cfg, calls[0]);
      RunKeepsSound(Apply(s, cfg, calls[0]), cfg, calls[1..]);
    }
  }

  // ---- Main results ----

  /**
   In every run: a refresh succeeds exactly when the store answers, its token came
   from a login, was not logged out since, the clock is before that login plus
   refreshTtl, and the user was last given the status active.
   */
  lemma RefreshSucceedsExactly(s: State, cfg: Config, calls: seq<Call>,
                               token: string, finds: bool, checkedAt: int, loads: bool, issuedAt: int)
    requires Initial(s) && Runs(s, cfg, calls)
    ensures var t := Run(s, cfg, calls);
      var session := OpenSession(t.log, cfg, token);
      RefreshCall(t, cfg, token, finds, checkedAt, loads, issuedAt).result.Ok? <==>
        && token != "" && finds && loads
        && session.Some? && checkedAt < session.value.start + cfg.refreshTtl
        && StatusIn(t.log, session.value.userId) == Some(ACTIVE)
  {
    RunKeepsSound(s, cfg, calls);
    var t := Run(s, cfg, calls);
    assert TokensTold(t, cfg, token);
    if cfg.key(token) in t.tokens {
      assert UserTold(t, t.tokens[cfg.key(token)].userId);
    }
  }

  /**
   In every reachable state with an open session of an active user: if a call takes
   at most delay between checking the refresh token and dating the access token,
   every refresh is dated before the session's limit, exactly when there is no
   delay or the limit has passed.
   */
  lemma DatedBeforeLimitExactly(s: State, cfg: Config, calls: seq<Call>, token: string, delay: nat)
    requires Initial(s) && Runs(s, cfg, calls) && token != ""
    requires var t := Run(s, cfg, calls); var session := OpenSession(t.log, cfg, token);
      session.Some? && StatusIn(t.log, session.value.userId) == Some(ACTIVE)
    ensures var t := Run(s, cfg, calls);
      var limit := OpenSession(t.log, cfg, token).value.start + cfg.refreshTtl;
      (forall checkedAt, issuedAt :: t.clock <= checkedAt <= issuedAt <= checkedAt + delay ==>
         RefreshCall(t, cfg, token, true, checkedAt, true, issuedAt).result.Ok? ==> issuedAt < limit)
      <==> delay == 0 || t.clock >= limit
  {
    var t := Run(s, cfg, calls);
    var limit := OpenSession(t.log, cfg, token).value.start + cfg.refreshTtl;
    forall checkedAt, issuedAt
      ensures RefreshCall(t, cfg, token, true, checkedAt, true, issuedAt).result.Ok? <==> checkedAt < limit
    {
      RefreshSucceedsExactly(s, cfg, calls, token, true, checkedAt, true, issuedAt);
    }
    if delay > 0 && t.clock < limit {
      assert RefreshCall(t, cfg, token, true, limit - 1, true, limit).result.Ok?;
    }
  }

  /**
   In every run: behind a refresh there is the login that returned its token, to
   the same user, with no logout in between, and the refresh token was checked
   before that login plus refreshTtl, however often it was refreshed.
   */
  lemma SessionNeverExtended(s: State, cfg: Config, calls: seq<Call>, i: nat)
    requires Initial(s) && Runs(s, cfg, calls)
    requires i < |Run(s, cfg, calls).log| && Run(s, cfg, calls).log[i].Refreshed?
    ensures var log := Run(s, cfg, calls).log;
      exists j :: 0 <= j < i && log[j].LoggedIn? && cfg.key(log[j].token) == cfg.key(log[i].token) &&
        log[i].checkedAt < log[j].start + cfg.refreshTtl &&
        log[j].access.sub == log[i].access.sub &&
        (forall k :: j < k < i ==> !(log[k].LoggedOut? && cfg.key(log[k].token) == cfg.key(log[i].token)))
  {
    RunKeepsSound(s, cfg, calls);
    var log := Run(s, cfg, calls).log;
    assert Honest(cfg, log[..i], log[i]);
    var j := LoginBehind(log[..i], cfg, log[i].token);
    assert log[..i][j] == log[j];
    forall k | j < k < i
      ensures !(log[k].LoggedOut? && cfg.key(log[k].token) == cfg.key(log[i].token))
    {
      assert log[..i][k] == log[k];
    }
  }

  lemma {:induction false} LoginBehind(log: seq<Event>, cfg: Config, token: string) returns (j: nat)
    requires OpenSession(log, cfg, token).Some?
    ensures j < |log| && log[j].LoggedIn? && cfg.key(log[j].token) == cfg.key(token)
    ensures OpenSession(log, cfg, token) == Some(Session(log[j].access.sub, log[j].start))
    ensures forall k :: j < k < |log| ==> !(log[k].LoggedOut? && cfg.key(log[k].token) == cfg.key(token))
  {
    var last := log[|log| - 1];
    if last.LoggedIn? && cfg.key(last.token) == cfg.key(token) {
      j := |log| - 1;
    } else {
      j := LoginBehind(log[..|log| - 1], cfg, token);
    }
  }

  /** Every refresh dates its access token at most delay after checking the refresh token. */
  predicate Prompt(log: seq<Event>, delay: nat) {
    forall i :: 0 <= i < |log| && log[i].Refreshed? ==> log[i].issuedAt <= log[i].checkedAt + delay
  }

  lemma LoginOf(cfg: Config, log: seq<Event>, i: nat) returns (j: nat)
    requires LogOk(cfg, log) && i < |log| && log[i].Refreshed?
    ensures j < i && log[j].LoggedIn? && cfg.key(log[j].token) == cfg.key(log[i].token)
    ensures log[i].checkedAt < log[j].start + cfg.refreshTtl
  {
    assert Honest(cfg, log[..i], log[i]);
    j := LoginBehind(log[..i], cfg, log[i].token);
    assert log[..i][j] == log[j];
  }

  /** Two logins never return the same token. */
  lemma LoginsApart(cfg: Config, log: seq<Event>, i: nat, j: nat)
    requires LogOk(cfg, log) && i < j < |log| && log[i].LoggedIn? && log[j].LoggedIn?
    ensures cfg.key(log[i].token) != cfg.key(log[j].token)
  {
    assert Honest(cfg, log[..j], log[j]);
    assert log[..j][i] == log[i];
  }

  /**
   In every run with at most delay between check and date: no access token of a
   session, log[j]'s, validates at or after its login plus refreshTtl plus delay
   plus accessTtl; the one its login returned, not after that login plus accessTtl.
   An expiry of 0 counts as none.
   */
  lemma SessionEndsAccess(s: State, cfg: Config, calls: seq<Call>, delay: nat, j: nat, i: nat, now: int)
    requires Initial(s) && Runs(s, cfg, calls) && Prompt(Run(s, cfg, calls).log, delay)
    requires var log := Run(s, cfg, calls).log;
      && j < |log| && log[j].LoggedIn? && i < |log| && Issues(log[i])
      && cfg.key(log[i].token) == cfg.key(log[j].token) && Unexpired(log[i].access, now)
    ensures var log := Run(s, cfg, calls).log;
      log[i].access.exp == 0 ||
      now < log[j].start + cfg.accessTtl + if log[i].LoggedIn? then 0 else cfg.refreshTtl + delay
  {
    RunKeepsSound(s, cfg, calls);
    var log := Run(s, cfg, calls).log;
    assert Honest(cfg, log[..i], log[i]);
    var login := i;
    if log[i].Refreshed? { login := LoginOf(cfg, log, i); }
    if login < j { LoginsApart(cfg, log, login, j); }
    if j < login { LoginsApart(cfg, log, j, login); }
  }

  lemma LastCall(s: State, cfg: Config, c: Call)
    requires Enabled(s, cfg, c)
    ensures Runs(s, cfg, [c]) && Run(s, cfg, [c]) == Apply(s, cfg, c)
  {
    assert [c][1..] == [];
    assert Runs(Apply(s, cfg, c), cfg, []) && Run(Apply(s, cfg, c), cfg, []) == Apply(s, cfg, c);
  }

  /** One nanosecond between the two readings is enough: checked in time, dated at the limit. */
  lemma CheckedInTimeIssuedAtLimit(s: State, cfg: Config) returns (calls: seq<Call>)
    requires Initial(s) && cfg.refreshTtl > 0
    ensures Runs(s, cfg, calls)
    ensures var log := Run(s, cfg, calls).log;
      |log| == 3 && log[1].LoggedIn? && log[2].Refreshed? && log[2].token == log[1].token &&
      log[2].checkedAt + 1 == log[1].start + cfg.refreshTtl == log[2].issuedAt
  {
    var now := s.clock;
    var register := Register(User("u", "t", "a", ACTIVE), true, true, now, true);
    var login := Login("a", "p", true, true, "r", now, now, true);
    var refresh := Refresh("r", true, now + cfg.refreshTtl - 1, true, now + cfg.refreshTtl);
    var a := Apply(s, cfg, register);
    assert Normal("a") == "a";
    var b := Apply(a, cfg, login);
    LastCall(b, cfg, refresh);
    assert [login, refresh][1..] == [refresh];
    assert Runs(a, cfg, [login, refresh]) && Run(a, cfg, [login, refresh]) == Apply(b, cfg, refresh);
    calls := [register, login, refresh];
    assert calls[1..] == [login, refresh];
  }

  // ---- What a login answers, and what its caller holds ----

  /** An active user holds the address. */
  ghost predicate ActiveAt(s: State, cfg: Config, email: string) {
    exists id :: Holds(s, cfg, id, email) && StatusIn(s.log, id) == Some("active")
  }

  ghost predicate HeldAt(s: State, cfg: Config, email: string) {
    exists id :: Holds(s, cfg, id, email)
  }

  /** In every reachable state an address has one user, the one lookups find. */
  lemma OneHolder(s: State, cfg: Config, email: string)
    requires EmailsKnown(s, cfg) && (forall u :: UserTold(s, u))
    requires forall id :: id in s.users ==> s.users[id].id == id
    ensures HeldAt(s, cfg, email) <==> UserAt(s, cfg, email).Some?
    ensures ActiveAt(s, cfg, email) <==> UserAt(s, cfg, email).Some? && UserAt(s, cfg, email).value.IsActive()
    ensures UserAt(s, cfg, email).Some? ==> Holds(s, cfg, UserAt(s, cfg, email).value.id, email)
  {
    if id :| Holds(s, cfg, id, email) { assert Indexed(s, cfg, id); }
    forall id | Holds(s, cfg, id, email)
      ensures UserAt(s, cfg, email) == Some(s.users[id]) && StatusIn(s.log, id) == Some(s.users[id].status)
    {
      assert Indexed(s, cfg, id) && UserTold(s, id);
    }
    var found := UserAt(s, cfg, email);
    if found.Some? {
      assert Holds(s, cfg, s.emails[cfg.key(email)], email);
    }
  }

  /**
   In every run: a login succeeds exactly when address and password are given, the
   lookup answers, the password matches, the store takes the session, and a user of
   that address was last given the status active; and each refusal has its reason.
   */
  lemma LoginSucceedsExactly(s: State, cfg: Config, calls: seq<Call>, email: string, password: string,
                             finds: bool, matches: bool, token: string, issuedAt: int, start: int, stores: bool)
    requires Initial(s) && Runs(s, cfg, calls)
    ensures var t := Run(s, cfg, calls);
      var r := LoginCall(t, cfg, email, password, finds, matches, token, issuedAt, start, stores).result;
      var given := email != "" && password != "";
      var passes := finds && matches && HeldAt(t, cfg, Normal(email));
      && (r.Ok? <==> given && finds && matches && stores && ActiveAt(t, cfg, Normal(email)))
      && (r == Err(InvalidInput) <==> !given)
      && (r == Err(InvalidCredentials) <==> given && !passes)
      && (r == Err(UserInactive) <==> given && passes && !ActiveAt(t, cfg, Normal(email)))
      && (r == Err(StoreFailed) <==> given && passes && ActiveAt(t, cfg, Normal(email)) && !stores)
  {
    RunKeepsSound(s, cfg, calls);
    OneHolder(Run(s, cfg, calls), cfg, Normal(email));
  }

  /** The claims of a token issued to a user: whose it is, and when it expires. */
  predicate ClaimsOf(a: Access, u: User, cfg: Config, issuedAt: int) {
    && a.sub == u.id && a.tid == u.tenantId && a.email == u.email
    && a.exp == (issuedAt + cfg.accessTtl) / 1_000_000_000
  }

  /**
   In every run: a login that succeeds returns the access token it logs, made out to
   the user who holds the address, and stores one open session of that user; one
   that fails leaves tokens, users and log alone.
   */
  lemma LoginReturnsWhatItLogs(s: State, cfg: Config, calls: seq<Call>, email: string, password: string,
                               finds: bool, matches: bool, token: string, issuedAt: int, start: int, stores: bool)
    requires Initial(s) && Runs(s, cfg, calls)
    ensures var t := Run(s, cfg, calls);
      var reply := LoginCall(t, cfg, email, password, finds, matches, token, issuedAt, start, stores);
      if reply.result.Ok? then
        var a := reply.result.value;
        && Holds(t, cfg, a.sub, Normal(email)) && ClaimsOf(a, t.users[a.sub], cfg, issuedAt)
        && reply.state.log == t.log + [LoggedIn(token, a, issuedAt, start)]
        && reply.state.tokens == t.tokens[cfg.key(token) := RefreshToken(a.sub, start + cfg.refreshTtl, false)]
        && reply.state.users == t.users
      else LeavesAll(t, reply.state)
  {
    RunKeepsSound(s, cfg, calls);
    OneHolder(Run(s, cfg, calls), cfg, Normal(email));
  }

  // ---- What a refresh answers, and what its caller holds ----

  /** Each refusal of a refresh has its reason, in the order of the checks. */
  lemma RefreshRefusals(s: State, cfg: Config, token: string, finds: bool, checkedAt: int, loads: bool, issuedAt: int)
    ensures var r := RefreshCall(s, cfg, token, finds, checkedAt, loads, issuedAt).result;
      if token == "" then r == Err(InvalidInput)
      else if !finds || cfg.key(token) !in s.tokens then r == Err(TokenInvalid)
      else
        var stored := s.tokens[cfg.key(token)];
        if stored.revoked then r == Err(TokenRevoked)
        else if checkedAt >= stored.expiresAt then r == Err(TokenExpired)
        else if !loads || stored.userId !in s.users then r == Err(UserNotFound)
        else if s.users[stored.userId].status != "active" then r == Err(UserInactive) else r.Ok?
  {
  }

  /**
   In every run: a refresh that succeeds returns the access token it logs, made out
   to the user of the session; tokens and users stay as they were in any case.
   */
  lemma RefreshReturnsWhatItLogs(s: State, cfg: Config, calls: seq<Call>,
                                 token: string, finds: bool, checkedAt: int, loads: bool, issuedAt: int)
    requires Initial(s) && Runs(s, cfg, calls)
    ensures var t := Run(s, cfg, calls);
      var reply := RefreshCall(t, cfg, token, finds, checkedAt, loads, issuedAt);
      && reply.state.tokens == t.tokens && reply.state.users == t.users
      && if reply.result.Ok? then
           var a, session := reply.result.value, OpenSession(t.log, cfg, token);
           && session.Some? && session.value.userId in t.users
           && ClaimsOf(a, t.users[session.value.userId], cfg, issuedAt) && a.sub == session.value.userId
           && reply.state.log == t.log + [Refreshed(token, a, checkedAt, issuedAt)]
         else reply.state.log == t.log
  {
    RunKeepsSound(s, cfg, calls);
    assert TokensTold(Run(s, cfg, calls), cfg, token);
  }

  /** In every run: tenant and address in every access token ever issued are those of its user. */
  lemma TokensTellTheirUser(s: State, cfg: Config, calls: seq<Call>, i: nat)
    requires Initial(s) && Runs(s, cfg, calls)
    requires i < |Run(s, cfg, calls).log| && Issues(Run(s, cfg, calls).log[i])
    ensures var t := Run(s, cfg, calls); var a := t.log[i].access;
      a.sub in t.users && a.tid == t.users[a.sub].tenantId && a.email == t.users[a.sub].email
  {
    RunKeepsSound(s, cfg, calls);
  }

  // ---- Logouts, status changes and registrations ----

  /** A logout revokes the one token and no other, whoever holds it. */
  lemma LogoutDoes(s: State, cfg: Config, token: string, stores: bool)
    ensures var reply := LogoutCall(s, cfg, token, stores); var t := reply.state;
      && reply.result == (if token == "" then Err(InvalidInput) else if !stores then Err(StoreFailed) else Ok(()))
      && t.users == s.users && t.emails == s.emails && t.tokens.Keys == s.tokens.Keys
      && (reply.result.Err? ==> t == s)
      && (reply.result.Ok? ==> t.log == s.log + [LoggedOut(token, s.clock)])
      && forall k :: k in t.tokens ==>
           t.tokens[k].userId == s.tokens[k].userId && t.tokens[k].expiresAt == s.tokens[k].expiresAt &&
           (t.tokens[k].revoked <==> s.tokens[k].revoked || (reply.result.Ok? && k == cfg.key(token)))
  {
  }

  /** A status change sets the one user's status, to one of the three. */
  lemma StatusChangeDoes(s: State, userId: string, status: string, finds: bool, now: int, saves: bool)
    ensures var reply := StatusCall(s, userId, status, finds, now, saves); var t := reply.state;
      && reply.result == (
        if !finds then Err(StoreFailed) else if userId !in s.users then Err(UserNotFound)
        else if status != "active" && status != "inactive" && status != "suspended" then Err(InvalidInput)
        else if !saves then Err(StoreFailed) else Ok(()))
      && t.tokens == s.tokens && t.emails == s.emails && t.users.Keys == s.users.Keys
      && t.log == s.log + (if reply.result.Ok? then [StatusSet(userId, status, now)] else [])
      && forall id :: id in t.users ==>
           && t.users[id].id == s.users[id].id && t.users[id].tenantId == s.users[id].tenantId
           && t.users[id].email == s.users[id].email
           && t.users[id].status == if id == userId && reply.result.Ok? then status else s.users[id].status
  {
  }

  /**
   In every run: a registration succeeds exactly when everything is given, the check
   does not find the address in the tenant, no user holds the stored address, and
   the store takes it; the new user is active, under the trimmed lower-case address.
   */
  lemma RegisterSucceedsExactly(s: State, cfg: Config, calls: seq<Call>, u: User, filled: bool, checks: bool,
                                now: int, stores: bool)
    requires Initial(s) && Runs(s, cfg, calls)
    ensures var t := Run(s, cfg, calls);
      var reply := RegisterCall(t, cfg, u, filled, checks, now, stores);
      var known := exists id :: Holds(t, cfg, id, u.email) && cfg.key(t.users[id].tenantId) == cfg.key(u.tenantId);
      var given := filled && u.email != "" && u.tenantId != "";
      && (reply.result.Ok? <==> given && !(checks && known) && stores && !HeldAt(t, cfg, Normal(u.email)))
      && (reply.result == Err(InvalidInput) <==> !given)
      && (reply.result == Err(UserExists) <==> given && checks && known)
      && (reply.result.Err? ==> LeavesAll(t, reply.state))
      && (reply.result.Ok? ==>
            && reply.result.value == User(u.id, u.tenantId, Normal(u.email), "active")
            && reply.state.users == t.users[u.id := reply.result.value] && reply.state.tokens == t.tokens
            && reply.state.log == t.log + [Registered(u.id, now)])
  {
    RunKeepsSound(s, cfg, calls);
    var t := Run(s, cfg, calls);
    OneHolder(t, cfg, Normal(u.email));
    OneHolder(t, cfg, u.email);
    if id :| Holds(t, cfg, id, u.email) { assert Indexed(t, cfg, id); }
    forall id | Holds(t, cfg, id, u.email)
      ensures UserAt(t, cfg, u.email) == Some(t.users[id])
    {
      assert Indexed(t, cfg, id);
    }
    if HeldAt(t, cfg, Normal(u.email)) {
      var id :| Holds(t, cfg, id, Normal(u.email));
      assert Indexed(t, cfg, id);
    }
  }

  // ---- Registering a taken address ----

  /**
   In every run: an address that a user holds is never registered again. The check
   refuses it exactly when its lookup answers and a user of the same tenant holds
   the address as typed; otherwise only the unique index does.
   */
  lemma TakenAddressRefused(s: State, cfg: Config, calls: seq<Call>, u: User, checks: bool, now: int, stores: bool)
    requires Initial(s) && Runs(s, cfg, calls) && u.tenantId != "" && u.email != ""
    requires exists id :: Holds(Run(s, cfg, calls), cfg, id, Normal(u.email))
    ensures var t := Run(s, cfg, calls);
      var result := RegisterCall(t, cfg, u, true, checks, now, stores).result;
      var sameTenant := exists id ::
        Holds(t, cfg, id, u.email) && cfg.key(t.users[id].tenantId) == cfg.key(u.tenantId);
      result == Err(if checks && sameTenant then UserExists else StoreFailed)
  {
    RunKeepsSound(s, cfg, calls);
    var t := Run(s, cfg, calls);
    var holder :| Holds(t, cfg, holder, Normal(u.email));
    assert Indexed(t, cfg, holder);
    if id :| Holds(t, cfg, id, u.email) {
      assert Indexed(t, cfg, id) && UserAt(t, cfg, u.email) == Some(t.users[id]);
    } else if UserAt(t, cfg, u.email).Some? {
      assert Holds(t, cfg, t.emails[cfg.key(u.email)], u.email);
    }
  }

  // ---- Access tokens ----

  /** A token is good before its expiry (section 4.1.4 of RFC 7519); the token library takes 0 for none. */
  predicate Unexpired(a: Access, now: int) {
    a.exp == 0 || now < a.exp * SECOND
  }

  /** ValidateToken: only claims the service signed verify, and only unexpired. */
  predicate Validates(log: seq<Event>, a: Access, now: int) {
    (exists i :: 0 <= i < |log| && Issues(log[i]) && log[i].access == a) && Unexpired(a, now)
  }

  /** An expiry is 0 only for a token dated to expire in the first second of 1970. */
  lemma NoExpiryExactly(cfg: Config, u: User, issuedAt: int)
    ensures Claims(cfg, u, issuedAt).exp == 0 <==> 0 <= issuedAt + cfg.accessTtl < SECOND
  {
  }

  /** Event k takes the user's active status away and no later event gives it back. */
  predicate DeactivatedAt(log: seq<Event>, userId: string, k: int) {
    && 0 <= k < |log| && log[k].StatusSet? && log[k].userId == userId && log[k].status != ACTIVE
    && forall j :: k < j < |log| ==> !(log[j].StatusSet? && log[j].userId == userId && log[j].status == ACTIVE)
  }

  /** A user registers once. */
  ghost predicate RegisteredOnce(log: seq<Event>) {
    forall i :: 0 <= i < |log| && log[i].Registered? ==> StatusIn(log[..i], log[i].userId) == None
  }

  lemma {:induction false} StaysInactive(log: seq<Event>, userId: string, k: int)
    requires RegisteredOnce(log) && DeactivatedAt(log, userId, k)
    ensures StatusIn(log, userId).Some? && StatusIn(log, userId) != Some(ACTIVE)
  {
    if k == |log| - 1 {
    } else {
      var init := log[..|log| - 1];
      RegisteredOncePrefix(log, |log| - 1);
      assert DeactivatedAt(init, userId, k);
      StaysInactive(init, userId, k);
    }
  }

  lemma RegisteredOncePrefix(log: seq<Event>, n: nat)
    requires RegisteredOnce(log) && n <= |log|
    ensures RegisteredOnce(log[..n])
  {
    forall i | 0 <= i < n && log[i].Registered?
      ensures StatusIn(log[..n][..i], log[i].userId) == None
    {
      assert log[..n][..i] == log[..i];
    }
  }

  lemma HonestRegistersOnce(cfg: Config, log: seq<Event>)
    requires LogOk(cfg, log)
    ensures RegisteredOnce(log)
  {
    forall i | 0 <= i < |log| && log[i].Registered?
      ensures StatusIn(log[..i], log[i].userId) == None
    {
      assert Honest(cfg, log[..i], log[i]);
    }
  }

  /**
   In every run: once a user is set to another status than active, and not back,
   no access token of that user validates at or after that moment plus accessTtl,
   whichever login or refresh it came from, unless its expiry is 0.
   */
  lemma DeactivationEndsAccess(s: State, cfg: Config, calls: seq<Call>, userId: string, k: int, a: Access, now: int)
    requires Initial(s) && Runs(s, cfg, calls)
    requires DeactivatedAt(Run(s, cfg, calls).log, userId, k)
    requires a.sub == userId && Validates(Run(s, cfg, calls).log, a, now)
    ensures a.exp == 0 || now < Run(s, cfg, calls).log[k].at + cfg.accessTtl
  {
    RunKeepsSound(s, cfg, calls);
    var log := Run(s, cfg, calls).log;
    var i :| 0 <= i < |log| && Issues(log[i]) && log[i].access == a;
    assert Honest(cfg, log[..i], log[i]);
    HonestRegistersOnce(cfg, log);
    if i > k {
      assert DeactivatedAt(log[..i], userId, k);
      RegisteredOncePrefix(log, i);
      StaysInactive(log[..i], userId, k);
    } else {
      assert i < k && TimeOf(log[i]) <= TimeOf(log[k]);
    }
  }

  /** What the API gateway's authorizer asks of a signed token's expiry; 0 counts as no expiry. */
  predicate GatewayAccepts(a: Access, now: int) {
    a.exp == 0 || a.exp >= now / SECOND
  }

  /** The gateway accepts each token one second longer than the service. */
  lemma GatewayGraceSecond(a: Access, now: int)
    requires a.exp != 0
    ensures GatewayAccepts(a, now) <==> now < a.exp * SECOND + SECOND
  {
  }

  /**
   In every run: once a user is deactivated for good, the gateway too refuses every
   access token issued to that user, a second after the service, unless its expiry
   is 0, which both take for none.
   */
  lemma DeactivationEndsGatewayAccess(s: State, cfg: Config, calls: seq<Call>, userId: string, k: int, i: nat, now: int)
    requires Initial(s) && Runs(s, cfg, calls) && DeactivatedAt(Run(s, cfg, calls).log, userId, k)
    requires var log := Run(s, cfg, calls).log;
      i < |log| && Issues(log[i]) && log[i].access.sub == userId && GatewayAccepts(log[i].access, now)
    ensures var log := Run(s, cfg, calls).log;
      log[i].access.exp == 0 || now < log[k].at + cfg.accessTtl + SECOND
  {
    var a := Run(s, cfg, calls).log[i].access;
    if a.exp != 0 {
      GatewayGraceSecond(a, now);
      DeactivationEndsAccess(s, cfg, calls, userId, k, a, a.exp * SECOND - 1);
    }
  }
}
