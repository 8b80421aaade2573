/**
 The auth service over its stores. Every method is proved to do what its call
 does in Sessions, so the results about runs hold of the service. The password
 check, the drawn ids, the clock and the answers of the stores are parameters.
 */
module AuthService {
  import opened Prelude
  import opened Sessions

  class Service {
    const cfg: Config
    var users: map<string, User>
    var emails: map<string, string>
    var tokens: map<string, RefreshToken>
    ghost var clock: int
    ghost var log: seq<Event>

    ghost function View(): State
      reads this
    {
      State(clock, users, emails, tokens, log)
    }

    ghost predicate Valid()
      reads this
    {
      Sound(View(), cfg)
    }

    constructor (cfg: Config)
      ensures Valid() && Initial(View()) && this.cfg == cfg
    {
      this.cfg := cfg;
      users, emails, tokens := map[], map[], map[];
      clock, log := 0, [];
    }

    method FindByEmail(email: string, finds: bool) returns (u: Option<User>)
      ensures u == if finds then UserAt(View(), cfg, email) else None
    {
      u := None;
      if finds && cfg.key(email) in emails && emails[cfg.key(email)] in users {
        u := Some(users[emails[cfg.key(email)]]);
      }
    }

    /** The existence check of a registration. */
    method FindByTenantAndEmail(user: User, checks: bool) returns (found: bool)
      ensures found <==> checks && Exists(View(), cfg, user)
    {
      var existing := FindByEmail(user.email, checks);
      found := existing.Some? && cfg.key(existing.value.tenantId) == cfg.key(user.tenantId);
    }

    method Register(user: User, filled: bool, checks: bool, now: int, stores: bool) returns (r: Result<User, Error>)
      requires Valid() && now >= clock && user.id !in users
      modifies this
      ensures Valid() && Reply(View(), r) == RegisterCall(old(View()), cfg, user, filled, checks, now, stores)
      ensures tokens == old(tokens) && (r.Err? ==> users == old(users) && emails == old(emails))
      ensures r.Ok? ==> cfg.key(r.value.email) !in old(emails) && r.value.IsActive()
    {
      CallKeepsSound(View(), cfg, Call.Register(user, filled, checks, now, stores));
      if !filled || user.email == "" {
        return Err(InvalidInput);
      }
      if user.tenantId == "" {
        return Err(InvalidInput);
      }
      var existing := FindByTenantAndEmail(user, checks);
      if existing {
        return Err(UserExists);
      }
      var stored := user.(email := Normal(user.email), status := ACTIVE);
      var created := CreateUser(stored, now, stores);
      if !created {
        return Err(StoreFailed);
      }
      return Ok(stored);
    }

    /** Create of the user repository; the unique index on addresses may refuse. */
    method CreateUser(user: User, now: int, stores: bool) returns (created: bool)
      modifies this`users, this`emails, this`clock, this`log
      ensures created <==> stores && cfg.key(user.email) !in old(emails)
      ensures clock == now
      ensures users == if created then old(users)[user.id := user] else old(users)
      ensures emails == if created then old(emails)[cfg.key(user.email) := user.id] else old(emails)
      ensures log == if created then old(log) + [Registered(user.id, now)] else old(log)
    {
      clock := now;
      created := stores && cfg.key(user.email) !in emails;
      if created {
        users := users[user.id := user];
        emails := emails[cfg.key(user.email) := user.id];
        log := log + [Registered(user.id, now)];
      }
    }

    /** The checks of a login, before it writes anything. */
    method CheckCredentials(email: string, password: string, finds: bool, matches: bool)
      returns (r: Result<User, Error>)
      ensures r == LoginUser(View(), cfg, email, password, finds, matches)
      ensures r.Ok? ==> r.value.IsActive() && UserAt(View(), cfg, Normal(email)) == Some(r.value)
    {
      if email == "" || password == "" {
        return Err(InvalidInput);
      }
      var user := FindByEmail(Normal(email), finds);
      if user.None? || !matches {
        return Err(InvalidCredentials);
      }
      if !user.value.IsActive() {
        return Err(UserInactive);
      }
      return Ok(user.value);
    }

    method Login(email: string, password: string, finds: bool, matches: bool,
                 token: string, issuedAt: int, start: int, stores: bool)
      returns (r: Result<Access, Error>)
      requires Valid() && clock <= issuedAt <= start && cfg.key(token) !in tokens
      modifies this
      ensures Valid()
      ensures Reply(View(), r) ==
        LoginCall(old(View()), cfg, email, password, finds, matches, token, issuedAt, start, stores)
      ensures users == old(users) && (r.Err? ==> tokens == old(tokens))
      ensures r.Ok? ==> old(tokens).Keys + {cfg.key(token)} == tokens.Keys
      ensures r.Ok? ==> email != "" && password != "" && finds && matches && stores
      ensures r.Ok? ==> Holds(View(), cfg, r.value.sub, Normal(email)) && users[r.value.sub].status == "active"
      ensures r.Ok? ==> ClaimsOf(r.value, users[r.value.sub], cfg, issuedAt)
      ensures log == old(log) + (if r.Ok? then [LoggedIn(token, r.value, issuedAt, start)] else [])
    {
      CallKeepsSound(View(), cfg, Call.Login(email, password, finds, matches, token, issuedAt, start, stores));
      var checked := CheckCredentials(email, password, finds, matches);
      if checked.Err? {
        return Err(checked.error);
      }
      var user := checked.value;
      var accessToken := Claims(cfg, user, issuedAt);
      var stored := CreateToken(user, token, accessToken, issuedAt, start, stores);
      if !stored {
        return Err(StoreFailed);
      }
      return Ok(accessToken);
    }

    /** Create of the token repository. */
    method CreateToken(user: User, token: string, access: Access, issuedAt: int, start: int, stores: bool)
      returns (stored: bool)
      modifies this`tokens, this`clock, this`log
      ensures stored == stores
      ensures View() ==
        if stores then StoreSession(old(View()), cfg, user, token, access, issuedAt, start)
        else old(View()).(clock := start)
    {
      clock := start;
      stored := stores;
      if stores {
        tokens := tokens[cfg.key(token) := RefreshToken(user.id, start + cfg.refreshTtl, false)];
        log := log + [LoggedIn(token, access, issuedAt, start)];
      }
    }

    method RefreshAccess(token: string, finds: bool, checkedAt: int, loads: bool, issuedAt: int)
      returns (r: Result<Access, Error>)
      requires Valid() && clock <= checkedAt <= issuedAt
      modifies this
      ensures Valid() && Reply(View(), r) == RefreshCall(old(View()), cfg, token, finds, checkedAt, loads, issuedAt)
      ensures tokens == old(tokens) && users == old(users)
      ensures r.Ok? ==>
        && cfg.key(token) in tokens && tokens[cfg.key(token)].userId in users
        && var u := users[tokens[cfg.key(token)].userId];
           u.status == "active" && ClaimsOf(r.value, u, cfg, issuedAt)
      ensures log == old(log) + (if r.Ok? then [Refreshed(token, r.value, checkedAt, issuedAt)] else [])
    {
      CallKeepsSound(View(), cfg, Call.Refresh(token, finds, checkedAt, loads, issuedAt));
      if token == "" {
        return Err(InvalidInput);
      }
      if !finds || cfg.key(token) !in tokens {
        return Err(TokenInvalid);
      }
      var stored := tokens[cfg.key(token)];
      clock := checkedAt;
      if !stored.IsValid(checkedAt) {
        if stored.revoked {
          return Err(TokenRevoked);
        }
        return Err(TokenExpired);
      }
      if !loads || stored.userId !in users {
        return Err(UserNotFound);
      }
      var user := users[stored.userId];
      if !user.IsActive() {
        return Err(UserInactive);
      }
      var accessToken := Claims(cfg, user, issuedAt);
      clock := issuedAt;
      log := log + [Refreshed(token, accessToken, checkedAt, issuedAt)];
      return Ok(accessToken);
    }

    method Logout(token: string, stores: bool) returns (r: Result<(), Error>)
      requires Valid()
      modifies this
      ensures Valid() && Reply(View(), r) == LogoutCall(old(View()), cfg, token, stores)
      ensures r.Ok? ==> cfg.key(token) in tokens ==> tokens[cfg.key(token)].revoked
      ensures tokens.Keys == old(tokens).Keys
      ensures forall k :: k in tokens && k != cfg.key(token) ==> tokens[k] == old(tokens)[k]
    {
      CallKeepsSound(View(), cfg, Call.Logout(token, stores));
      if token == "" {
        return Err(InvalidInput);
      }
      if !stores {
        return Err(StoreFailed);
      }
      var k := cfg.key(token);
      if k in tokens {
        tokens := tokens[k := tokens[k].(revoked := true)];
      }
      log := log + [LoggedOut(token, clock)];
      return Ok(());
    }

    method UpdateUserStatus(userId: string, status: string, finds: bool, now: int, saves: bool)
      returns (r: Result<(), Error>)
      requires Valid() && now >= clock
      modifies this
      ensures Valid() && Reply(View(), r) == StatusCall(old(View()), userId, status, finds, now, saves)
      ensures r.Ok? ==> status in {ACTIVE, INACTIVE, SUSPENDED} && userId in users && users[userId].status == status
      ensures tokens == old(tokens) && (r.Err? ==> users == old(users))
    {
      CallKeepsSound(View(), cfg, Call.SetStatus(userId, status, finds, now, saves));
      if !finds {
        return Err(StoreFailed);
      }
      if userId !in users {
        return Err(UserNotFound);
      }
      var user := users[userId];
      if status == "active" {
        user := user.(status := ACTIVE);
      } else if status == "inactive" {
        user := user.(status := INACTIVE);
      } else if status == "suspended" {
        user := user.(status := SUSPENDED);
      } else {
        return Err(InvalidInput);
      }
      clock := now;
      if !saves {
        return Err(StoreFailed);
      }
      users := users[userId := user];
      log := log + [StatusSet(userId, status, now)];
      return Ok(());
    }
  }
}
