/**
  The OAuth login flow over the repository, one call at a time. The provider's answers and random tokens are
  parameters.
  */
module LoginFlow {
  import opened Text
  import opened Accounts
  import opened AuthRepo
  import opened Sessions

  const OAUTH_STATE_TTL: real := 600.0

  datatype Error = StateMismatch | Denied | ProviderUnavailable | NoEmail
  datatype LoginResult = Ok(session: Token) | Refused(error: Error) | Threw

  /** The query and the cookie of a callback; "" is absent. */
  datatype Callback = Callback(code: string, state: string, cookie: string, error: string)

  datatype Identity = Identity(userId: string, profile: Profile)
  /** Code exchange and identity fetch. */
  datatype Exchange = Identified(identity: Identity) | ProviderFails | ExchangeThrows

  function Name(p: Provider): string { if p.Github? then "github" else "google" }

  function LoginInput(p: Provider, i: Identity): Input { Input((Name(p), i.userId), i.profile) }

  /** The checks before the state is consumed. */
  function Gate(c: Callback): Option<Error> {
    if c.error != "" || c.code == "" then Some(Denied)
    else if c.state == "" || c.cookie == "" || c.state != c.cookie then Some(StateMismatch)
    else None
  }

  /** What a login needs before the provider is asked. */
  predicate Arrives(c: Callback, provider: Provider, states: map<Token, OAuthState>, now: real) {
    Gate(c).None? && c.state in states && states[c.state].expires > now && states[c.state].provider == provider
  }

  // ---------------------------------------------------------------- one login

  class AuthFlow {
    const repo: PgAuthRepository

    constructor (repo: PgAuthRepository)
      ensures this.repo == repo
    {
      this.repo := repo;
    }

    method BeginAuth(provider: Provider, verifier: string, nonce: string, state: Token, now: real) returns (cookie: Token)
      requires repo.Valid() && state !in repo.states
      modifies repo`states
      ensures repo.Valid() && cookie == state
      ensures repo.states == old(repo.states)[state := OAuthState(provider, verifier, nonce, now + 600.0)]
    {
      repo.CreateOAuthState(provider, verifier, nonce, OAUTH_STATE_TTL, state, now);
      cookie := state;
    }

    /** A callback that passes the gate burns its live state, whatever happens then; a session is minted, for the
        user of the identity, exactly when every check passes. */
    method CompleteAuth(provider: Provider, c: Callback, exchange: Exchange, onLogin: bool, newId: UserId, token: Token, now: real)
      returns (result: LoginResult)
      requires repo.Valid() && newId !in repo.db.users && token !in repo.sessions
      modifies repo
      ensures repo.Valid()
      ensures repo.states ==
              if c.error == "" && c.code != "" && c.state != "" && c.state == c.cookie
                 && c.state in old(repo.states) && old(repo.states)[c.state].expires > now
              then old(repo.states) - {c.state} else old(repo.states)
      ensures result == Refused(Denied) <==> c.error != "" || c.code == ""
      ensures result == Refused(StateMismatch) <==> c.error == "" && c.code != "" && !Arrives(c, provider, old(repo.states), now)
      ensures Arrives(c, provider, old(repo.states), now) <==>
                && c.error == "" && c.code != "" && c.state != "" && c.state == c.cookie
                && c.state in old(repo.states) && old(repo.states)[c.state].provider == provider
                && old(repo.states)[c.state].expires > now
      ensures result == Refused(NoEmail) <==>
                && Arrives(c, provider, old(repo.states), now) && exchange.Identified?
                && (exchange.identity.profile.email == "" || !exchange.identity.profile.emailVerified)
      ensures result.Ok? <==>
                && Arrives(c, provider, old(repo.states), now) && exchange.Identified?
                && exchange.identity.profile.email != "" && exchange.identity.profile.emailVerified
                && !Foreign(old(repo.db), LoginInput(provider, exchange.identity)) && onLogin
      ensures result == Refused(ProviderUnavailable) <==>
                && Arrives(c, provider, old(repo.states), now)
                && (exchange.ProviderFails?
                    || (exchange.Identified? && exchange.identity.profile.email != "" && exchange.identity.profile.emailVerified
                        && !Foreign(old(repo.db), LoginInput(provider, exchange.identity)) && !onLogin))
      ensures result.Threw? <==>
                && Arrives(c, provider, old(repo.states), now)
                && (exchange.ExchangeThrows?
                    || (exchange.Identified? && exchange.identity.profile.email != "" && exchange.identity.profile.emailVerified
                        && Foreign(old(repo.db), LoginInput(provider, exchange.identity))))
      ensures result == Refused(Denied) || result == Refused(StateMismatch) || result == Refused(NoEmail) || result.Threw? ==>
                repo.db == old(repo.db)
      ensures result.Ok? ==>
                && var account := (if provider.Github? then "github" else "google", exchange.identity.userId);
                && account in repo.db.identities && var user := repo.db.identities[account];
                && user in repo.db.users && repo.db.users[user] == exchange.identity.profile
                && result.session == token
                && repo.sessions == old(repo.sessions)[token := Session(user, now, now + 604800.0, now)]
      ensures !result.Ok? ==> repo.sessions == old(repo.sessions)
    {
      hide OneIdentityEach, Anchored, EmailsUnique, EmailKey, Upsert, Foreign, Lower;
      if c.error != "" || c.code == "" {
        return Refused(Denied);
      }
      if c.state == "" || c.cookie == "" || c.state != c.cookie {
        return Refused(StateMismatch);
      }
      var row := repo.ConsumeOAuthState(c.state, now);
      if row.None? || row.value.provider != provider {
        return Refused(StateMismatch);
      }
      if exchange.ProviderFails? {
        return Refused(ProviderUnavailable);
      }
      if exchange.ExchangeThrows? {
        return Threw;
      }
      if exchange.identity.profile.email == "" || !exchange.identity.profile.emailVerified {
        return Refused(NoEmail);
      }
      ghost var before := repo.db;
      var input := LoginInput(provider, exchange.identity);
      UpsertKeeps(repo.db, input, newId);
      UpsertWrites(repo.db, input, newId);
      var r := repo.UpsertUserFromProvider(input, newId);
      if !r.Returned? {
        return Threw;
      }
      if !onLogin {
        return Refused(ProviderUnavailable);
      }
      assert IsIdentity(repo.db, input.account, r.user);
      var ok := repo.CreateSession(r.user, SESSION_TTL, token, now);
      result := Ok(token);
    }
  }
}
