/**
 Accounts, sessions and recovery tokens (backend/app/identity/service.py over the in-process stores
 of backend/app/identity/store.py). Operations run one after another and read one clock each.
 Hashes are injective and nothing more is assumed of them; identifiers and raw tokens come from
 the caller and are new.
 */
module Identity {
  import opened Common

  type Id = nat

  datatype Purpose = PasswordReset | EmailVerification | EmailChange
  datatype PasswordHash = PasswordHash(password: string)
  datatype TokenHash = TokenHash(raw: string)

  datatype User = User(
    email: string, passwordHash: PasswordHash, isActive: bool, emailVerified: bool, pendingEmail: Option<string>, lastLoginAt: Option<int>)

  datatype Session = Session(
    userId: Id, tokenHash: TokenHash, createdAt: int, expiresAt: int, lastSeenAt: int, revokedAt: Option<int>)

  datatype Token = Token(
    userId: Id, tokenHash: TokenHash, purpose: Purpose, expiresAt: int, usedAt: Option<int>, revokedAt: Option<int>)

  datatype Config = Config(idleTtl: int, absoluteTtl: int, resetTtl: int, verificationTtl: int, normalize: string -> string)

  datatype Error =
    | EmailAlreadyRegistered | WeakPassword | InvalidCredentials | AccountDisabled | SessionInvalid | TokenInvalid | SameEmail

  const MIN_PASSWORD_LENGTH: nat := 8

  datatype State = State(users: map<Id, User>, sessions: map<Id, Session>, tokens: map<Id, Token>)

  // ---- the stores ----

  ghost function FindByEmail(users: map<Id, User>, email: string): (found: Option<Id>)
    ensures found.Some? ==> found.value in users && users[found.value].email == email
    ensures found.None? ==> forall id :: id in users ==> users[id].email != email
  {
    if exists id :: id in users && users[id].email == email
    then var id :| id in users && users[id].email == email; Some(id)
    else None
  }

  ghost function FindSession(sessions: map<Id, Session>, hash: TokenHash): (found: Option<Id>)
    ensures found.Some? ==> found.value in sessions && sessions[found.value].tokenHash == hash
    ensures found.None? ==> forall id :: id in sessions ==> sessions[id].tokenHash != hash
  {
    if exists id :: id in sessions && sessions[id].tokenHash == hash
    then var id :| id in sessions && sessions[id].tokenHash == hash; Some(id)
    else None
  }

  ghost function FindToken(tokens: map<Id, Token>, hash: TokenHash, purpose: Purpose): (found: Option<Id>)
    ensures found.Some? ==> found.value in tokens && tokens[found.value].tokenHash == hash && tokens[found.value].purpose == purpose
    ensures found.None? ==> forall id :: id in tokens ==> !(tokens[id].tokenHash == hash && tokens[id].purpose == purpose)
  {
    if exists id :: id in tokens && tokens[id].tokenHash == hash && tokens[id].purpose == purpose
    then var id :| id in tokens && tokens[id].tokenHash == hash && tokens[id].purpose == purpose; Some(id)
    else None
  }

  predicate DistinctEmails(users: map<Id, User>)
  {
    forall i, j :: i in users && j in users && users[i].email == users[j].email ==> i == j
  }

  predicate DistinctSessions(sessions: map<Id, Session>)
  {
    forall i, j :: i in sessions && j in sessions && sessions[i].tokenHash == sessions[j].tokenHash ==> i == j
  }

  predicate DistinctTokens(tokens: map<Id, Token>)
  {
    forall i, j :: i in tokens && j in tokens && tokens[i].tokenHash == tokens[j].tokenHash ==> i == j
  }

  function WithPassword(users: map<Id, User>, id: Id, password: string): map<Id, User>
  {
    if id in users then users[id := users[id].(passwordHash := PasswordHash(password))] else users
  }

  predicate Revocable(session: Session, id: Id, userId: Id, keep: Option<Id>)
  {
    session.userId == userId && session.revokedAt.None? && keep != Some(id)
  }

  function RevokedAll(sessions: map<Id, Session>, userId: Id, keep: Option<Id>, now: int): map<Id, Session>
  {
    map id | id in sessions ::
      if Revocable(sessions[id], id, userId, keep) then sessions[id].(revokedAt := Some(now)) else sessions[id]
  }

  predicate Outstanding(token: Token)
  {
    token.usedAt.None? && token.revokedAt.None?
  }

  function RevokedActive(tokens: map<Id, Token>, userId: Id, purpose: Purpose, now: int): map<Id, Token>
  {
    map id | id in tokens ::
      if tokens[id].userId == userId && tokens[id].purpose == purpose && Outstanding(tokens[id])
      then tokens[id].(revokedAt := Some(now)) else tokens[id]
  }

  class InMemoryUserStore {
    var users: map<Id, User>

    constructor ()
      ensures users == map[]
    {
      users := map[];
    }

    method GetByEmail(email: string) returns (found: Option<Id>)
      requires DistinctEmails(users)
      ensures found == FindByEmail(users, email)
    {
      if id :| id in users && users[id].email == email {
        return Some(id);
      }
      return None;
    }

    method UpdatePasswordHash(id: Id, hash: PasswordHash)
      modifies this
      ensures users == WithPassword(old(users), id, hash.password)
    {
      if id in users {
        users := users[id := users[id].(passwordHash := hash)];
      }
    }

    method SetActive(id: Id, active: bool)
      modifies this
      ensures users == if id in old(users) then old(users)[id := old(users)[id].(isActive := active)] else old(users)
    {
      if id in users {
        users := users[id := users[id].(isActive := active)];
      }
    }

    method Put(id: Id, user: User)
      modifies this
      ensures users == old(users)[id := user]
    {
      users := users[id := user];
    }
  }

  class InMemorySessionStore {
    var sessions: map<Id, Session>

    constructor ()
      ensures sessions == map[]
    {
      sessions := map[];
    }

    method Put(id: Id, session: Session)
      modifies this
      ensures sessions == old(sessions)[id := session]
    {
      sessions := sessions[id := session];
    }

    method GetByTokenHash(hash: TokenHash) returns (found: Option<Id>)
      requires DistinctSessions(sessions)
      ensures found == FindSession(sessions, hash)
    {
      if id :| id in sessions && sessions[id].tokenHash == hash {
        return Some(id);
      }
      return None;
    }

    method Revoke(id: Id, now: int)
      modifies this
      ensures sessions == if id in old(sessions) then old(sessions)[id := old(sessions)[id].(revokedAt := Some(now))] else old(sessions)
    {
      if id in sessions {
        sessions := sessions[id := sessions[id].(revokedAt := Some(now))];
      }
    }

    method RevokeAllForUser(userId: Id, keep: Option<Id>, now: int) returns (count: nat)
      modifies this
      ensures sessions == RevokedAll(old(sessions), userId, keep, now)
      ensures count == |set id | id in old(sessions) && Revocable(old(sessions)[id], id, userId, keep)|
    {
      var pending := sessions.Keys;
      ghost var counted: set<Id> := {};
      count := 0;
      while pending != {}
        invariant pending <= old(sessions).Keys == sessions.Keys
        invariant forall id :: id in sessions ==> sessions[id] == if id in pending then old(sessions)[id] else RevokedAll(old(sessions), userId, keep, now)[id]
        invariant counted == set id | id in old(sessions) && id !in pending && Revocable(old(sessions)[id], id, userId, keep)
        invariant count == |counted|
      {
        var id :| id in pending;
        pending := pending - {id};
        if Revocable(sessions[id], id, userId, keep) {
          sessions := sessions[id := sessions[id].(revokedAt := Some(now))];
          counted := counted + {id};
          count := count + 1;
        }
      }
      assert counted == set id | id in old(sessions) && Revocable(old(sessions)[id], id, userId, keep);
    }
  }

  class InMemoryIdentityTokenStore {
    var tokens: map<Id, Token>

    constructor ()
      ensures tokens == map[]
    {
      tokens := map[];
    }

    method Put(id: Id, token: Token)
      modifies this
      ensures tokens == old(tokens)[id := token]
    {
      tokens := tokens[id := token];
    }

    method GetByTokenHash(hash: TokenHash, purpose: Purpose) returns (found: Option<Id>)
      requires DistinctTokens(tokens)
      ensures found == FindToken(tokens, hash, purpose)
    {
      if id :| id in tokens && tokens[id].tokenHash == hash && tokens[id].purpose == purpose {
        return Some(id);
      }
      return None;
    }

    method RevokeActiveForUser(userId: Id, purpose: Purpose, now: int)
      modifies this
      ensures tokens == RevokedActive(old(tokens), userId, purpose, now)
    {
      var pending := tokens.Keys;
      while pending != {}
        invariant pending <= old(tokens).Keys == tokens.Keys
        invariant forall id :: id in tokens ==> tokens[id] == if id in pending then old(tokens)[id] else RevokedActive(old(tokens), userId, purpose, now)[id]
      {
        var id :| id in pending;
        pending := pending - {id};
        if tokens[id].userId == userId && tokens[id].purpose == purpose && Outstanding(tokens[id]) {
          tokens := tokens[id := tokens[id].(revokedAt := Some(now))];
        }
      }
    }
  }

  // ---- the service's operations ----

  datatype Op =
    | Register(email: string, password: string, userId: Id, tokenId: Id, raw: string)
    | Login(email: string, password: string, sessionId: Id, raw: string)
    | ValidateSession(raw: string)
    | Logout(sessionId: Id)
    | LogoutAll(userId: Id)
    | ChangePassword(userId: Id, current: string, password: string, keep: Id)
    | ForgotPassword(email: string, tokenId: Id, raw: string)
    | ResetPassword(raw: string, password: string)
    | ResendVerification(userId: Id, verified: bool, tokenId: Id, raw: string)
    | ConfirmVerification(raw: string)
    | RequestEmailChange(userId: Id, email: string, current: string, tokenId: Id, raw: string)
    | ConfirmEmailChange(raw: string)
    | SetActive(userId: Id, active: bool)

  /** None when the call returns, otherwise what it raises. */
  type Verdict = Option<Error>

  function Issued(tokens: map<Id, Token>, userId: Id, purpose: Purpose, tokenId: Id, raw: string, expiresAt: int, now: int): map<Id, Token>
  {
    RevokedActive(tokens, userId, purpose, now)[tokenId := Token(userId, TokenHash(raw), purpose, expiresAt, None, None)]
  }

  /** The token a raw value redeems for a purpose now, if any. */
  ghost function Redeemable(tokens: map<Id, Token>, raw: string, purpose: Purpose, now: int): Option<Id>
  {
    var found := FindToken(tokens, TokenHash(raw), purpose);
    if found.None? || !Outstanding(tokens[found.value]) || tokens[found.value].expiresAt < now then None else found
  }

  function MarkedUsed(tokens: map<Id, Token>, id: Id, now: int): map<Id, Token>
    requires id in tokens
  {
    tokens[id := tokens[id].(usedAt := Some(now))]
  }

  predicate SessionUsable(session: Session, idleTtl: int, now: int)
  {
    session.revokedAt.None? && now <= session.expiresAt && now - session.lastSeenAt <= idleTtl
  }

  predicate PasswordMatches(users: map<Id, User>, id: Id, password: string)
  {
    id in users && users[id].passwordHash == PasswordHash(password)
  }

  ghost function Registered(cfg: Config, s: State, op: Op, now: int): (State, Verdict)
    requires op.Register?
  {
    var email := cfg.normalize(op.email);
    if |op.password| < MIN_PASSWORD_LENGTH then (s, Some(WeakPassword))
    else if FindByEmail(s.users, email).Some? then (s, Some(EmailAlreadyRegistered))
    else
      (s.(users := s.users[op.userId := User(email, PasswordHash(op.password), true, false, None, None)],
          tokens := Issued(s.tokens, op.userId, EmailVerification, op.tokenId, op.raw, now + cfg.verificationTtl, now)), None)
  }

  ghost function LoggedIn(cfg: Config, s: State, op: Op, now: int): (State, Verdict)
    requires op.Login?
  {
    var found := FindByEmail(s.users, cfg.normalize(op.email));
    if found.None? || !PasswordMatches(s.users, found.value, op.password) then (s, Some(InvalidCredentials))
    else if !s.users[found.value].isActive then (s, Some(AccountDisabled))
    else
      (s.(sessions := s.sessions[op.sessionId := Session(found.value, TokenHash(op.raw), now, now + cfg.absoluteTtl, now, None)],
          users := s.users[found.value := s.users[found.value].(lastLoginAt := Some(now))]), None)
  }

  ghost function Validated(cfg: Config, s: State, raw: string, now: int): (State, Verdict)
  {
    var found := FindSession(s.sessions, TokenHash(raw));
    if found.None? || !SessionUsable(s.sessions[found.value], cfg.idleTtl, now) then (s, Some(SessionInvalid))
    else (s.(sessions := s.sessions[found.value := s.sessions[found.value].(lastSeenAt := now)]), None)
  }

  ghost function PasswordChanged(cfg: Config, s: State, op: Op, now: int): (State, Verdict)
    requires op.ChangePassword?
  {
    if !PasswordMatches(s.users, op.userId, op.current) then (s, Some(InvalidCredentials))
    else if |op.password| < MIN_PASSWORD_LENGTH then (s, Some(WeakPassword))
    else (s.(users := WithPassword(s.users, op.userId, op.password), sessions := RevokedAll(s.sessions, op.userId, Some(op.keep), now)), None)
  }

  /** The token is spent before the new password is looked at. */
  ghost function PasswordResetDone(cfg: Config, s: State, op: Op, now: int): (State, Verdict)
    requires op.ResetPassword?
  {
    var token := Redeemable(s.tokens, op.raw, PasswordReset, now);
    if token.None? then (s, Some(TokenInvalid))
    else
      var spent := s.(tokens := MarkedUsed(s.tokens, token.value, now));
      var userId := s.tokens[token.value].userId;
      if |op.password| < MIN_PASSWORD_LENGTH then (spent, Some(WeakPassword))
      else (spent.(users := WithPassword(s.users, userId, op.password), sessions := RevokedAll(s.sessions, userId, None, now)), None)
  }

  ghost function EmailChangeRequested(cfg: Config, s: State, op: Op, now: int): (State, Verdict)
    requires op.RequestEmailChange?
  {
    var email := cfg.normalize(op.email);
    if !PasswordMatches(s.users, op.userId, op.current) then (s, Some(InvalidCredentials))
    else if email == s.users[op.userId].email then (s, Some(SameEmail))
    else if FindByEmail(s.users, email).Some? then (s, Some(EmailAlreadyRegistered))
    else
      (s.(users := s.users[op.userId := s.users[op.userId].(pendingEmail := Some(email))],
          tokens := Issued(s.tokens, op.userId, EmailChange, op.tokenId, op.raw, now + cfg.verificationTtl, now)), None)
  }

  ghost function EmailChanged(cfg: Config, s: State, raw: string, now: int): (State, Verdict)
  {
    var token := Redeemable(s.tokens, raw, EmailChange, now);
    if token.None? then (s, Some(TokenInvalid))
    else
      var spent := s.(tokens := MarkedUsed(s.tokens, token.value, now));
      var userId := s.tokens[token.value].userId;
      if userId !in s.users || s.users[userId].pendingEmail.None? then (spent, Some(TokenInvalid))
      else
        var email := s.users[userId].pendingEmail.value;
        if FindByEmail(s.users, email).Some? then (spent, Some(EmailAlreadyRegistered))
        else
          (spent.(users := s.users[userId := s.users[userId].(email := email, pendingEmail := None, emailVerified := true)],
                  sessions := RevokedAll(s.sessions, userId, None, now)), None)
  }

  ghost function Applied(cfg: Config, s: State, op: Op, now: int): (State, Verdict)
  {
    match op
    case Register(_, _, _, _, _) => Registered(cfg, s, op, now)
    case Login(_, _, _, _) => LoggedIn(cfg, s, op, now)
    case ValidateSession(raw) => Validated(cfg, s, raw, now)
    case Logout(id) =>
      (if id in s.sessions then s.(sessions := s.sessions[id := s.sessions[id].(revokedAt := Some(now))]) else s, None)
    case LogoutAll(userId) => (s.(sessions := RevokedAll(s.sessions, userId, None, now)), None)
    case ChangePassword(_, _, _, _) => PasswordChanged(cfg, s, op, now)
    case ForgotPassword(email, tokenId, raw) =>
      var found := FindByEmail(s.users, cfg.normalize(email));
      if found.None? || !s.users[found.value].isActive then (s, None)
      else (s.(tokens := Issued(s.tokens, found.value, PasswordReset, tokenId, raw, now + cfg.resetTtl, now)), None)
    case ResetPassword(_, _) => PasswordResetDone(cfg, s, op, now)
    case ResendVerification(userId, verified, tokenId, raw) =>
      if verified then (s, None)
      else (s.(tokens := Issued(s.tokens, userId, EmailVerification, tokenId, raw, now + cfg.verificationTtl, now)), None)
    case ConfirmVerification(raw) =>
      var token := Redeemable(s.tokens, raw, EmailVerification, now);
      if token.None? then (s, Some(TokenInvalid))
      else
        var userId := s.tokens[token.value].userId;
        (s.(tokens := MarkedUsed(s.tokens, token.value, now),
            users := if userId in s.users then s.users[userId := s.users[userId].(emailVerified := true)] else s.users), None)
    case RequestEmailChange(_, _, _, _, _) => EmailChangeRequested(cfg, s, op, now)
    case ConfirmEmailChange(raw) => EmailChanged(cfg, s, raw, now)
    case SetActive(userId, active) =>
      (if userId in s.users then s.(users := s.users[userId := s.users[userId].(isActive := active)]) else s, None)
  }

  class AuthService {
    const users: InMemoryUserStore
    const sessions: InMemorySessionStore
    const tokens: InMemoryIdentityTokenStore
    const cfg: Config

    ghost function View(): State
      reads users, sessions, tokens
    {
      State(users.users, sessions.sessions, tokens.tokens)
    }

    constructor (users: InMemoryUserStore, sessions: InMemorySessionStore, tokens: InMemoryIdentityTokenStore, cfg: Config)
      ensures this.users == users && this.sessions == sessions && this.tokens == tokens && this.cfg == cfg
    {
      this.users, this.sessions, this.tokens, this.cfg := users, sessions, tokens, cfg;
    }

    method IssueToken(userId: Id, purpose: Purpose, tokenId: Id, raw: string, now: int)
      modifies tokens
      ensures tokens.tokens == Issued(old(tokens.tokens), userId, purpose, tokenId, raw,
                                      now + if purpose == PasswordReset then cfg.resetTtl else cfg.verificationTtl, now)
    {
      tokens.RevokeActiveForUser(userId, purpose, now);
      var ttl := if purpose == PasswordReset then cfg.resetTtl else cfg.verificationTtl;
      tokens.Put(tokenId, Token(userId, TokenHash(raw), purpose, now + ttl, None, None));
    }

    method ConsumeToken(raw: string, purpose: Purpose, now: int) returns (record: Option<Token>)
      requires DistinctTokens(tokens.tokens)
      modifies tokens
      ensures var redeemed := Redeemable(old(tokens.tokens), raw, purpose, now);
        if redeemed.None? then record == None && tokens.tokens == old(tokens.tokens)
        else record == Some(old(tokens.tokens)[redeemed.value]) && tokens.tokens == MarkedUsed(old(tokens.tokens), redeemed.value, now)
    {
      var found := tokens.GetByTokenHash(TokenHash(raw), purpose);
      if found.None? {
        return None;
      }
      var token := tokens.tokens[found.value];
      if token.usedAt.Some? || token.revokedAt.Some? || token.expiresAt < now {
        return None;
      }
      tokens.Put(found.value, token.(usedAt := Some(now)));
      return Some(token);
    }

    method RegisterUser(email: string, password: string, now: int, userId: Id, tokenId: Id, raw: string) returns (verdict: Verdict)
      requires Valid(View())
      modifies users, tokens
      ensures (View(), verdict) == Applied(cfg, old(View()), Register(email, password, userId, tokenId, raw), now)
    {
      var normalized := cfg.normalize(email);
      if |password| < MIN_PASSWORD_LENGTH {
        return Some(WeakPassword);
      }
      var existing := users.GetByEmail(normalized);
      if existing.Some? {
        return Some(EmailAlreadyRegistered);
      }
      users.Put(userId, User(normalized, PasswordHash(password), true, false, None, None));
      IssueToken(userId, EmailVerification, tokenId, raw, now);
      return None;
    }

    method LogIn(email: string, password: string, now: int, sessionId: Id, raw: string) returns (verdict: Verdict)
      requires Valid(View())
      modifies users, sessions
      ensures (View(), verdict) == Applied(cfg, old(View()), Login(email, password, sessionId, raw), now)
    {
      var found := users.GetByEmail(cfg.normalize(email));
      if found.None? {
        return Some(InvalidCredentials);
      }
      var user := users.users[found.value];
      if user.passwordHash != PasswordHash(password) {
        return Some(InvalidCredentials);
      }
      if !user.isActive {
        return Some(AccountDisabled);
      }
      sessions.Put(sessionId, Session(found.value, TokenHash(raw), now, now + cfg.absoluteTtl, now, None));
      users.Put(found.value, user.(lastLoginAt := Some(now)));
      return None;
    }

    method Validate(raw: string, now: int) returns (verdict: Verdict)
      requires Valid(View())
      modifies sessions
      ensures (View(), verdict) == Applied(cfg, old(View()), ValidateSession(raw), now)
    {
      var found := sessions.GetByTokenHash(TokenHash(raw));
      if found.None? {
        return Some(SessionInvalid);
      }
      var session := sessions.sessions[found.value];
      if session.revokedAt.Some? {
        return Some(SessionInvalid);
      }
      if now > session.expiresAt {
        return Some(SessionInvalid);
      }
      if now - session.lastSeenAt > cfg.idleTtl {
        return Some(SessionInvalid);
      }
      sessions.Put(found.value, session.(lastSeenAt := now));
      return None;
    }

    method LogOut(sessionId: Id, now: int)
      modifies sessions
      ensures View() == Applied(cfg, old(View()), Logout(sessionId), now).0
    {
      sessions.Revoke(sessionId, now);
    }

    method LogOutAll(userId: Id, now: int) returns (count: nat)
      modifies sessions
      ensures View() == Applied(cfg, old(View()), LogoutAll(userId), now).0
      ensures count == |set id | id in old(View()).sessions && Revocable(old(View()).sessions[id], id, userId, None)|
    {
      count := sessions.RevokeAllForUser(userId, None, now);
    }

    method ChangeOwnPassword(userId: Id, current: string, password: string, keep: Id, now: int) returns (verdict: Verdict)
      modifies users, sessions
      ensures (View(), verdict) == Applied(cfg, old(View()), ChangePassword(userId, current, password, keep), now)
    {
      if userId !in users.users || users.users[userId].passwordHash != PasswordHash(current) {
        return Some(InvalidCredentials);
      }
      if |password| < MIN_PASSWORD_LENGTH {
        return Some(WeakPassword);
      }
      users.UpdatePasswordHash(userId, PasswordHash(password));
      var _ := sessions.RevokeAllForUser(userId, Some(keep), now);
      return None;
    }

    method RequestPasswordReset(email: string, tokenId: Id, raw: string, now: int)
      requires Valid(View())
      modifies tokens
      ensures View() == Applied(cfg, old(View()), ForgotPassword(email, tokenId, raw), now).0
    {
      var found := users.GetByEmail(cfg.normalize(email));
      if found.None? || !users.users[found.value].isActive {
        return;
      }
      IssueToken(found.value, PasswordReset, tokenId, raw, now);
    }

    method ResetForgottenPassword(raw: string, password: string, now: int) returns (verdict: Verdict)
      requires Valid(View())
      modifies users, sessions, tokens
      ensures (View(), verdict) == Applied(cfg, old(View()), ResetPassword(raw, password), now)
    {
      var record := ConsumeToken(raw, PasswordReset, now);
      if record.None? {
        return Some(TokenInvalid);
      }
      if |password| < MIN_PASSWORD_LENGTH {
        return Some(WeakPassword);
      }
      users.UpdatePasswordHash(record.value.userId, PasswordHash(password));
      var _ := sessions.RevokeAllForUser(record.value.userId, None, now);
      return None;
    }

    method ResendEmailVerification(userId: Id, verified: bool, tokenId: Id, raw: string, now: int) returns (sent: bool)
      modifies tokens
      ensures View() == Applied(cfg, old(View()), ResendVerification(userId, verified, tokenId, raw), now).0
      ensures sent == !verified
    {
      if verified {
        return false;
      }
      IssueToken(userId, EmailVerification, tokenId, raw, now);
      return true;
    }

    method ConfirmEmail(raw: string, now: int) returns (verdict: Verdict)
      requires Valid(View())
      modifies users, tokens
      ensures (View(), verdict) == Applied(cfg, old(View()), ConfirmVerification(raw), now)
    {
      var record := ConsumeToken(raw, EmailVerification, now);
      if record.None? {
        return Some(TokenInvalid);
      }
      var userId := record.value.userId;
      if userId in users.users {
        users.Put(userId, users.users[userId].(emailVerified := true));
      }
      return None;
    }

    method RequestNewEmail(userId: Id, email: string, current: string, tokenId: Id, raw: string, now: int) returns (verdict: Verdict)
      requires Valid(View())
      modifies users, tokens
      ensures (View(), verdict) == Applied(cfg, old(View()), RequestEmailChange(userId, email, current, tokenId, raw), now)
    {
      if userId !in users.users || users.users[userId].passwordHash != PasswordHash(current) {
        return Some(InvalidCredentials);
      }
      var normalized := cfg.normalize(email);
      if normalized == users.users[userId].email {
        return Some(SameEmail);
      }
      var owner := users.GetByEmail(normalized);
      if owner.Some? {
        return Some(EmailAlreadyRegistered);
      }
      users.Put(userId, users.users[userId].(pendingEmail := Some(normalized)));
      IssueToken(userId, EmailChange, tokenId, raw, now);
      return None;
    }

    method ConfirmNewEmail(raw: string, now: int) returns (verdict: Verdict)
      requires Valid(View())
      modifies users, sessions, tokens
      ensures (View(), verdict) == Applied(cfg, old(View()), ConfirmEmailChange(raw), now)
    {
      var record := ConsumeToken(raw, EmailChange, now);
      if record.None? {
        return Some(TokenInvalid);
      }
      var userId := record.value.userId;
      if userId !in users.users || users.users[userId].pendingEmail.None? {
        return Some(TokenInvalid);
      }
      var user := users.users[userId];
      var owner := users.GetByEmail(user.pendingEmail.value);
      if owner.Some? {
        return Some(EmailAlreadyRegistered);
      }
      users.Put(userId, user.(email := user.pendingEmail.value, pendingEmail := None, emailVerified := true));
      var _ := sessions.RevokeAllForUser(userId, None, now);
      return None;
    }
  }

  // ---- what every operation keeps ----

  predicate SameSlot(one: Token, other: Token)
  {
    Outstanding(one) && Outstanding(other) && one.userId == other.userId && one.purpose == other.purpose
  }

  /** At most one outstanding token for each user and purpose. */
  predicate OneOutstanding(tokens: map<Id, Token>)
  {
    forall i, j :: i in tokens && j in tokens && SameSlot(tokens[i], tokens[j]) ==> i == j
  }

  predicate Valid(s: State)
  {
    DistinctEmails(s.users) && DistinctSessions(s.sessions) && DistinctTokens(s.tokens) && OneOutstanding(s.tokens)
  }

  predicate FreshToken(s: State, tokenId: Id, raw: string)
  {
    tokenId !in s.tokens && forall id :: id in s.tokens ==> s.tokens[id].tokenHash != TokenHash(raw)
  }

  /** Identifiers and raw tokens an operation brings along have not been used. */
  predicate Fresh(s: State, op: Op)
  {
    match op
    case Register(_, _, userId, tokenId, raw) => userId !in s.users && FreshToken(s, tokenId, raw)
    case Login(_, _, sessionId, raw) => sessionId !in s.sessions && forall id :: id in s.sessions ==> s.sessions[id].tokenHash != TokenHash(raw)
    case ForgotPassword(_, tokenId, raw) => FreshToken(s, tokenId, raw)
    case ResendVerification(_, _, tokenId, raw) => FreshToken(s, tokenId, raw)
    case RequestEmailChange(_, _, _, tokenId, raw) => FreshToken(s, tokenId, raw)
    case _ => true
  }

  lemma RevokedActiveMeaning(tokens: map<Id, Token>, userId: Id, purpose: Purpose, now: int)
    ensures var tokens' := RevokedActive(tokens, userId, purpose, now);
      && tokens'.Keys == tokens.Keys
      && forall id :: id in tokens ==>
        && tokens'[id].(revokedAt := tokens[id].revokedAt) == tokens[id]
        && (Outstanding(tokens'[id]) <==> Outstanding(tokens[id]) && !(tokens[id].userId == userId && tokens[id].purpose == purpose))
  {
  }

  lemma IssueKeepsDistinct(tokens: map<Id, Token>, userId: Id, purpose: Purpose, tokenId: Id, raw: string, expiresAt: int, now: int)
    requires DistinctTokens(tokens)
    requires tokenId !in tokens && forall id :: id in tokens ==> tokens[id].tokenHash != TokenHash(raw)
    ensures DistinctTokens(Issued(tokens, userId, purpose, tokenId, raw, expiresAt, now))
  {
    RevokedActiveMeaning(tokens, userId, purpose, now);
    hide RevokedActive;
    hide Outstanding;
  }

  lemma IssueKeeps(tokens: map<Id, Token>, userId: Id, purpose: Purpose, tokenId: Id, raw: string, expiresAt: int, now: int)
    requires DistinctTokens(tokens) && OneOutstanding(tokens)
    requires tokenId !in tokens && forall id :: id in tokens ==> tokens[id].tokenHash != TokenHash(raw)
    ensures var tokens' := Issued(tokens, userId, purpose, tokenId, raw, expiresAt, now);
      DistinctTokens(tokens') && OneOutstanding(tokens')
  {
    IssueKeepsDistinct(tokens, userId, purpose, tokenId, raw, expiresAt, now);
    RevokedActiveMeaning(tokens, userId, purpose, now);
    hide RevokedActive;
    hide DistinctTokens;
    var tokens' := Issued(tokens, userId, purpose, tokenId, raw, expiresAt, now);
    forall i, j | i in tokens' && j in tokens' && SameSlot(tokens'[i], tokens'[j])
      ensures i == j
    {
      if i != tokenId && j != tokenId {
        assert SameSlot(tokens[i], tokens[j]);
      }
    }
  }

  lemma UseKeeps(tokens: map<Id, Token>, id: Id, now: int)
    requires DistinctTokens(tokens) && OneOutstanding(tokens) && id in tokens
    ensures DistinctTokens(MarkedUsed(tokens, id, now)) && OneOutstanding(MarkedUsed(tokens, id, now))
  {
  }

  lemma ApplyKeepsEmails(cfg: Config, s: State, op: Op, now: int)
    requires DistinctEmails(s.users) && Fresh(s, op)
    ensures DistinctEmails(Applied(cfg, s, op, now).0.users)
  {
    hide Issued, MarkedUsed, RevokedAll, FreshToken, Redeemable;
    match op
    case Register(_, _, _, _, _) =>
    case Login(_, _, _, _) =>
    case ChangePassword(_, _, _, _) =>
    case ResetPassword(_, _) =>
    case ConfirmVerification(_) =>
    case RequestEmailChange(_, _, _, _, _) =>
    case ConfirmEmailChange(_) =>
    case SetActive(_, _) =>
    case _ =>
  }

  lemma ApplyKeepsSessions(cfg: Config, s: State, op: Op, now: int)
    requires DistinctSessions(s.sessions) && Fresh(s, op)
    ensures DistinctSessions(Applied(cfg, s, op, now).0.sessions)
  {
    hide Issued, MarkedUsed, WithPassword, FreshToken, FindByEmail, Redeemable;
    match op
    case Login(_, _, _, _) =>
    case ValidateSession(_) =>
    case Logout(_) =>
    case LogoutAll(_) =>
    case ChangePassword(_, _, _, _) =>
    case ResetPassword(_, _) =>
    case ConfirmEmailChange(_) =>
    case _ =>
  }

  lemma ApplyKeepsTokens(cfg: Config, s: State, op: Op, now: int)
    requires DistinctTokens(s.tokens) && OneOutstanding(s.tokens) && Fresh(s, op)
    ensures DistinctTokens(Applied(cfg, s, op, now).0.tokens) && OneOutstanding(Applied(cfg, s, op, now).0.tokens)
  {
    hide OneOutstanding, DistinctTokens, Issued, MarkedUsed, RevokedAll, WithPassword;
    match op
    case Register(_, _, userId, tokenId, raw) => IssueKeeps(s.tokens, userId, EmailVerification, tokenId, raw, now + cfg.verificationTtl, now);
    case ForgotPassword(email, tokenId, raw) =>
      var found := FindByEmail(s.users, cfg.normalize(email));
      if found.Some? {
        IssueKeeps(s.tokens, found.value, PasswordReset, tokenId, raw, now + cfg.resetTtl, now);
      }
    case ResendVerification(userId, _, tokenId, raw) => IssueKeeps(s.tokens, userId, EmailVerification, tokenId, raw, now + cfg.verificationTtl, now);
    case RequestEmailChange(userId, _, _, tokenId, raw) => IssueKeeps(s.tokens, userId, EmailChange, tokenId, raw, now + cfg.verificationTtl, now);
    case ResetPassword(raw, _) =>
      if Redeemable(s.tokens, raw, PasswordReset, now).Some? {
        UseKeeps(s.tokens, Redeemable(s.tokens, raw, PasswordReset, now).value, now);
      }
    case ConfirmVerification(raw) =>
      if Redeemable(s.tokens, raw, EmailVerification, now).Some? {
        UseKeeps(s.tokens, Redeemable(s.tokens, raw, EmailVerification, now).value, now);
      }
    case ConfirmEmailChange(raw) =>
      if Redeemable(s.tokens, raw, EmailChange, now).Some? {
        UseKeeps(s.tokens, Redeemable(s.tokens, raw, EmailChange, now).value, now);
      }
    case _ =>
  }

  /** Every operation keeps emails, session tokens and recovery tokens distinct, and one outstanding token per user and purpose. */
  lemma ApplyKeepsValid(cfg: Config, s: State, op: Op, now: int)
    requires Valid(s) && Fresh(s, op)
    ensures Valid(Applied(cfg, s, op, now).0)
  {
    ApplyKeepsEmails(cfg, s, op, now);
    ApplyKeepsSessions(cfg, s, op, now);
    ApplyKeepsTokens(cfg, s, op, now);
    hide Applied, Fresh, DistinctEmails, DistinctSessions, DistinctTokens, OneOutstanding;
  }
}
