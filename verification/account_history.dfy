/**
 What any run of operations leaves of one account and of one recovery link, read off the operations that
 succeeded (backend/app/identity/service.py:122-391).
 */
module AccountHistory {
  import opened Common
  import opened Identity
  import opened IdentityHistory

  ghost predicate Succeeds(cfg: Config, s: State, timed: Timed)
  {
    Applied(cfg, s, timed.op, timed.now).1.None?
  }

  // ---- the password ----

  /** The password the operation gives this user, if it gives one: by registering, by a change, or by a reset through the user's own link. */
  ghost function PasswordSet(cfg: Config, s: State, timed: Timed, id: Id): Option<string>
  {
    match timed.op
    case Register(_, password, userId, _, _) => if userId == id && Succeeds(cfg, s, timed) then Some(password) else None
    case ChangePassword(userId, _, password, _) => if userId == id && Succeeds(cfg, s, timed) then Some(password) else None
    case ResetPassword(raw, password) => if id in s.users && LinkEnds(cfg, s, timed, raw, PasswordReset, id) then Some(password) else None
    case _ => None
  }

  /** The last password a run gave this user, or the one before it. */
  ghost function LastPassword(cfg: Config, s: State, run: seq<Timed>, id: Id, before: Option<string>): Option<string>
  {
    if run == [] then before
    else
      var front := run[..|run| - 1];
      var given := PasswordSet(cfg, After(cfg, s, front), run[|run| - 1], id);
      if given.Some? then given else LastPassword(cfg, s, front, id, before)
  }

  ghost function PasswordOf(s: State, id: Id): Option<string>
  {
    if id in s.users then Some(s.users[id].passwordHash.password) else None
  }

  lemma PasswordStep(cfg: Config, s: State, timed: Timed, id: Id)
    requires Valid(s) && Fresh(s, timed.op)
    ensures var given := PasswordSet(cfg, s, timed, id);
      PasswordOf(Step(cfg, s, timed), id) == if given.Some? then given else PasswordOf(s, id)
  {
    hide Issued, MarkedUsed, RevokedAll, DistinctSessions, DistinctTokens, OneOutstanding, FreshToken;
    match timed.op
    case Register(_, _, _, _, _) =>
    case Login(_, _, _, _) =>
    case ChangePassword(_, _, _, _) =>
    case ResetPassword(_, _) =>
    case ConfirmVerification(_) =>
    case RequestEmailChange(_, _, _, _, _) =>
    case ConfirmEmailChange(_) =>
    case _ =>
  }

  /** After any run the password in force is the last one given by a registration, a change or a reset that succeeded; nothing done for other users moves it. */
  lemma {:induction false} PasswordIsTheLastGiven(cfg: Config, s: State, run: seq<Timed>, clock: int, id: Id)
    requires Valid(s) && Legal(cfg, s, run, clock)
    ensures PasswordOf(After(cfg, s, run), id) == LastPassword(cfg, s, run, id, PasswordOf(s, id))
  {
    if run != [] {
      var front, last := run[..|run| - 1], run[|run| - 1];
      PasswordIsTheLastGiven(cfg, s, front, clock, id);
      RunKeepsValid(cfg, s, front, clock);
      var before := After(cfg, s, front);
      hide Valid, Fresh;
      PasswordStep(cfg, before, last, id);
      hide Step, PasswordSet, PasswordOf;
      assert After(cfg, s, run) == Step(cfg, before, last);
    }
  }

  /** The account with this address. */
  predicate Addressed(s: State, id: Id, email: string)
  {
    id in s.users && s.users[id].email == email
  }

  /**
   A login succeeds exactly with the password last given to the account of that address, by whichever
   registration, change or reset, as long as the account is active. An older password never works.
   */
  lemma LoginTakesLastPasswordIff(
    cfg: Config, s: State, run: seq<Timed>, clock: int, id: Id, email: string, password: string, sessionId: Id, raw: string, now: int)
    requires Valid(s) && Legal(cfg, s, run, clock)
    requires Addressed(After(cfg, s, run), id, cfg.normalize(email))
    ensures Applied(cfg, After(cfg, s, run), Login(email, password, sessionId, raw), now).1.None? <==>
      After(cfg, s, run).users[id].isActive && LastPassword(cfg, s, run, id, PasswordOf(s, id)) == Some(password)
  {
    PasswordIsTheLastGiven(cfg, s, run, clock, id);
    RunKeepsValid(cfg, s, run, clock);
    var s' := After(cfg, s, run);
    hide After, Legal, LastPassword, DistinctSessions, DistinctTokens, OneOutstanding;
    var found := FindByEmail(s'.users, cfg.normalize(email));
    assert found == Some(id);
  }

  // ---- who may set one ----

  /** Registering needs eight characters and an address nobody has; a change needs the current password and eight characters. */
  lemma RegisterSucceedsIff(cfg: Config, s: State, email: string, password: string, userId: Id, tokenId: Id, raw: string, now: int)
    ensures Applied(cfg, s, Register(email, password, userId, tokenId, raw), now).1.None? <==>
      |password| >= 8 && forall id :: id in s.users ==> s.users[id].email != cfg.normalize(email)
  {
  }

  lemma ChangeSucceedsIff(cfg: Config, s: State, userId: Id, current: string, password: string, keep: Id, now: int)
    ensures Applied(cfg, s, ChangePassword(userId, current, password, keep), now).1.None? <==>
      PasswordOf(s, userId) == Some(current) && |password| >= 8
  {
  }

  /** An email change is asked for with the current password, and to an address that nobody has. */
  lemma EmailChangeAskedIff(cfg: Config, s: State, userId: Id, email: string, current: string, tokenId: Id, raw: string, now: int)
    ensures Applied(cfg, s, RequestEmailChange(userId, email, current, tokenId, raw), now).1.None? <==>
      PasswordOf(s, userId) == Some(current) && forall id :: id in s.users ==> s.users[id].email != cfg.normalize(email)
  {
  }

  // ---- the rest of the account ----

  datatype Account = Account(email: string, active: bool, verified: bool, pending: Option<string>, lastLogin: Option<int>)

  ghost function AccountOf(s: State, id: Id): Option<Account>
  {
    if id in s.users
    then Some(Account(s.users[id].email, s.users[id].isActive, s.users[id].emailVerified, s.users[id].pendingEmail, s.users[id].lastLoginAt))
    else None
  }

  /** What an operation that succeeds makes of an account. */
  ghost function AccountNext(cfg: Config, s: State, timed: Timed, id: Id, account: Option<Account>): Option<Account>
  {
    if !Succeeds(cfg, s, timed) then account
    else
      match timed.op
      case Register(email, _, userId, _, _) => if userId == id then Some(Account(cfg.normalize(email), true, false, None, None)) else account
      case Login(email, _, _, _) =>
        if account.Some? && account.value.email == cfg.normalize(email) then Some(account.value.(lastLogin := Some(timed.now))) else account
      case ConfirmVerification(raw) =>
        if account.Some? && LinkEnds(cfg, s, timed, raw, EmailVerification, id) then Some(account.value.(verified := true)) else account
      case RequestEmailChange(userId, email, _, _, _) =>
        if account.Some? && userId == id then Some(account.value.(pending := Some(cfg.normalize(email)))) else account
      case ConfirmEmailChange(raw) =>
        if account.Some? && account.value.pending.Some? && LinkEnds(cfg, s, timed, raw, EmailChange, id)
        then Some(account.value.(email := account.value.pending.value, verified := true, pending := None)) else account
      case SetActive(userId, active) => if account.Some? && userId == id then Some(account.value.(active := active)) else account
      case _ => account
  }

  ghost function AccountAfter(cfg: Config, s: State, run: seq<Timed>, id: Id): Option<Account>
  {
    if run == [] then AccountOf(s, id)
    else
      var front := run[..|run| - 1];
      AccountNext(cfg, After(cfg, s, front), run[|run| - 1], id, AccountAfter(cfg, s, front, id))
  }

  lemma RegisteringAccount(cfg: Config, s: State, timed: Timed, id: Id)
    requires Valid(s) && Fresh(s, timed.op)
    requires timed.op.Register?
    ensures AccountOf(Step(cfg, s, timed), id) == AccountNext(cfg, s, timed, id, AccountOf(s, id))
  {
    hide Issued, MarkedUsed, RevokedAll, DistinctSessions, DistinctTokens, OneOutstanding, FreshToken;
  }

  lemma LoggingInAccount(cfg: Config, s: State, timed: Timed, id: Id)
    requires Valid(s) && Fresh(s, timed.op)
    requires timed.op.Login?
    ensures AccountOf(Step(cfg, s, timed), id) == AccountNext(cfg, s, timed, id, AccountOf(s, id))
  {
    hide Issued, MarkedUsed, RevokedAll, DistinctSessions, DistinctTokens, OneOutstanding, FreshToken;
  }

  lemma ConfirmingAccount(cfg: Config, s: State, timed: Timed, id: Id)
    requires Valid(s) && Fresh(s, timed.op)
    requires timed.op.ConfirmVerification?
    ensures AccountOf(Step(cfg, s, timed), id) == AccountNext(cfg, s, timed, id, AccountOf(s, id))
  {
    hide Issued, MarkedUsed, RevokedAll, DistinctSessions, DistinctTokens, OneOutstanding, FreshToken;
  }

  lemma AskingAccount(cfg: Config, s: State, timed: Timed, id: Id)
    requires Valid(s) && Fresh(s, timed.op)
    requires timed.op.RequestEmailChange?
    ensures AccountOf(Step(cfg, s, timed), id) == AccountNext(cfg, s, timed, id, AccountOf(s, id))
  {
    hide Issued, MarkedUsed, RevokedAll, DistinctSessions, DistinctTokens, OneOutstanding, FreshToken;
  }

  lemma MovingAccount(cfg: Config, s: State, timed: Timed, id: Id)
    requires Valid(s) && Fresh(s, timed.op)
    requires timed.op.ConfirmEmailChange?
    ensures AccountOf(Step(cfg, s, timed), id) == AccountNext(cfg, s, timed, id, AccountOf(s, id))
  {
    hide Issued, MarkedUsed, RevokedAll, DistinctSessions, DistinctTokens, OneOutstanding, FreshToken;
  }

  lemma OtherAccount(cfg: Config, s: State, timed: Timed, id: Id)
    requires Valid(s) && Fresh(s, timed.op)
    requires !timed.op.Register? && !timed.op.Login? && !timed.op.ConfirmVerification? && !timed.op.RequestEmailChange? && !timed.op.ConfirmEmailChange?
    ensures AccountOf(Step(cfg, s, timed), id) == AccountNext(cfg, s, timed, id, AccountOf(s, id))
  {
    hide Issued, MarkedUsed, RevokedAll, DistinctSessions, DistinctTokens, OneOutstanding, FreshToken;
  }

  lemma AccountStep(cfg: Config, s: State, timed: Timed, id: Id)
    requires Valid(s) && Fresh(s, timed.op)
    ensures AccountOf(Step(cfg, s, timed), id) == AccountNext(cfg, s, timed, id, AccountOf(s, id))
  {
    hide Valid, Fresh, Step, AccountOf, AccountNext;
    match timed.op
    case Register(_, _, _, _, _) => RegisteringAccount(cfg, s, timed, id);
    case Login(_, _, _, _) => LoggingInAccount(cfg, s, timed, id);
    case ConfirmVerification(_) => ConfirmingAccount(cfg, s, timed, id);
    case RequestEmailChange(_, _, _, _, _) => AskingAccount(cfg, s, timed, id);
    case ConfirmEmailChange(_) => MovingAccount(cfg, s, timed, id);
    case _ => OtherAccount(cfg, s, timed, id);
  }

  /** After any run an account's address, pending address, verification and activity are what the operations that succeeded made of them. */
  lemma {:induction false} AccountIsAsTold(cfg: Config, s: State, run: seq<Timed>, clock: int, id: Id)
    requires Valid(s) && Legal(cfg, s, run, clock)
    ensures AccountOf(After(cfg, s, run), id) == AccountAfter(cfg, s, run, id)
  {
    if run != [] {
      var front, last := run[..|run| - 1], run[|run| - 1];
      AccountIsAsTold(cfg, s, front, clock, id);
      RunKeepsValid(cfg, s, front, clock);
      var before := After(cfg, s, front);
      AccountStep(cfg, before, last, id);
      hide Valid, Fresh, Step, AccountOf, AccountNext;
      assert After(cfg, s, run) == Step(cfg, before, last);
    }
  }

  /** A confirmed email change moves the account to the pending address, verified, and nothing is pending any more. */
  lemma EmailChangeConfirmed(cfg: Config, s: State, timed: Timed, id: Id)
    requires Valid(s) && timed.op.ConfirmEmailChange? && LinkEnds(cfg, s, timed, timed.op.raw, EmailChange, id)
    ensures id in s.users && s.users[id].pendingEmail.Some?
    ensures AccountOf(Step(cfg, s, timed), id) ==
      Some(Account(s.users[id].pendingEmail.value, s.users[id].isActive, true, None, s.users[id].lastLoginAt))
  {
    hide RevokedAll, MarkedUsed, DistinctSessions, DistinctTokens, OneOutstanding;
  }

  // ---- how long a link works ----

  datatype Link = Link(tokenId: Id, raw: string, userId: Id, purpose: Purpose, expiresAt: int)

  /** The link an operation sends out, if it sends one, and when it runs out. */
  ghost function LinkSent(cfg: Config, s: State, timed: Timed): Option<Link>
  {
    match timed.op
    case Register(_, _, userId, tokenId, raw) =>
      if Succeeds(cfg, s, timed) then Some(Link(tokenId, raw, userId, EmailVerification, timed.now + cfg.verificationTtl)) else None
    case ForgotPassword(email, tokenId, raw) =>
      if exists id :: Addressed(s, id, cfg.normalize(email)) && s.users[id].isActive
      then
        var id :| Addressed(s, id, cfg.normalize(email)) && s.users[id].isActive;
        Some(Link(tokenId, raw, id, PasswordReset, timed.now + cfg.resetTtl))
      else None
    case ResendVerification(userId, verified, tokenId, raw) =>
      if !verified then Some(Link(tokenId, raw, userId, EmailVerification, timed.now + cfg.verificationTtl)) else None
    case RequestEmailChange(userId, _, _, tokenId, raw) =>
      if Succeeds(cfg, s, timed) then Some(Link(tokenId, raw, userId, EmailChange, timed.now + cfg.verificationTtl)) else None
    case _ => None
  }

  /** A newer link for the same user and purpose takes this one's place. */
  ghost predicate Supersedes(cfg: Config, s: State, timed: Timed, link: Link)
  {
    var sent := LinkSent(cfg, s, timed);
    sent.Some? && sent.value.userId == link.userId && sent.value.purpose == link.purpose
  }

  /** The stored token is this link's. */
  predicate TokenOf(s: State, link: Link)
  {
    && link.tokenId in s.tokens
    && var token := s.tokens[link.tokenId];
       token.userId == link.userId && token.tokenHash == TokenHash(link.raw) && token.purpose == link.purpose && token.expiresAt == link.expiresAt
  }

  predicate Open(s: State, link: Link)
  {
    link.tokenId in s.tokens && Outstanding(s.tokens[link.tokenId])
  }

  lemma SentIsStored(cfg: Config, s: State, timed: Timed)
    requires Valid(s) && Fresh(s, timed.op) && LinkSent(cfg, s, timed).Some?
    ensures var link := LinkSent(cfg, s, timed).value;
      TokenOf(Step(cfg, s, timed), link) && Open(Step(cfg, s, timed), link)
  {
    hide RevokedAll, RevokedActive, DistinctSessions, DistinctTokens, OneOutstanding;
    match timed.op
    case Register(_, _, _, _, _) =>
    case ForgotPassword(_, _, _) =>
    case ResendVerification(_, _, _, _) =>
    case RequestEmailChange(_, _, _, _, _) =>
  }

  lemma IssueAndOpen(tokens: map<Id, Token>, userId: Id, purpose: Purpose, tokenId: Id, raw: string, expiresAt: int, now: int, id: Id)
    requires id in tokens && id != tokenId
    ensures var tokens' := Issued(tokens, userId, purpose, tokenId, raw, expiresAt, now);
      && id in tokens' && tokens'[id].(revokedAt := tokens[id].revokedAt) == tokens[id]
      && (Outstanding(tokens'[id]) <==> Outstanding(tokens[id]) && !(tokens[id].userId == userId && tokens[id].purpose == purpose))
  {
    RevokedActiveMeaning(tokens, userId, purpose, now);
    hide RevokedActive;
  }

  lemma LinkStep(cfg: Config, s: State, timed: Timed, link: Link)
    requires Valid(s) && Fresh(s, timed.op) && TokenOf(s, link)
    ensures var s' := Step(cfg, s, timed);
      && TokenOf(s', link)
      && (Open(s', link) <==> Open(s, link) && !Redeems(s, timed, link.tokenId) && !Supersedes(cfg, s, timed, link))
  {
    hide Issued, RevokedAll, WithPassword, DistinctSessions, OneOutstanding;
    match timed.op
    case Register(_, _, userId, tokenId, raw) =>
      IssueAndOpen(s.tokens, userId, EmailVerification, tokenId, raw, timed.now + cfg.verificationTtl, timed.now, link.tokenId);
    case ForgotPassword(email, tokenId, raw) =>
      var found := FindByEmail(s.users, cfg.normalize(email));
      if found.Some? {
        assert Addressed(s, found.value, cfg.normalize(email));
        IssueAndOpen(s.tokens, found.value, PasswordReset, tokenId, raw, timed.now + cfg.resetTtl, timed.now, link.tokenId);
      }
    case ResendVerification(userId, _, tokenId, raw) =>
      IssueAndOpen(s.tokens, userId, EmailVerification, tokenId, raw, timed.now + cfg.verificationTtl, timed.now, link.tokenId);
    case RequestEmailChange(userId, _, _, tokenId, raw) =>
      IssueAndOpen(s.tokens, userId, EmailChange, tokenId, raw, timed.now + cfg.verificationTtl, timed.now, link.tokenId);
    case ResetPassword(_, _) =>
    case ConfirmVerification(_) =>
    case ConfirmEmailChange(_) =>
    case _ =>
  }

  /** The link was redeemed or superseded by some operation of the run. */
  ghost predicate Spent(cfg: Config, s: State, run: seq<Timed>, link: Link)
  {
    run != [] &&
    var front, last := run[..|run| - 1], run[|run| - 1];
    var before := After(cfg, s, front);
    Spent(cfg, s, front, link) || Redeems(before, last, link.tokenId) || Supersedes(cfg, before, last, link)
  }

  lemma {:induction false} LinkTracked(cfg: Config, s: State, run: seq<Timed>, clock: int, link: Link)
    requires Valid(s) && Legal(cfg, s, run, clock) && TokenOf(s, link) && Open(s, link)
    ensures TokenOf(After(cfg, s, run), link)
    ensures Open(After(cfg, s, run), link) <==> !Spent(cfg, s, run, link)
  {
    if run != [] {
      var front, last := run[..|run| - 1], run[|run| - 1];
      LinkTracked(cfg, s, front, clock, link);
      RunKeepsValid(cfg, s, front, clock);
      var before := After(cfg, s, front);
      LinkStep(cfg, before, last, link);
      hide Valid, Fresh, Step, TokenOf, Open, Redeems, Supersedes;
      assert After(cfg, s, run) == Step(cfg, before, last);
    }
  }

  /**
   A link works at a moment exactly when its lifetime, counted from the operation that sent it, is not
   over, and since then neither was it redeemed nor did the same user get a newer one for the same purpose.
   */
  lemma LinkWorksIff(cfg: Config, s: State, sending: Timed, run: seq<Timed>, now: int)
    requires Valid(s) && Fresh(s, sending.op) && LinkSent(cfg, s, sending).Some?
    requires Legal(cfg, Step(cfg, s, sending), run, sending.now) && ClockAfter(sending.now, run) <= now
    ensures var link, s' := LinkSent(cfg, s, sending).value, Step(cfg, s, sending);
      Redeemable(After(cfg, s', run).tokens, link.raw, link.purpose, now) == Some(link.tokenId) <==>
        now <= link.expiresAt && !Spent(cfg, s', run, link)
  {
    var link, s' := LinkSent(cfg, s, sending).value, Step(cfg, s, sending);
    ApplyKeepsValid(cfg, s, sending.op, sending.now);
    SentIsStored(cfg, s, sending);
    LinkTracked(cfg, s', run, sending.now, link);
    RunKeepsValid(cfg, s', run, sending.now);
    hide Legal, After, Step, Spent, LinkSent, Applied, Fresh, DistinctEmails, DistinctSessions, OneOutstanding;
    assert FindToken(After(cfg, s', run).tokens, TokenHash(link.raw), link.purpose) == Some(link.tokenId);
  }

  // ---- what a refusal says ----

  /** A login is told that the account is disabled only by who knows its password; whether the address is known is never told. */
  lemma LoginRefusals(cfg: Config, s: State, email: string, password: string, sessionId: Id, raw: string, now: int)
    requires Valid(s)
    ensures var verdict := Applied(cfg, s, Login(email, password, sessionId, raw), now).1;
      && (verdict == Some(AccountDisabled) <==>
          exists id :: Addressed(s, id, cfg.normalize(email)) && PasswordOf(s, id) == Some(password) && !s.users[id].isActive)
      && (verdict.Some? && verdict != Some(AccountDisabled) ==> verdict == Some(InvalidCredentials))
  {
    hide DistinctSessions, DistinctTokens, OneOutstanding;
    var found := FindByEmail(s.users, cfg.normalize(email));
    if found.Some? {
      assert Addressed(s, found.value, cfg.normalize(email));
    }
  }

  /** A link that does not work is refused before the password is looked at; a short password is what a working one is refused for. */
  lemma ResetRefusals(cfg: Config, s: State, raw: string, password: string, now: int)
    ensures var verdict := Applied(cfg, s, ResetPassword(raw, password), now).1;
      && (verdict == Some(TokenInvalid) <==> Redeemable(s.tokens, raw, PasswordReset, now).None?)
      && (verdict == Some(WeakPassword) <==> Redeemable(s.tokens, raw, PasswordReset, now).Some? && |password| < 8)
  {
  }
}
