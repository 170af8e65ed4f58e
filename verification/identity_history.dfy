/**
 Whole histories of the account service: what any run of operations, one after another and on a
 clock that never goes back, says about one session and about one recovery token.
 */
module IdentityHistory {
  import opened Common
  import opened Identity

  datatype Timed = Timed(op: Op, now: int)

  ghost function After(cfg: Config, s: State, run: seq<Timed>): State
  {
    if run == [] then s else Step(cfg, After(cfg, s, run[..|run| - 1]), run[|run| - 1])
  }

  ghost function Step(cfg: Config, s: State, timed: Timed): State
  {
    Applied(cfg, s, timed.op, timed.now).0
  }

  function ClockAfter(clock: int, run: seq<Timed>): int
  {
    if run == [] then clock else run[|run| - 1].now
  }

  /** Every operation brings fresh identifiers and no clock reading is earlier than the one before. */
  ghost predicate Legal(cfg: Config, s: State, run: seq<Timed>, clock: int)
  {
    run == [] ||
    var front := run[..|run| - 1];
    var last := run[|run| - 1];
    Legal(cfg, s, front, clock) && ClockAfter(clock, front) <= last.now && Fresh(After(cfg, s, front), last.op)
  }

  lemma {:induction false} RunKeepsValid(cfg: Config, s: State, run: seq<Timed>, clock: int)
    requires Valid(s) && Legal(cfg, s, run, clock)
    ensures Valid(After(cfg, s, run)) && clock <= ClockAfter(clock, run)
  {
    if run != [] {
      var front := run[..|run| - 1];
      RunKeepsValid(cfg, s, front, clock);
      hide Valid, Fresh, Applied;
      ApplyKeepsValid(cfg, After(cfg, s, front), run[|run| - 1].op, run[|run| - 1].now);
    }
  }

  // ---- sessions ----

  /** The user whose sessions a recovery link ends when the operation succeeds. */
  ghost predicate LinkEnds(cfg: Config, s: State, timed: Timed, raw: string, purpose: Purpose, userId: Id)
  {
    var token := Redeemable(s.tokens, raw, purpose, timed.now);
    token.Some? && Applied(cfg, s, timed.op, timed.now).1.None? && s.tokens[token.value].userId == userId
  }

  /** The operation ends this session of this user. */
  ghost predicate Ends(cfg: Config, s: State, timed: Timed, sessionId: Id, userId: Id)
  {
    match timed.op
    case Logout(id) => id == sessionId
    case LogoutAll(user) => user == userId
    case ChangePassword(user, current, password, keep) =>
      user == userId && keep != sessionId && PasswordMatches(s.users, user, current) && |password| >= MIN_PASSWORD_LENGTH
    case ResetPassword(raw, _) => LinkEnds(cfg, s, timed, raw, PasswordReset, userId)
    case ConfirmEmailChange(raw) => LinkEnds(cfg, s, timed, raw, EmailChange, userId)
    case _ => false
  }

  ghost predicate Ended(cfg: Config, s: State, run: seq<Timed>, sessionId: Id, userId: Id)
  {
    exists k :: 0 <= k < |run| && Ends(cfg, After(cfg, s, run[..k]), run[k], sessionId, userId)
  }

  /** When the session was logged in and every time its token was presented since, in order. */
  function Presented(start: int, run: seq<Timed>, raw: string): seq<int>
    ensures |Presented(start, run, raw)| > 0
  {
    if run == [] then [start]
    else
      var front := Presented(start, run[..|run| - 1], raw);
      if run[|run| - 1].op == ValidateSession(raw) then front + [run[|run| - 1].now] else front
  }

  predicate GapsWithin(times: seq<int>, idleTtl: int)
  {
    forall k :: 0 < k < |times| ==> times[k] - times[k - 1] <= idleTtl
  }

  function Last(times: seq<int>): int
    requires |times| > 0
  {
    times[|times| - 1]
  }

  lemma EndsSession(cfg: Config, s: State, timed: Timed, sessionId: Id)
    requires Valid(s) && Fresh(s, timed.op) && sessionId in s.sessions
    ensures var s' := Step(cfg, s, timed);
      && sessionId in s'.sessions
      && s'.sessions[sessionId].(revokedAt := None, lastSeenAt := 0) == s.sessions[sessionId].(revokedAt := None, lastSeenAt := 0)
      && (s'.sessions[sessionId].revokedAt.Some? <==>
          s.sessions[sessionId].revokedAt.Some? || Ends(cfg, s, timed, sessionId, s.sessions[sessionId].userId))
  {
    hide Issued, MarkedUsed, WithPassword, DistinctEmails, DistinctTokens, OneOutstanding, FreshToken;
    match timed.op
    case Logout(_) =>
    case LogoutAll(_) =>
    case ChangePassword(_, _, _, _) =>
    case ResetPassword(_, _) =>
    case ConfirmEmailChange(_) =>
    case _ =>
  }

  lemma TouchesSession(cfg: Config, s: State, timed: Timed, sessionId: Id)
    requires Valid(s) && Fresh(s, timed.op) && sessionId in s.sessions
    ensures var s' := Step(cfg, s, timed);
      var session := s.sessions[sessionId];
      && sessionId in s'.sessions
      && s'.sessions[sessionId].lastSeenAt ==
         if timed.op == ValidateSession(session.tokenHash.raw) && SessionUsable(session, cfg.idleTtl, timed.now) then timed.now
         else session.lastSeenAt
  {
    hide Issued, MarkedUsed, WithPassword, DistinctEmails, DistinctTokens, OneOutstanding, FreshToken, SessionUsable;
    match timed.op
    case ValidateSession(raw) =>
    case Login(_, _, _, _) =>
    case _ =>
  }

  ghost predicate SameSession(session: Session, session': Session)
  {
    session.userId == session'.userId && session.tokenHash == session'.tokenHash && session.expiresAt == session'.expiresAt
  }

  lemma {:induction false} EndedStep(cfg: Config, s: State, run: seq<Timed>, sessionId: Id, userId: Id)
    requires run != []
    ensures Ended(cfg, s, run, sessionId, userId) <==>
      Ended(cfg, s, run[..|run| - 1], sessionId, userId)
      || Ends(cfg, After(cfg, s, run[..|run| - 1]), run[|run| - 1], sessionId, userId)
  {
    hide Ends, After;
    var front := run[..|run| - 1];
    assert forall k :: 0 <= k < |front| ==> front[..k] == run[..k];
    if Ended(cfg, s, front, sessionId, userId) {
      var k :| 0 <= k < |front| && Ends(cfg, After(cfg, s, front[..k]), front[k], sessionId, userId);
      assert Ends(cfg, After(cfg, s, run[..k]), run[k], sessionId, userId);
    }
    if Ended(cfg, s, run, sessionId, userId) {
      var k :| 0 <= k < |run| && Ends(cfg, After(cfg, s, run[..k]), run[k], sessionId, userId);
      if k < |front| {
        assert Ends(cfg, After(cfg, s, front[..k]), front[k], sessionId, userId);
      }
    }
  }

  /** What a session's record holds after any run, told from the history alone. */
  ghost predicate Tracked(session: Session, was: Session, ended: bool, presented: seq<int>, idleTtl: int)
    requires |presented| > 0
  {
    && SameSession(session, was)
    && (session.revokedAt.Some? <==> ended)
    && session.lastSeenAt <= Last(presented)
    && (GapsWithin(presented, idleTtl) && Last(presented) <= was.expiresAt && !ended ==> session.lastSeenAt == Last(presented))
    && (!GapsWithin(presented, idleTtl) ==> Last(presented) - session.lastSeenAt > idleTtl)
  }

  lemma GapsStep(times: seq<int>, time: int, idleTtl: int)
    requires |times| > 0
    ensures GapsWithin(times + [time], idleTtl) <==> GapsWithin(times, idleTtl) && time - Last(times) <= idleTtl
  {
    var longer := times + [time];
    assert longer[|times|] == time && longer[|times| - 1] == Last(times);
    assert forall k :: 0 <= k < |times| ==> longer[k] == times[k];
  }

  lemma {:induction false} SessionTracked(cfg: Config, s: State, run: seq<Timed>, start: int, sessionId: Id)
    requires Valid(s) && Legal(cfg, s, run, start) && sessionId in s.sessions
    requires s.sessions[sessionId].lastSeenAt == start && s.sessions[sessionId].revokedAt.None?
    ensures var was := s.sessions[sessionId];
      var presented := Presented(start, run, was.tokenHash.raw);
      && Last(presented) <= ClockAfter(start, run)
      && sessionId in After(cfg, s, run).sessions
      && Tracked(After(cfg, s, run).sessions[sessionId], was, Ended(cfg, s, run, sessionId, was.userId), presented, cfg.idleTtl)
  {
    var was := s.sessions[sessionId];
    if run == [] {
      assert Presented(start, run, was.tokenHash.raw) == [start];
      assert !Ended(cfg, s, run, sessionId, was.userId);
    } else {
      var front, last := run[..|run| - 1], run[|run| - 1];
      SessionTracked(cfg, s, front, start, sessionId);
      RunKeepsValid(cfg, s, front, start);
      var before := After(cfg, s, front);
      EndedStep(cfg, s, run, sessionId, was.userId);
      EndsSession(cfg, before, last, sessionId);
      TouchesSession(cfg, before, last, sessionId);
      GapsStep(Presented(start, front, was.tokenHash.raw), last.now, cfg.idleTtl);
      hide Step, Ended, Ends, GapsWithin, Fresh, Valid;
      assert After(cfg, s, run) == Step(cfg, before, last);
    }
  }

  /**
   A session validates at a moment exactly when nothing has ended it, its lifetime has not passed,
   and no pause between its login, the times it was presented, and now is longer than the idle limit.
   */
  lemma ValidatesIff(cfg: Config, s: State, run: seq<Timed>, start: int, sessionId: Id, now: int)
    requires Valid(s) && Legal(cfg, s, run, start) && ClockAfter(start, run) <= now
    requires sessionId in s.sessions && s.sessions[sessionId].lastSeenAt == start && s.sessions[sessionId].revokedAt.None?
    ensures var was := s.sessions[sessionId];
      var raw := was.tokenHash.raw;
      Applied(cfg, After(cfg, s, run), ValidateSession(raw), now).1.None? <==>
        && !Ended(cfg, s, run, sessionId, was.userId)
        && now <= was.expiresAt
        && GapsWithin(Presented(start, run, raw) + [now], cfg.idleTtl)
  {
    var was := s.sessions[sessionId];
    SessionTracked(cfg, s, run, start, sessionId);
    RunKeepsValid(cfg, s, run, start);
    GapsStep(Presented(start, run, was.tokenHash.raw), now, cfg.idleTtl);
    hide Ended, GapsWithin, After, Legal;
    assert After(cfg, s, run).sessions[sessionId].tokenHash == TokenHash(was.tokenHash.raw);
  }

  /** Logging in opens such a session: unrevoked, last seen now, and living for the absolute lifetime. */
  lemma LoginOpens(cfg: Config, s: State, email: string, password: string, sessionId: Id, raw: string, now: int)
    ensures var (s', verdict) := Applied(cfg, s, Login(email, password, sessionId, raw), now);
      && (verdict.None? ==>
          && sessionId in s'.sessions
          && s'.sessions[sessionId].tokenHash == TokenHash(raw)
          && s'.sessions[sessionId].revokedAt.None?
          && s'.sessions[sessionId].lastSeenAt == now
          && s'.sessions[sessionId].expiresAt == now + cfg.absoluteTtl
          && FindByEmail(s.users, cfg.normalize(email)) == Some(s'.sessions[sessionId].userId))
      && (verdict.None? <==>
          exists id :: FindByEmail(s.users, cfg.normalize(email)) == Some(id)
            && s.users[id].passwordHash == PasswordHash(password) && s.users[id].isActive)
  {
    var found := FindByEmail(s.users, cfg.normalize(email));
    if found.Some? {
      assert found == Some(found.value);
    }
  }

  ghost predicate Usable(cfg: Config, s: State, sessionId: Id, now: int)
  {
    sessionId in s.sessions && SessionUsable(s.sessions[sessionId], cfg.idleTtl, now)
  }

  /** Once a session stops validating, nothing that happens later makes it validate again. */
  lemma {:induction false} InvalidForever(cfg: Config, s: State, run: seq<Timed>, clock: int, sessionId: Id, now: int)
    requires Valid(s) && Legal(cfg, s, run, clock) && sessionId in s.sessions
    requires !Usable(cfg, s, sessionId, clock) && ClockAfter(clock, run) <= now
    ensures sessionId in After(cfg, s, run).sessions && !Usable(cfg, After(cfg, s, run), sessionId, now)
  {
    if run != [] {
      var front, last := run[..|run| - 1], run[|run| - 1];
      InvalidForever(cfg, s, front, clock, sessionId, last.now);
      RunKeepsValid(cfg, s, front, clock);
      EndsSession(cfg, After(cfg, s, front), last, sessionId);
      TouchesSession(cfg, After(cfg, s, front), last, sessionId);
      hide Step, Ends, Valid, Fresh;
      assert After(cfg, s, run) == Step(cfg, After(cfg, s, front), last);
    }
  }

  /** A password reset or an email change of this user that succeeds. */
  ghost predicate Recovers(cfg: Config, s: State, timed: Timed, userId: Id)
  {
    match timed.op
    case ResetPassword(raw, _) => LinkEnds(cfg, s, timed, raw, PasswordReset, userId)
    case ConfirmEmailChange(raw) => LinkEnds(cfg, s, timed, raw, EmailChange, userId)
    case _ => false
  }

  /** After a completed reset or email change no session that existed before it ever validates again. */
  lemma RecoveryEndsSessions(cfg: Config, s: State, done: Timed, run: seq<Timed>, sessionId: Id, userId: Id, now: int)
    requires Valid(s) && Fresh(s, done.op) && sessionId in s.sessions && s.sessions[sessionId].userId == userId
    requires Recovers(cfg, s, done, userId)
    requires Legal(cfg, Step(cfg, s, done), run, done.now) && ClockAfter(done.now, run) <= now
    ensures !Usable(cfg, After(cfg, Step(cfg, s, done), run), sessionId, now)
  {
    EndsSession(cfg, s, done, sessionId);
    ApplyKeepsValid(cfg, s, done.op, done.now);
    var s' := Step(cfg, s, done);
    assert Ends(cfg, s, done, sessionId, userId);
    hide Applied, Valid, Fresh, LinkEnds, Legal;
    InvalidForever(cfg, s', run, done.now, sessionId, now);
  }

  // ---- recovery tokens ----

  /** The operation redeems this token. */
  ghost predicate Redeems(s: State, timed: Timed, tokenId: Id)
  {
    match timed.op
    case ResetPassword(raw, _) => Redeemable(s.tokens, raw, PasswordReset, timed.now) == Some(tokenId)
    case ConfirmVerification(raw) => Redeemable(s.tokens, raw, EmailVerification, timed.now) == Some(tokenId)
    case ConfirmEmailChange(raw) => Redeemable(s.tokens, raw, EmailChange, timed.now) == Some(tokenId)
    case _ => false
  }

  /** The operation brings this token's link, for the purpose the token was issued for. */
  predicate Presents(op: Op, token: Token)
  {
    match op
    case ResetPassword(raw, _) => token.tokenHash == TokenHash(raw) && token.purpose == PasswordReset
    case ConfirmVerification(raw) => token.tokenHash == TokenHash(raw) && token.purpose == EmailVerification
    case ConfirmEmailChange(raw) => token.tokenHash == TokenHash(raw) && token.purpose == EmailChange
    case _ => false
  }

  /** A link works only for its own purpose, until it expires, while it is neither used nor superseded. */
  lemma RedeemedForItsPurpose(s: State, timed: Timed, tokenId: Id)
    requires Valid(s)
    ensures Redeems(s, timed, tokenId) <==>
      && tokenId in s.tokens && Outstanding(s.tokens[tokenId]) && timed.now <= s.tokens[tokenId].expiresAt
      && Presents(timed.op, s.tokens[tokenId])
  {
    hide DistinctEmails, DistinctSessions, OneOutstanding;
    match timed.op
    case ResetPassword(_, _) =>
    case ConfirmVerification(_) =>
    case ConfirmEmailChange(_) =>
    case _ =>
  }

  predicate SpentAs(token: Token, was: Token)
  {
    !Outstanding(token) && token.tokenHash == was.tokenHash && token.purpose == was.purpose
  }

  lemma IssueSpares(tokens: map<Id, Token>, userId: Id, purpose: Purpose, tokenId: Id, raw: string, expiresAt: int, now: int, id: Id)
    requires id in tokens && id != tokenId && !Outstanding(tokens[id])
    ensures var tokens' := Issued(tokens, userId, purpose, tokenId, raw, expiresAt, now);
      id in tokens' && SpentAs(tokens'[id], tokens[id])
  {
  }

  /** A spent or superseded token stays so, and redeeming a token spends it. */
  lemma SpentStays(cfg: Config, s: State, timed: Timed, tokenId: Id)
    requires Valid(s) && Fresh(s, timed.op) && tokenId in s.tokens
    requires !Outstanding(s.tokens[tokenId]) || Redeems(s, timed, tokenId)
    ensures var s' := Step(cfg, s, timed);
      tokenId in s'.tokens && SpentAs(s'.tokens[tokenId], s.tokens[tokenId])
  {
    hide Valid, Issued, RevokedAll, WithPassword;
    match timed.op
    case Register(_, _, userId, id, raw) =>
      IssueSpares(s.tokens, userId, EmailVerification, id, raw, timed.now + cfg.verificationTtl, timed.now, tokenId);
    case ForgotPassword(email, id, raw) =>
      var found := FindByEmail(s.users, cfg.normalize(email));
      if found.Some? {
        IssueSpares(s.tokens, found.value, PasswordReset, id, raw, timed.now + cfg.resetTtl, timed.now, tokenId);
      }
    case ResendVerification(userId, _, id, raw) =>
      IssueSpares(s.tokens, userId, EmailVerification, id, raw, timed.now + cfg.verificationTtl, timed.now, tokenId);
    case RequestEmailChange(userId, _, _, id, raw) =>
      IssueSpares(s.tokens, userId, EmailChange, id, raw, timed.now + cfg.verificationTtl, timed.now, tokenId);
    case _ =>
  }

  lemma {:induction false} SpentForever(cfg: Config, s: State, run: seq<Timed>, clock: int, tokenId: Id)
    requires Valid(s) && Legal(cfg, s, run, clock) && tokenId in s.tokens && !Outstanding(s.tokens[tokenId])
    ensures tokenId in After(cfg, s, run).tokens && SpentAs(After(cfg, s, run).tokens[tokenId], s.tokens[tokenId])
  {
    if run != [] {
      var front, last := run[..|run| - 1], run[|run| - 1];
      SpentForever(cfg, s, front, clock, tokenId);
      RunKeepsValid(cfg, s, front, clock);
      SpentStays(cfg, After(cfg, s, front), last, tokenId);
      hide Step, Valid, Fresh;
      assert After(cfg, s, run) == Step(cfg, After(cfg, s, front), last);
    }
  }

  lemma {:induction false} AfterJoin(cfg: Config, s: State, first: seq<Timed>, rest: seq<Timed>, clock: int)
    requires Legal(cfg, s, first + rest, clock)
    ensures Legal(cfg, s, first, clock) && Legal(cfg, After(cfg, s, first), rest, ClockAfter(clock, first))
    ensures After(cfg, s, first + rest) == After(cfg, After(cfg, s, first), rest)
    ensures ClockAfter(ClockAfter(clock, first), rest) == ClockAfter(clock, first + rest)
    decreases |rest|
  {
    if rest == [] {
      assert first + rest == first;
    } else {
      var front := rest[..|rest| - 1];
      assert (first + rest)[..|first + rest| - 1] == first + front;
      assert (first + rest)[|first + rest| - 1] == rest[|rest| - 1];
      AfterJoin(cfg, s, first, front, clock);
      hide Step, Fresh;
    }
  }

  /** The part of a run between two of its points is a run from the state at the first to the state at the second. */
  lemma Between(cfg: Config, s: State, run: seq<Timed>, clock: int, i: nat, j: nat)
    requires Valid(s) && Legal(cfg, s, run, clock) && i <= j <= |run|
    ensures Valid(After(cfg, s, run[..i])) && Valid(After(cfg, s, run[..j]))
    ensures Legal(cfg, After(cfg, s, run[..i]), run[i..j], ClockAfter(clock, run[..i]))
    ensures After(cfg, After(cfg, s, run[..i]), run[i..j]) == After(cfg, s, run[..j])
  {
    hide Valid, Fresh, Legal, After;
    assert run == run[..j] + run[j..];
    AfterJoin(cfg, s, run[..j], run[j..], clock);
    assert run[..j] == run[..i] + run[i..j];
    AfterJoin(cfg, s, run[..i], run[i..j], clock);
    RunKeepsValid(cfg, s, run[..i], clock);
    RunKeepsValid(cfg, s, run[..j], clock);
  }

  lemma OneStep(cfg: Config, s: State, run: seq<Timed>, clock: int, i: nat)
    requires Valid(s) && Legal(cfg, s, run, clock) && i < |run|
    ensures Fresh(After(cfg, s, run[..i]), run[i].op)
    ensures After(cfg, s, run[..i + 1]) == Step(cfg, After(cfg, s, run[..i]), run[i])
  {
    assert run == run[..i + 1] + run[i + 1..];
    AfterJoin(cfg, s, run[..i + 1], run[i + 1..], clock);
    hide Valid, Fresh, Step;
    assert run[..i + 1][..i] == run[..i] && run[..i + 1][i] == run[i];
  }

  /** Over any run a recovery link is redeemed at most once. */
  lemma RedeemedOnce(cfg: Config, s: State, run: seq<Timed>, clock: int, i: nat, j: nat, tokenId: Id)
    requires Valid(s) && Legal(cfg, s, run, clock) && i < j < |run|
    requires Redeems(After(cfg, s, run[..i]), run[i], tokenId)
    ensures !Redeems(After(cfg, s, run[..j]), run[j], tokenId)
  {
    hide Step, Valid, Fresh, Legal, After, Redeems;
    var at := After(cfg, s, run[..i]);
    Between(cfg, s, run, clock, i, i + 1);
    OneStep(cfg, s, run, clock, i);
    RedeemedForItsPurpose(at, run[i], tokenId);
    SpentStays(cfg, at, run[i], tokenId);
    Between(cfg, s, run, clock, i + 1, j);
    SpentForever(cfg, After(cfg, s, run[..i + 1]), run[i + 1..j], ClockAfter(clock, run[..i + 1]), tokenId);
    RedeemedForItsPurpose(After(cfg, s, run[..j]), run[j], tokenId);
  }

  /** A reset succeeds exactly when its link still works and the new password is long enough. */
  lemma ResetSucceedsIff(cfg: Config, s: State, raw: string, password: string, now: int)
    requires Valid(s)
    ensures Applied(cfg, s, ResetPassword(raw, password), now).1.None? <==>
      |password| >= MIN_PASSWORD_LENGTH && exists id :: Redeems(s, Timed(ResetPassword(raw, password), now), id)
  {
    var token := Redeemable(s.tokens, raw, PasswordReset, now);
    if token.Some? {
      assert Redeems(s, Timed(ResetPassword(raw, password), now), token.value);
    }
  }

  /** A short password costs the link: the refused reset spends it, and no later attempt with it can succeed. */
  lemma ShortPasswordSpendsLink(cfg: Config, s: State, raw: string, short: string, now: int, run: seq<Timed>, password: string, later: int)
    requires Valid(s) && |short| < MIN_PASSWORD_LENGTH && Redeemable(s.tokens, raw, PasswordReset, now).Some?
    requires var s' := Step(cfg, s, Timed(ResetPassword(raw, short), now));
      Legal(cfg, s', run, now) && ClockAfter(now, run) <= later
    ensures var s' := Step(cfg, s, Timed(ResetPassword(raw, short), now));
      && Applied(cfg, s, ResetPassword(raw, short), now).1 == Some(WeakPassword)
      && s'.users == s.users && s'.sessions == s.sessions
      && Applied(cfg, After(cfg, s', run), ResetPassword(raw, password), later).1 == Some(TokenInvalid)
  {
    var tried := Timed(ResetPassword(raw, short), now);
    var id := Redeemable(s.tokens, raw, PasswordReset, now).value;
    var s' := Step(cfg, s, tried);
    SpentStays(cfg, s, tried, id);
    ApplyKeepsValid(cfg, s, tried.op, now);
    SpentForever(cfg, s', run, now, id);
    RunKeepsValid(cfg, s', run, now);
    hide Legal, After, Fresh;
  }
}
