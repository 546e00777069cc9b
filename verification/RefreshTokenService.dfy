/** The service and the controller as the classes they are: one table, updated in place, and the cookies of one response. */
module RefreshTokenService {
  import opened Options
  import opened RefreshTokens

  /** `rotate` when nothing comes between its read, its decision and its claim. */
  function RotateAlone(table: Table, token: Token, successor: Token, now: int, limits: Limits): (Table, Outcome) {
    var stored := Find(table, token);
    match Judge(stored, now)
    case Refuse(reason) => (table, Rejected(reason))
    case KillChain => (RevokeFamilyRows(table, stored.value.family, now), Rejected(ReusedToken))
    case Proceed =>
      (ClaimRows(table, token, stored.value, successor, now, limits.idle),
       Rotated(successor, stored.value.lawyer, stored.value.expiresAt))
  }

  /** The steps of a call that nothing disturbs. */
  function Undisturbed(s: State, c: CallId, token: Token, successor: Token): seq<Event> {
    match Judge(Find(s.table, token), s.clock)
    case Refuse(_) => [Look(c, token), Decide(c)]
    case KillChain => [Look(c, token), Decide(c), Kill(c)]
    case Proceed => [Look(c, token), Decide(c), Claim(c, successor)]
  }

  /** They are exactly `RotateAlone`: same table, one answer, and no call left behind. */
  lemma UndisturbedRun(s: State, c: CallId, token: Token, successor: Token)
    requires c !in s.calls && FreshToken(s, successor) && token != successor
    ensures var run := Undisturbed(s, c, token, successor);
            var (table, outcome) := RotateAlone(s.table, token, successor, s.clock, s.past.limits);
            && Runs(s, run) && Answers(s, run) == [outcome]
            && Exec(s, run).table == table && Exec(s, run).calls == s.calls && Exec(s, run).clock == s.clock
  {
    var run := Undisturbed(s, c, token, successor);
    var s1 := s.(calls := s.calls[c := Looked(token, Find(s.table, token))]);
    var s2 := ApplyDecide(s1, c);
    assert Apply(s, Look(c, token)) == s1 && Apply(s1, Decide(c)) == s2;
    assert s2.calls - {c} == s.calls;
    if |run| == 2 {
      OneMore(s1, Decide(c), []);
      assert run == [Look(c, token)] + ([Decide(c)] + []);
      OneMore(s, Look(c, token), [Decide(c)] + []);
    } else {
      OneMore(s2, run[2], []);
      OneMore(s1, Decide(c), [run[2]] + []);
      assert run == [Look(c, token)] + ([Decide(c)] + ([run[2]] + []));
      OneMore(s, Look(c, token), [Decide(c)] + ([run[2]] + []));
    }
  }

  /** A logout that nothing disturbs, as steps: the read, and the revocation if it found a row. */
  function UndisturbedLogoutSteps(s: State, c: CallId, token: Token): seq<Event> {
    if token in s.table then [LogoutLook(c, token)] + ([LogoutRevoke(c)] + []) else [LogoutLook(c, token)] + []
  }

  /** It does to the table what `RevokeFamilyOf` does: dates the unrevoked rows of the token's family, and no others. */
  lemma UndisturbedLogout(s: State, c: CallId, token: Token)
    requires c !in s.calls
    ensures var run := UndisturbedLogoutSteps(s, c, token);
            && Runs(s, run) && Answers(s, run) == [] && Exec(s, run).calls == s.calls && Exec(s, run).past == s.past
            && Exec(s, run).table.Keys == s.table.Keys
            && forall k | k in s.table ::
                 if token in s.table && s.table[k].family == s.table[token].family && s.table[k].revokedAt.None?
                 then Exec(s, run).table[k] == s.table[k].(revokedAt := Some(s.clock)) else Exec(s, run).table[k] == s.table[k]
  {
    var look := LogoutLook(c, token);
    if token in s.table {
      var s1 := s.(calls := s.calls[c := Leaving(s.table[token].family)]);
      assert Apply(s, look) == s1;
      assert s1.calls - {c} == s.calls;
      OneMore(s1, LogoutRevoke(c), []);
      OneMore(s, look, [LogoutRevoke(c)] + []);
    } else {
      OneMore(s, look, []);
    }
  }

  ghost predicate InTime(s: State, f: Family)
    requires Known(s.past, f)
  {
    s.clock < s.past.births[f].at + s.past.limits.session && s.clock < LastAppend(s.past, f) + s.past.limits.idle
  }

  /** What the table says of a token once issued, from its history. */
  lemma RowTellsItsHistory(s: State, token: Token)
    requires Inv(s) && token in s.past.owner
    ensures var f := s.past.owner[token];
            && Known(s.past, f)
            && (token !in s.table <==> Gone(s.table, f))
            && (Live(s.table, token) ==> token == Tip(s.past, f))
            && (token in s.table ==> RowFits(s.past, token, s.table[token]))
  {
    if token in s.table {
      assert RowOk(s.past, token, s.table[token]);
    }
  }

  lemma LiveAnswers(s: State, token: Token, successor: Token, f: Family)
    requires Live(s.table, token) && Known(s.past, f) && token == Tip(s.past, f) && RowFits(s.past, token, s.table[token])
    requires s.past.owner[token] == f
    ensures RotateAlone(s.table, token, successor, s.clock, s.past.limits).1
            == if InTime(s, f) then Rotated(successor, s.past.births[f].lawyer, s.past.births[f].at + s.past.limits.session)
               else Rejected(Expired)
  {
  }

  lemma OtherAnswers(table: Table, token: Token, successor: Token, now: int, limits: Limits)
    requires !Live(table, token)
    ensures RotateAlone(table, token, successor, now, limits).1
            == if token !in table then Rejected(Unknown)
               else if now < table[token].revokedAt.value + RACE_WINDOW_MS then Rejected(Raced)
               else Rejected(ReusedToken)
  {
  }

  /** What a token once issued should be told, from what became of its family. */
  ghost function Deserved(s: State, token: Token, successor: Token, f: Family): Outcome
    requires Known(s.past, f) && (token !in s.table ==> Gone(s.table, f))
  {
    if Gone(s.table, f) then Rejected(Unknown)
    else if Live(s.table, token) then
      if InTime(s, f) then Rotated(successor, s.past.births[f].lawyer, s.past.births[f].at + s.past.limits.session)
      else Rejected(Expired)
    else if s.clock < s.table[token].revokedAt.value + RACE_WINDOW_MS then Rejected(Raced)
    else Rejected(ReusedToken)
  }

  /** And what an undisturbed call does tell it. */
  lemma WhatACallAnswers(s: State, token: Token, successor: Token)
    requires Inv(s) && token in s.past.owner
    ensures var f := s.past.owner[token];
            && Known(s.past, f) && (token !in s.table <==> Gone(s.table, f))
            && RotateAlone(s.table, token, successor, s.clock, s.past.limits).1 == Deserved(s, token, successor, f)
  {
    RowTellsItsHistory(s, token);
    if Live(s.table, token) {
      LiveAnswers(s, token, successor, s.past.owner[token]);
    } else {
      OtherAnswers(s.table, token, successor, s.clock, s.past.limits);
    }
  }

  lemma OneMore(s: State, e: Event, es: seq<Event>)
    requires Enabled(s, e) && Runs(Apply(s, e), es)
    ensures Runs(s, [e] + es) && Exec(s, [e] + es) == Exec(Apply(s, e), es)
    ensures Answers(s, [e] + es) == AsList(Answer(s, e)) + Answers(Apply(s, e), es)
  {
    assert ([e] + es)[1..] == es;
  }

  /** What the rows of one family have in common. */
  predicate SameSession(a: Row, b: Row) {
    a.family == b.family && a.lawyer == b.lawyer && a.expiresAt == b.expiresAt
  }

  class Service {
    const limits: Limits
    var rows: Table

    constructor (limits: Limits)
      ensures this.limits == limits && rows == map[]
    {
      this.limits := limits;
      rows := map[];
    }

    method Issue(lawyer: Lawyer, family: Family, token: Token, now: int) returns (expiresAt: int)
      modifies this
      ensures expiresAt == now + limits.session
      ensures rows == AppendRow(old(rows), token, lawyer, family, expiresAt, now + limits.idle)
    {
      expiresAt := now + limits.session;
      Append(lawyer, family, expiresAt, token, now);
    }

    /** Between two awaits: the caller may hold a `stored` that other calls have since outdated. */
    method Decide(stored: Option<Row>, now: int) returns (verdict: Verdict)
      ensures verdict == Judge(stored, now)
    {
      if stored.None? {
        return Refuse(Unknown);
      }
      var row := stored.value;
      if row.revokedAt.Some? {
        if now - row.revokedAt.value < RACE_WINDOW_MS {
          return Refuse(Raced);
        }
        return KillChain;
      }
      if row.expiresAt <= now || row.idleExpiresAt <= now {
        return Refuse(Expired);
      }
      return Proceed;
    }

    /** The transaction of `rotate`, on the table as it now is. */
    method ClaimAndAppend(token: Token, stored: Row, successor: Token, now: int) returns (claimed: bool)
      modifies this
      ensures claimed == Live(old(rows), token)
      ensures rows == if claimed then ClaimRows(old(rows), token, stored, successor, now, limits.idle) else old(rows)
    {
      claimed := token in rows && rows[token].revokedAt.None?;
      if claimed {
        rows := rows[token := rows[token].(revokedAt := Some(now))];
        Append(stored.lawyer, stored.family, stored.expiresAt, successor, now);
      }
    }

    method Rotate(token: Token, successor: Token, now: int) returns (outcome: Outcome)
      modifies this
      ensures (rows, outcome) == RotateAlone(old(rows), token, successor, now, limits)
    {
      var stored := if token in rows then Some(rows[token]) else None;
      var verdict := Decide(stored, now);
      match verdict
      case Refuse(reason) => outcome := Rejected(reason);
      case KillChain =>
        RevokeFamily(stored.value.family, now);
        outcome := Rejected(ReusedToken);
      case Proceed =>
        var claimed := ClaimAndAppend(token, stored.value, successor, now);
        outcome := if claimed then Rotated(successor, stored.value.lawyer, stored.value.expiresAt) else Rejected(Raced);
    }

    method RevokeFamilyOf(token: Token, now: int)
      modifies this
      ensures rows == if token in old(rows) then RevokeFamilyRows(old(rows), old(rows)[token].family, now) else old(rows)
      ensures rows.Keys == old(rows).Keys
      ensures forall k | k in rows ::
                if token in old(rows) && old(rows)[k].family == old(rows)[token].family && old(rows)[k].revokedAt.None?
                then rows[k] == old(rows)[k].(revokedAt := Some(now)) else rows[k] == old(rows)[k]
    {
      if token in rows {
        RevokeFamily(rows[token].family, now);
      }
    }

    method PurgeExpired(lawyer: Lawyer, now: int)
      modifies this
      ensures forall k | k in rows :: k in old(rows) && rows[k] == old(rows)[k]
      ensures forall k | k in old(rows) :: k !in rows <==> old(rows)[k].lawyer == lawyer && old(rows)[k].expiresAt < now
      ensures forall j, k | j in old(rows) && k in old(rows) && SameSession(old(rows)[j], old(rows)[k]) :: j in rows <==> k in rows
    {
      rows := map k | k in rows && !(rows[k].lawyer == lawyer && rows[k].expiresAt < now) :: rows[k];
    }

    method Append(lawyer: Lawyer, family: Family, expiresAt: int, token: Token, now: int)
      modifies this
      ensures rows == AppendRow(old(rows), token, lawyer, family, expiresAt, now + limits.idle)
    {
      rows := rows[token := Row(family, lawyer, expiresAt, now + limits.idle, None)];
    }

    method RevokeFamily(family: Family, now: int)
      modifies this
      ensures rows == RevokeFamilyRows(old(rows), family, now)
    {
      rows := map k | k in rows ::
        if rows[k].family == family && rows[k].revokedAt.None? then rows[k].(revokedAt := Some(now)) else rows[k];
    }
  }

  // ---------------------------------------------------------------------
  // The controller
  // ---------------------------------------------------------------------

  /** What an answer does to the refresh cookie of the browser. */
  datatype CookieChange = Keep | Set(token: Token, maxAge: int) | Clear

  /** Lines 97-111: a rotation sets, a race keeps, every other refusal clears. */
  function EffectOf(outcome: Outcome, now: int): CookieChange {
    match outcome
    case Rotated(successor, _, expiresAt) => Set(successor, expiresAt - now)
    case Rejected(reason) => if reason == Raced then Keep else Clear
  }

  /** What it does to the access cookie: the two are set together and cleared together. */
  datatype AccessChange = Untouched | AccessFor(lawyer: Lawyer) | Dropped

  /** `cookie` is the refresh cookie, `access` the short-lived one. */
  class Response {
    var status: int
    var cookie: CookieChange
    var access: AccessChange

    constructor ()
      ensures cookie == Keep && access == Untouched && status == 200
    {
      status, cookie, access := 200, Keep, Untouched;
    }

    method SetSessionCookies(lawyer: Lawyer, token: Token, expiresAt: int, now: int)
      modifies this
      ensures status == old(status) && cookie == Set(token, expiresAt - now) && access == AccessFor(lawyer)
    {
      access := AccessFor(lawyer);
      cookie := Set(token, expiresAt - now);
    }

    method ClearSessionCookies()
      modifies this
      ensures status == old(status) && cookie == Clear && access == Dropped
    {
      access := Dropped;
      cookie := Clear;
    }
  }

  /**
   * What follows the rotation, once it has committed: the account is read again and an access token is signed.
   * Either may throw, and there may be no account.
   */
  datatype Renewal = Renewed | NoAccount | Broken

  /** What the endpoint then does to the refresh cookie: a thrown error answers 500, and carries none. */
  function EffectOfRenewal(renewal: Renewal, successor: Token, expiresAt: int, now: int): CookieChange {
    match renewal
    case Renewed => Set(successor, expiresAt - now)
    case NoAccount => EffectOf(Rejected(Unknown), now)
    case Broken => Keep
  }

  /** The token's row was revoked strictly after `since`. */
  predicate RevokedSince(rows: Table, token: Token, since: int) {
    token in rows && rows[token].revokedAt.Some? && rows[token].revokedAt.value > since
  }

  /** The token's row is unrevoked and strictly before both its deadlines. */
  predicate Usable(rows: Table, token: Token, now: int) {
    token in rows && rows[token].revokedAt.None? && now < rows[token].expiresAt && now < rows[token].idleExpiresAt
  }

  class AuthController {
    const tokens: Service

    constructor (tokens: Service)
      ensures this.tokens == tokens
    {
      this.tokens := tokens;
    }

    /**
     * A row revoked within the race window leaves both cookies alone; a token unknown, expired or revoked longer
     * ago drops both; a rotation sets both, unless what follows it finds no account or throws. The rotation itself
     * stays committed.
     */
    method Refresh(presented: Option<Token>, successor: Token, renewal: Renewal, now: int, response: Response)
      modifies tokens, response
      ensures presented.None? ==>
                tokens.rows == old(tokens.rows) && response.cookie == old(response.cookie) && response.access == old(response.access)
                && response.status == 401
      ensures presented.Some? ==>
                var (rows, outcome) := RotateAlone(old(tokens.rows), presented.value, successor, now, tokens.limits);
                var effect := if outcome.Rotated? then EffectOfRenewal(renewal, successor, outcome.expiresAt, now) else EffectOf(outcome, now);
                && tokens.rows == rows
                && response.cookie == (if effect.Keep? then old(response.cookie) else effect)
      ensures presented.Some? && RevokedSince(old(tokens.rows), presented.value, now - 30_000) ==>
                && response.status == 401 && response.cookie == old(response.cookie) && response.access == old(response.access)
                && tokens.rows == old(tokens.rows)
      ensures presented.Some? && !RevokedSince(old(tokens.rows), presented.value, now - 30_000) && !Usable(old(tokens.rows), presented.value, now) ==>
                response.status == 401 && response.cookie == Clear && response.access == Dropped
      ensures presented.Some? && Usable(old(tokens.rows), presented.value, now) ==>
                var row := old(tokens.rows)[presented.value];
                match renewal
                case Renewed =>
                  && response.status == 200 && response.access == AccessFor(row.lawyer)
                  && response.cookie.Set? && response.cookie.token == successor && now + response.cookie.maxAge == row.expiresAt
                case NoAccount => response.status == 401 && response.cookie == Clear && response.access == Dropped
                case Broken => response.status == 500 && response.cookie == old(response.cookie) && response.access == old(response.access)
      ensures presented.Some? && presented.value != successor && Usable(old(tokens.rows), presented.value, now) ==>
                var row := old(tokens.rows)[presented.value];
                && tokens.rows.Keys == old(tokens.rows).Keys + {successor}
                && tokens.rows[presented.value] == row.(revokedAt := Some(now))
                && tokens.rows[successor] == Row(row.family, row.lawyer, row.expiresAt, now + tokens.limits.idle, None)
                && forall k | k in old(tokens.rows) && k != presented.value && k != successor :: tokens.rows[k] == old(tokens.rows)[k]
    {
      if presented.None? {
        response.status := 401;
        return;
      }
      var outcome := tokens.Rotate(presented.value, successor, now);
      if outcome.Rotated? && renewal.Broken? {
        response.status := 500;
        return;
      }
      if outcome.Rotated? && renewal.NoAccount? {
        outcome := Rejected(Unknown);
      }
      if outcome.Rejected? {
        if outcome.reason != Raced {
          response.ClearSessionCookies();
        }
        response.status := 401;
        return;
      }
      response.SetSessionCookies(outcome.lawyer, outcome.successor, outcome.expiresAt, now);
      response.status := 200;
    }

    /** Login: the purge, then a new chain whose token goes to the cookie with what remains of the session. */
    method Login(lawyer: Lawyer, family: Family, token: Token, now: int, response: Response)
      modifies tokens, response
      ensures var limits := tokens.limits;
              tokens.rows == AppendRow(PurgeRows(old(tokens.rows), lawyer, now), token, lawyer, family, now + limits.session, now + limits.idle)
      ensures response.status == 200 && response.cookie == Set(token, tokens.limits.session) && response.access == AccessFor(lawyer)
    {
      tokens.PurgeExpired(lawyer, now);
      assert tokens.rows == PurgeRows(old(tokens.rows), lawyer, now);
      var expiresAt := tokens.Issue(lawyer, family, token, now);
      response.SetSessionCookies(lawyer, token, expiresAt, now);
      response.status := 200;
    }

    /** Whatever was presented, the cookie goes; the chain is closed if the token is known. */
    method Logout(presented: Option<Token>, now: int, response: Response)
      modifies tokens, response
      ensures response.cookie == Clear && response.access == Dropped && response.status == 204
      ensures forall k | k in tokens.rows :: k in old(tokens.rows) && (tokens.rows[k] == old(tokens.rows)[k] || tokens.rows[k].revokedAt == Some(now))
      ensures presented.Some? && presented.value in old(tokens.rows) ==>
                tokens.rows == RevokeFamilyRows(old(tokens.rows), old(tokens.rows)[presented.value].family, now)
      ensures presented.None? || presented.value !in old(tokens.rows) ==> tokens.rows == old(tokens.rows)
    {
      if presented.Some? {
        tokens.RevokeFamilyOf(presented.value, now);
      }
      response.ClearSessionCookies();
      response.status := 204;
    }
  }
}
