/** Safety of the links over every run of interleaved creations, regenerations and revocations. */
module PublicLinkProofs {
  import opened Options
  import opened PublicLinks

  // ---------------------------------------------------------------------
  // Links are only ever dated once, and never go
  // ---------------------------------------------------------------------

  ghost predicate Later(before: Link, after: Link) {
    after == before || (before.revokedAt.None? && after.revokedAt.Some? && after == before.(revokedAt := after.revokedAt))
  }

  ghost predicate Grows(before: Links, after: Links) {
    |before| <= |after| && forall i | 0 <= i < |before| :: Later(before[i], after[i])
  }

  /** No link is lost or altered; revokedAt is written at most once. */
  lemma StepGrows(s: State, e: Event)
    requires Enabled(s, e)
    ensures Grows(s.links, Apply(s, e).links) && s.clock <= Apply(s, e).clock
  {
  }

  lemma {:induction false} RunGrows(s: State, es: seq<Event>)
    requires Runs(s, es)
    ensures Grows(s.links, Exec(s, es).links) && s.clock <= Exec(s, es).clock
    decreases |es|
  {
    if es != [] {
      StepGrows(s, es[0]);
      RunGrows(Apply(s, es[0]), es[1..]);
    }
  }

  // ---------------------------------------------------------------------
  // One step keeps the invariant
  // ---------------------------------------------------------------------

  lemma RevokingKeepsOneActive(before: Links, after: Links)
    requires AtMostOneActive(before) && |after| == |before| && Grows(before, after)
    ensures AtMostOneActive(after)
  {
    forall i: nat, j: nat, r | Active(after, r, i) && Active(after, r, j) ensures i == j {
      assert Later(before[i], after[i]) && Later(before[j], after[j]);
      assert Active(before, r, i) && Active(before, r, j);
    }
  }

  lemma RevokingKeepsTokens(before: Links, after: Links)
    requires TokensDiffer(before) && |after| == |before| && Grows(before, after)
    ensures TokensDiffer(after)
  {
    forall i, j | 0 <= i < j < |after| ensures after[i].token != after[j].token {
      assert Later(before[i], after[i]) && Later(before[j], after[j]);
    }
  }

  lemma RevokingKeepsRequests(before: Links, after: Links)
    requires |after| == |before| && Grows(before, after)
    ensures forall i | 0 <= i < |after| :: after[i].request == before[i].request
  {
    forall i | 0 <= i < |after| ensures after[i].request == before[i].request {
      assert Later(before[i], after[i]);
    }
  }

  lemma RevokingKeepsInv(s: State, t: State)
    requires Inv(s) && |t.links| == |s.links| && Grows(s.links, t.links) && t.owners == s.owners
    requires forall c | c in t.calls :: c in s.calls && t.calls[c] == s.calls[c]
    ensures Inv(t)
  {
    assert AtMostOneActive(t.links) by {
      RevokingKeepsOneActive(s.links, t.links);
    }
    assert TokensDiffer(t.links) by {
      RevokingKeepsTokens(s.links, t.links);
    }
    RevokingKeepsRequests(s.links, t.links);
    assert EveryRequestHasALink(t) by {
      forall r | r in t.owners ensures exists i :: 0 <= i < |t.links| && t.links[i].request == r {
        var i :| 0 <= i < |s.links| && s.links[i].request == r;
        assert t.links[i].request == r;
      }
    }
  }

  lemma AppendKeepsOneActive(links: Links, link: Link)
    requires AtMostOneActive(links) && forall i: nat :: !Active(links, link.request, i)
    ensures AtMostOneActive(links + [link])
  {
    var after := links + [link];
    forall i: nat, j: nat, r | Active(after, r, i) && Active(after, r, j) ensures i == j {
      if i < |links| {
        assert Active(links, r, i);
      }
      if j < |links| {
        assert Active(links, r, j);
      }
    }
  }

  /** A new link where its request has no active one. */
  lemma AppendKeepsInv(s: State, link: Link, t: State)
    requires Inv(s) && FreshToken(s.links, link.token)
    requires forall i: nat :: !Active(s.links, link.request, i)
    requires t.links == s.links + [link] && link.request in t.owners
    requires forall r :: r in t.owners <==> r in s.owners || r == link.request
    requires forall c | c in t.calls :: c in s.calls && t.calls[c] == s.calls[c]
    ensures Inv(t)
  {
    assert AtMostOneActive(t.links) by {
      AppendKeepsOneActive(s.links, link);
    }
    assert EveryRequestHasALink(t) by {
      forall r | r in t.owners ensures exists i :: 0 <= i < |t.links| && t.links[i].request == r {
        if r == link.request {
          assert t.links[|s.links|].request == r;
        } else {
          var i :| 0 <= i < |s.links| && s.links[i].request == r;
          assert t.links[i].request == r;
        }
      }
    }
  }

  lemma CallsKeepInv(s: State, t: State)
    requires Inv(s) && t.links == s.links && t.owners == s.owners
    requires forall c | c in t.calls ::
               || (c in s.calls && t.calls[c] == s.calls[c])
               || (t.calls[c].request in s.owners
                   && (t.calls[c].Revoking? ==> t.calls[c].seen == ActiveOnes(s.links, t.calls[c].request)))
    ensures Inv(t)
  {
  }

  lemma SeenAreRevoked(links: Links, request: Id, seen: set<nat>, now: int)
    requires !Collides(links, request, seen)
    ensures forall i: nat :: !Active(RevokeSeen(links, seen, now), request, i)
    ensures Grows(links, RevokeSeen(links, seen, now))
  {
    forall i: nat ensures !Active(RevokeSeen(links, seen, now), request, i) {
      if i < |links| && Active(links, request, i) {
        assert i in seen;
      }
    }
  }

  lemma OnlyTheLastIsActive(links: Links, link: Link)
    requires link.revokedAt.None? && forall i: nat :: !Active(links, link.request, i)
    ensures forall i: nat :: Active(links + [link], link.request, i) <==> i == |links|
  {
    forall i: nat ensures Active(links + [link], link.request, i) <==> i == |links| {
      if i < |links| {
        assert !Active(links, link.request, i);
      }
    }
  }

  lemma CommitInTwo(s: State, c: CallId, token: Token)
    requires Enabled(s, Commit(c, token)) && !Collides(s.links, s.calls[c].request, s.calls[c].seen)
    ensures var call := s.calls[c]; var u := Finish(s, c).(links := RevokeSeen(s.links, call.seen, call.now));
            && ApplyCommit(s, c, token) == u.(links := u.links + [Link(call.request, token, call.expiresAt, call.begunAt, None)])
            && |u.links| == |s.links| && FreshToken(u.links, token)
  {
  }

  lemma CommitKeepsInv(s: State, c: CallId, token: Token)
    requires Enabled(s, Commit(c, token)) && Inv(s) && !Collides(s.links, s.calls[c].request, s.calls[c].seen)
    ensures Inv(ApplyCommit(s, c, token))
  {
    var call := s.calls[c];
    var u := Finish(s, c).(links := RevokeSeen(s.links, call.seen, call.now));
    CommitInTwo(s, c, token);
    SeenAreRevoked(s.links, call.request, call.seen, call.now);
    assert Inv(u) by {
      RevokingKeepsInv(s, u);
    }
    assert call.request in s.owners && ApplyCommit(s, c, token).owners == u.owners;
    AppendKeepsInv(u, Link(call.request, token, call.expiresAt, call.begunAt, None), ApplyCommit(s, c, token));
  }

  /** A regeneration whose insertion goes through leaves its link, and no other, active. */
  lemma CommitReplaces(s: State, c: CallId, token: Token)
    requires Enabled(s, Commit(c, token)) && !Collides(s.links, s.calls[c].request, s.calls[c].seen)
    ensures var t := ApplyCommit(s, c, token); var r := s.calls[c].request;
            && |t.links| == |s.links| + 1 && t.links[|s.links|].token == token
            && forall i: nat :: Active(t.links, r, i) <==> i == |s.links|
  {
    var call := s.calls[c];
    CommitInTwo(s, c, token);
    SeenAreRevoked(s.links, call.request, call.seen, call.now);
    OnlyTheLastIsActive(RevokeSeen(s.links, call.seen, call.now), Link(call.request, token, call.expiresAt, call.begunAt, None));
  }

  /** The loser of two regenerations changes nothing: no link revoked, none inserted. */
  lemma ConflictChangesNothing(s: State, c: CallId, token: Token)
    requires Enabled(s, Commit(c, token))
    ensures ApplyCommit(s, c, token).links == s.links <==> Collides(s.links, s.calls[c].request, s.calls[c].seen)
  {
    if !Collides(s.links, s.calls[c].request, s.calls[c].seen) {
      assert |ApplyCommit(s, c, token).links| == |s.links| + 1;
    }
  }

  lemma CreateKeepsInv(s: State, request: Id, lawyer: Lawyer, token: Token, days: int)
    requires Inv(s) && Enabled(s, Create(request, lawyer, token, days))
    ensures Inv(Apply(s, Create(request, lawyer, token, days)))
  {
    var t := Apply(s, Create(request, lawyer, token, days));
    AppendKeepsInv(s, t.links[|s.links|], t);
  }

  lemma StepKeepsInv(s: State, e: Event)
    requires Inv(s) && Enabled(s, e)
    ensures Inv(Apply(s, e))
  {
    match e
    case Create(request, lawyer, token, days) => CreateKeepsInv(s, request, lawyer, token, days);
    case Commit(c, token) =>
      if Collides(s.links, s.calls[c].request, s.calls[c].seen) {
        CallsKeepInv(s, Finish(s, c));
      } else {
        CommitKeepsInv(s, c, token);
      }
    case Revoke(c) => RevokingKeepsInv(s, Apply(s, e));
    case _ => CallsKeepInv(s, Apply(s, e));
  }

  lemma {:induction false} RunKeepsInv(s: State, es: seq<Event>)
    requires Inv(s) && Runs(s, es)
    ensures Inv(Exec(s, es))
    decreases |es|
  {
    if es != [] {
      StepKeepsInv(s, es[0]);
      RunKeepsInv(Apply(s, es[0]), es[1..]);
    }
  }

  lemma OneMore(s: State, e: Event, es: seq<Event>)
    requires Enabled(s, e) && Runs(Apply(s, e), es)
    ensures Runs(s, [e] + es) && Exec(s, [e] + es) == Exec(Apply(s, e), es)
  {
    assert ([e] + es)[1..] == es;
  }

  function RunAlone(c: CallId, request: Id, lawyer: Lawyer, days: int, token: Token): seq<Event> {
    [RegenerateFor(c, request, lawyer)] + ([ReadClock(c, days)] + ([RunUpdate(c)] + [Commit(c, token)]))
  }

  /** The transaction has run its update, at the instant the call began. */
  predicate AtTheCommit(s: State, c: CallId, request: Id, days: int, t: State) {
    && t == s.(calls := t.calls)
    && t.calls == s.calls[c := Revoking(request, s.clock, s.clock + days * MILLISECONDS_PER_DAY, s.clock, ActiveOnes(s.links, request))]
  }

  lemma UpToTheCommit(s: State, c: CallId, request: Id, lawyer: Lawyer, days: int, t: State, es: seq<Event>)
    requires c !in s.calls && Belongs(s, request, lawyer) && AtTheCommit(s, c, request, days, t) && Runs(t, es)
    ensures var run := [RegenerateFor(c, request, lawyer)] + ([ReadClock(c, days)] + ([RunUpdate(c)] + es));
            Runs(s, run) && Exec(s, run) == Exec(t, es)
  {
    var expiresAt := s.clock + days * MILLISECONDS_PER_DAY;
    var s1 := s.(calls := s.calls[c := Owned(request)]);
    var s2 := s.(calls := s.calls[c := Dated(request, s.clock, expiresAt)]);
    assert Apply(s, RegenerateFor(c, request, lawyer)) == s1;
    assert s1.calls[c := s2.calls[c]] == s2.calls;
    assert Apply(s1, ReadClock(c, days)) == s2;
    assert s2.calls[c := t.calls[c]] == t.calls;
    assert Apply(s2, RunUpdate(c)) == t;
    OneMore(s2, RunUpdate(c), es);
    OneMore(s1, ReadClock(c, days), [RunUpdate(c)] + es);
    OneMore(s, RegenerateFor(c, request, lawyer), [ReadClock(c, days)] + ([RunUpdate(c)] + es));
  }

  /** What the service does: what was active is dated now, one link is issued, and nothing else moves. */
  predicate Regenerated(s: State, request: Id, days: int, token: Token, t: State) {
    && t.clock == s.clock && t.owners == s.owners && t.calls == s.calls
    && t.links == RevokeSeen(s.links, ActiveOnes(s.links, request), s.clock)
                  + [Link(request, token, s.clock + days * MILLISECONDS_PER_DAY, s.clock, None)]
  }

  lemma GoneAgain(calls: map<CallId, Call>, c: CallId, call: Call)
    requires c !in calls
    ensures calls[c := call] - {c} == calls
  {
  }

  lemma CommitIsEnabled(s: State, c: CallId, request: Id, days: int, token: Token, u: State, t: State)
    requires c !in s.calls && FreshToken(s.links, token)
    requires AtTheCommit(s, c, request, days, u) && Regenerated(s, request, days, token, t)
    ensures Enabled(u, Commit(c, token)) && Apply(u, Commit(c, token)) == t
  {
    GoneAgain(s.calls, c, u.calls[c]);
    assert !Collides(u.links, request, u.calls[c].seen);
  }

  lemma CommitAlone(s: State, c: CallId, request: Id, days: int, token: Token, u: State, t: State)
    requires c !in s.calls && FreshToken(s.links, token)
    requires AtTheCommit(s, c, request, days, u) && Regenerated(s, request, days, token, t)
    ensures Runs(u, [Commit(c, token)]) && Exec(u, [Commit(c, token)]) == t
  {
    CommitIsEnabled(s, c, request, days, token, u, t);
    OneMore(u, Commit(c, token), []);
    assert [Commit(c, token)] + [] == [Commit(c, token)];
  }

  lemma ThereIsACommit(s: State, c: CallId, request: Id, days: int) returns (u: State)
    ensures AtTheCommit(s, c, request, days, u)
  {
    var call := Revoking(request, s.clock, s.clock + days * MILLISECONDS_PER_DAY, s.clock, ActiveOnes(s.links, request));
    u := s.(calls := s.calls[c := call]);
  }

  /** The steps of a regeneration that nothing disturbs do what the service does. */
  lemma UndisturbedRegeneration(s: State, c: CallId, request: Id, lawyer: Lawyer, days: int, token: Token, t: State)
    requires c !in s.calls && FreshToken(s.links, token) && Belongs(s, request, lawyer)
    requires Regenerated(s, request, days, token, t)
    ensures var run := RunAlone(c, request, lawyer, days, token); Runs(s, run) && Exec(s, run) == t
  {
    var u := ThereIsACommit(s, c, request, days);
    CommitAlone(s, c, request, days, token, u, t);
    UpToTheCommit(s, c, request, lawyer, days, u, [Commit(c, token)]);
  }

  /** In every run each request has a link, at most one of them unrevoked, and no two links share a token. */
  lemma LinkSafety(clock: int, es: seq<Event>)
    requires Runs(Init(clock), es)
    ensures var t := Exec(Init(clock), es); EveryRequestHasALink(t) && AtMostOneActive(t.links) && TokensDiffer(t.links)
  {
    RunKeepsInv(Init(clock), es);
  }

  // ---------------------------------------------------------------------
  // Once refused, refused for ever
  // ---------------------------------------------------------------------

  lemma {:induction false} FindsTheLast(links: Links, token: Token)
    ensures match FindToken(links, token)
            case None => forall i | 0 <= i < |links| :: links[i].token != token
            case Some(i) => i < |links| && links[i].token == token
  {
    if links != [] && links[|links| - 1].token != token {
      FindsTheLast(links[..|links| - 1], token);
      if FindToken(links, token).None? {
        forall i | 0 <= i < |links| ensures links[i].token != token {
          assert i < |links| - 1 ==> links[..|links| - 1][i] == links[i];
        }
      }
    }
  }

  /** With tokens all different the one link that carries the token is found. */
  lemma FindsTheOne(links: Links, i: nat)
    requires TokensDiffer(links) && i < |links|
    ensures FindToken(links, links[i].token) == Some(i)
  {
    FindsTheLast(links, links[i].token);
  }

  /** A link works up to and at its deadline, unless it is revoked, which is told first. */
  lemma ResolvesExactly(links: Links, i: nat, now: int)
    requires TokensDiffer(links) && i < |links|
    ensures var answer := Resolve(links, links[i].token, now); var link := links[i];
            && (answer == Revoked <==> link.revokedAt.Some?)
            && (answer == Expired <==> link.revokedAt.None? && now > link.expiresAt)
            && (answer == Ok(i) <==> link.revokedAt.None? && now <= link.expiresAt)
  {
    FindsTheOne(links, i);
  }

  /** No other token gets any of these answers. */
  lemma UnknownIsNobodys(links: Links, token: Token, now: int)
    ensures Resolve(links, token, now) == Unknown <==> forall i | 0 <= i < |links| :: links[i].token != token
  {
    FindsTheLast(links, token);
  }

  lemma RefusalIsFinal(before: Link, after: Link, i: nat, now: int, later: int)
    requires Later(before, after) && now <= later && !Judge(before, i, now).Ok?
    ensures !Judge(after, i, later).Ok?
  {
  }

  /** A token refused as revoked or expired is refused at every later moment of every run. */
  lemma RefusedTokenStaysRefused(s: State, es: seq<Event>, token: Token)
    requires Inv(s) && Runs(s, es)
    requires Resolve(s.links, token, s.clock).Revoked? || Resolve(s.links, token, s.clock).Expired?
    ensures var t := Exec(s, es); Resolve(t.links, token, t.clock).Revoked? || Resolve(t.links, token, t.clock).Expired?
  {
    var t := Exec(s, es);
    RunGrows(s, es);
    assert TokensDiffer(t.links) by {
      RunKeepsInv(s, es);
    }
    FindsTheLast(s.links, token);
    var i := FindToken(s.links, token).value;
    RefusalIsFinal(s.links[i], t.links[i], i, s.clock, t.clock);
    FindsTheOne(t.links, i);
  }

  /** So is a client session. */
  lemma RefusedSessionStaysRefused(s: State, es: seq<Event>, i: nat)
    requires Runs(s, es) && i < |s.links| && CanActivate(s.links, Some(i), s.clock).None?
    ensures CanActivate(Exec(s, es).links, Some(i), Exec(s, es).clock).None?
  {
    RunGrows(s, es);
    assert Later(s.links[i], Exec(s, es).links[i]);
  }

  /** The guard lets a session through, for the request of its link, exactly when that link's token would still resolve. */
  lemma GuardAgreesWithResolution(links: Links, i: nat, now: int)
    requires TokensDiffer(links) && i < |links|
    ensures CanActivate(links, Some(i), now).Some? <==> Resolve(links, links[i].token, now) == Ok(i)
    ensures CanActivate(links, Some(i), now).Some? ==> CanActivate(links, Some(i), now).value == Session(i, links[i].request, links[i].expiresAt)
  {
    FindsTheOne(links, i);
  }

  /** No session without a link that is there. */
  lemma NoLinkNoSession(links: Links, claimed: Option<nat>, now: int)
    requires claimed.Some? ==> claimed.value >= |links|
    ensures CanActivate(links, claimed, now).None?
  {
  }

  // ---------------------------------------------------------------------
  // How long a link works
  // ---------------------------------------------------------------------

  /** The link at `i` is `link`, and its token is told the truth about it at every instant. */
  ghost predicate WorksUntil(links: Links, i: nat, token: Token, deadline: int) {
    && i < |links| && links[i].token == token && links[i].expiresAt == deadline
    && forall now: int ::
         Resolve(links, token, now) == if links[i].revokedAt.Some? then Revoked else if now <= deadline then Ok(i) else Expired
  }

  /** Over any run the deadline of a link does not move: only a revocation cuts it short. */
  lemma KeepsItsDeadline(s: State, es: seq<Event>, i: nat)
    requires Inv(s) && Runs(s, es) && i < |s.links|
    ensures WorksUntil(Exec(s, es).links, i, s.links[i].token, s.links[i].expiresAt)
    ensures s.links[i].revokedAt.Some? ==> Exec(s, es).links[i].revokedAt == s.links[i].revokedAt
  {
    var t := Exec(s, es);
    RunGrows(s, es);
    RunKeepsInv(s, es);
    assert Later(s.links[i], t.links[i]);
    FindsTheOne(t.links, i);
  }

  /** The link a request is created with works for as many days as were asked for, from the instant it was created. */
  lemma CreatedLinkWorksForItsDays(s: State, request: Id, lawyer: Lawyer, token: Token, days: int, es: seq<Event>)
    requires Inv(s) && Enabled(s, Create(request, lawyer, token, days)) && Runs(Apply(s, Create(request, lawyer, token, days)), es)
    ensures var t := Apply(s, Create(request, lawyer, token, days));
            && t.owners == s.owners[request := lawyer]
            && Active(t.links, request, |s.links|) && t.links[|s.links|].createdAt == s.clock
            && WorksUntil(Exec(t, es).links, |s.links|, token, s.clock + days * 86_400_000)
  {
    StepKeepsInv(s, Create(request, lawyer, token, days));
    KeepsItsDeadline(Apply(s, Create(request, lawyer, token, days)), es, |s.links|);
  }

  ghost predicate ReadsClockOnce(es: seq<Event>, c: CallId) {
    forall e | e in es :: !(e.ReadClock? && e.call == c)
  }

  /** What the call read of the clock it keeps to the end. */
  ghost predicate HasRead(s: State, c: CallId, now: int, expiresAt: int) {
    c in s.calls && (s.calls[c].Dated? || s.calls[c].Revoking?) ==> s.calls[c].now == now && s.calls[c].expiresAt == expiresAt
  }

  lemma {:induction false} KeepsWhatItRead(s: State, es: seq<Event>, c: CallId, now: int, expiresAt: int)
    requires Runs(s, es) && ReadsClockOnce(es, c) && HasRead(s, c, now, expiresAt)
    ensures HasRead(Exec(s, es), c, now, expiresAt)
    decreases |es|
  {
    if es != [] {
      assert es[0] in es && forall e | e in es[1..] :: e in es;
      KeepsWhatItRead(Apply(s, es[0]), es[1..], c, now, expiresAt);
    }
  }

  /** From the commit on, by what the call has read. */
  lemma CommittedLinkWorks(u: State, c: CallId, token: Token, es: seq<Event>)
    requires Inv(u) && Enabled(u, Commit(c, token)) && !Collides(u.links, u.calls[c].request, u.calls[c].seen)
    requires Runs(Apply(u, Commit(c, token)), es)
    ensures var t := Apply(u, Commit(c, token));
            && |t.links| == |u.links| + 1 && Active(t.links, u.calls[c].request, |u.links|)
            && DatesActive(u.links, u.calls[c].request, u.calls[c].now, t.links[..|u.links|])
            && WorksUntil(Exec(t, es).links, |u.links|, token, u.calls[c].expiresAt)
  {
    StepKeepsInv(u, Commit(c, token));
    CommitDates(u, c, token);
    KeepsItsDeadline(Apply(u, Commit(c, token)), es, |u.links|);
  }

  /** A call that reads the clock and waits, whatever runs meanwhile: the invariant stands, and so does what it read. */
  lemma WaitedWith(s: State, c: CallId, days: int, wait: seq<Event>)
    requires Inv(s) && Enabled(s, ReadClock(c, days)) && Runs(Apply(s, ReadClock(c, days)), wait) && ReadsClockOnce(wait, c)
    ensures var u := Exec(Apply(s, ReadClock(c, days)), wait);
            Inv(u) && HasRead(u, c, s.clock, s.clock + days * 86_400_000)
  {
    var s1 := Apply(s, ReadClock(c, days));
    StepKeepsInv(s, ReadClock(c, days));
    RunKeepsInv(s1, wait);
    KeepsWhatItRead(s1, wait, c, s.clock, s.clock + days * MILLISECONDS_PER_DAY);
  }

  /**
   * A regenerated link works for as many days as were asked for, from the clock its call read, however long the
   * call waited afterwards and whatever ran in between; and what it replaces is dated at that same instant.
   */
  lemma RegeneratedLinkWorksForItsDays(s: State, c: CallId, days: int, wait: seq<Event>, token: Token, es: seq<Event>)
    requires Inv(s) && Enabled(s, ReadClock(c, days))
    requires Runs(Apply(s, ReadClock(c, days)), wait) && ReadsClockOnce(wait, c)
    requires var u := Exec(Apply(s, ReadClock(c, days)), wait);
             && Enabled(u, Commit(c, token)) && !Collides(u.links, u.calls[c].request, u.calls[c].seen)
             && Runs(Apply(u, Commit(c, token)), es)
    ensures var u := Exec(Apply(s, ReadClock(c, days)), wait); var t := Apply(u, Commit(c, token));
            && |t.links| == |u.links| + 1 && Active(t.links, u.calls[c].request, |u.links|)
            && DatesActive(u.links, u.calls[c].request, s.clock, t.links[..|u.links|])
            && WorksUntil(Exec(t, es).links, |u.links|, token, s.clock + days * 86_400_000)
  {
    WaitedWith(s, c, days, wait);
    CommittedLinkWorks(Exec(Apply(s, ReadClock(c, days)), wait), c, token, es);
  }

  lemma CommitDates(s: State, c: CallId, token: Token)
    requires Inv(s) && Enabled(s, Commit(c, token)) && !Collides(s.links, s.calls[c].request, s.calls[c].seen)
    ensures var t := ApplyCommit(s, c, token);
            && |t.links| == |s.links| + 1
            && t.links[|s.links|] == Link(s.calls[c].request, token, s.calls[c].expiresAt, s.calls[c].begunAt, None)
            && DatesActive(s.links, s.calls[c].request, s.calls[c].now, t.links[..|s.links|])
  {
    var call := s.calls[c];
    var t := ApplyCommit(s, c, token);
    assert t.links[..|s.links|] == RevokeSeen(s.links, call.seen, call.now);
    forall i | 0 <= i < |s.links| && s.links[i].request == call.request && s.links[i].revokedAt.None? ensures i in call.seen {
      assert Active(s.links, call.request, i);
    }
  }

  ghost predicate BeginsOnce(es: seq<Event>, c: CallId) {
    forall e | e in es :: !(e.RunUpdate? && e.call == c)
  }

  ghost predicate HasBegun(s: State, c: CallId, at: int, seen: set<nat>) {
    c in s.calls && s.calls[c].Revoking? ==> s.calls[c].begunAt == at && s.calls[c].seen == seen
  }

  lemma {:induction false} KeepsWhatItSaw(s: State, es: seq<Event>, c: CallId, at: int, seen: set<nat>)
    requires Runs(s, es) && BeginsOnce(es, c) && HasBegun(s, c, at, seen)
    ensures HasBegun(Exec(s, es), c, at, seen)
    decreases |es|
  {
    if es != [] {
      assert es[0] in es && forall e | e in es[1..] :: e in es;
      KeepsWhatItSaw(Apply(s, es[0]), es[1..], c, at, seen);
    }
  }

  /**
   * A regenerated link is dated from the beginning of its transaction, and its insertion is refused exactly when
   * its request has an unrevoked link that was not there, unrevoked, at that beginning.
   */
  lemma CommitJudgesByItsBeginning(s: State, c: CallId, wait: seq<Event>, token: Token)
    requires Inv(s) && Enabled(s, RunUpdate(c)) && Runs(Apply(s, RunUpdate(c)), wait) && BeginsOnce(wait, c)
    requires Enabled(Exec(Apply(s, RunUpdate(c)), wait), Commit(c, token))
    ensures var u := Exec(Apply(s, RunUpdate(c)), wait); var t := Apply(u, Commit(c, token)); var r := u.calls[c].request;
            if exists i: nat :: Active(u.links, r, i) && !(i < |s.links| && s.links[i].request == r && s.links[i].revokedAt.None?)
            then t.links == u.links
            else |t.links| == |u.links| + 1 && t.links[|u.links|].createdAt == s.clock && t.links[|u.links|].token == token
  {
    var s1 := Apply(s, RunUpdate(c));
    var u := Exec(s1, wait);
    StepKeepsInv(s, RunUpdate(c));
    RunKeepsInv(s1, wait);
    KeepsWhatItSaw(s1, wait, c, s.clock, ActiveOnes(s.links, s.calls[c].request));
    SeenAreOfItsRequest(s1, wait, c, s.calls[c].request);
    var call := u.calls[c];
    assert Collides(u.links, call.request, call.seen) <==>
             exists i: nat :: Active(u.links, call.request, i) && !Active(s.links, call.request, i) by {
      if i: nat :| Active(u.links, call.request, i) && !Active(s.links, call.request, i) {
        assert i !in call.seen;
      }
    }
    if !Collides(u.links, call.request, call.seen) {
      CommitDates(u, c, token);
    }
  }

  ghost predicate Serves(s: State, c: CallId, request: Id) {
    c in s.calls && s.calls[c].Revoking? ==> s.calls[c].request == request
  }

  lemma {:induction false} SeenAreOfItsRequest(s: State, es: seq<Event>, c: CallId, request: Id)
    requires Runs(s, es) && BeginsOnce(es, c) && Serves(s, c, request)
    ensures Serves(Exec(s, es), c, request)
    decreases |es|
  {
    if es != [] {
      assert es[0] in es && forall e | e in es[1..] :: e in es;
      SeenAreOfItsRequest(Apply(s, es[0]), es[1..], c, request);
    }
  }

  // ---------------------------------------------------------------------
  // Whose request it is
  // ---------------------------------------------------------------------

  /** Nobody but the lawyer a request was created by gets a regeneration or a revocation of it under way. */
  lemma StrangersChangeNothing(s: State, c: CallId, request: Id, lawyer: Lawyer)
    requires c !in s.calls && (request !in s.owners || s.owners[request] != lawyer)
    ensures Apply(s, RegenerateFor(c, request, lawyer)) == s && Apply(s, RevokeFor(c, request, lawyer)) == s
  {
  }

  /** The steps of a revocation that nothing disturbs date the active links of the request, and touch nothing else. */
  lemma UndisturbedRevocation(s: State, c: CallId, request: Id, lawyer: Lawyer)
    requires c !in s.calls && request in s.owners && s.owners[request] == lawyer
    ensures var run := [RevokeFor(c, request, lawyer)] + ([Revoke(c)] + []);
            && Runs(s, run) && DatesActive(s.links, request, s.clock, Exec(s, run).links)
            && Exec(s, run) == s.(links := Exec(s, run).links)
  {
    var s1 := s.(calls := s.calls[c := Cutting(request)]);
    assert Apply(s, RevokeFor(c, request, lawyer)) == s1;
    GoneAgain(s.calls, c, Cutting(request));
    OneMore(s1, Revoke(c), []);
    OneMore(s, RevokeFor(c, request, lawyer), [Revoke(c)] + []);
  }
}
