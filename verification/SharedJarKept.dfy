/** Two tabs open are no reason to be logged out: while the session lasts, nothing the tabs do empties the jar. */
module SharedJarKept {
  import opened Options
  import opened RefreshTokens
  import opened RefreshTokenProofs
  import opened RefreshTokenService
  import opened SharedJar
  import opened SharedJarProofs

  ghost predicate BeforeTheCeiling(h: History, f: Family, now: int)
    requires Known(h, f)
  {
    now <= h.births[f].at + h.limits.session
  }

  /**
   * The account stays, no answer is lost, nobody drops the cookie, the session's ceiling is not past, and a tab
   * weighs the row it has read before that row's deadlines.
   */
  ghost predicate Timely(w: World, bound: int, a: Act)
    requires Can(w, bound, a) && Known(w.server.past, w.family)
  {
    match a
    case Serve(id, Decide(_)) =>
      var stored := w.server.calls[id].stored;
      stored.Some? ==> w.server.clock < stored.value.expiresAt && w.server.clock < stored.value.idleExpiresAt
    case Elsewhere(Tick(now)) => BeforeTheCeiling(w.server.past, w.family, now)
    case Renew(_, renewal) => renewal.Renewed?
    case DropCookie => false
    case _ => true
  }

  ghost predicate AlwaysTimely(w: World, bound: int, acts: seq<Act>)
    requires Goes(w, bound, acts)
    decreases |acts|
  {
    acts == [] || (Known(w.server.past, w.family) && Timely(w, bound, acts[0]) && AlwaysTimely(Do(w, bound, acts[0]), bound, acts[1..]))
  }

  ghost predicate NeverEmpty(w: World, bound: int, acts: seq<Act>)
    requires Goes(w, bound, acts)
    decreases |acts|
  {
    w.jar.Some? && (acts != [] ==> NeverEmpty(Do(w, bound, acts[0]), bound, acts[1..]))
  }

  /** The family is still in the table; a tab that has read, has read a row; no answer on its way clears the jar. */
  ghost predicate Kept(w: World) {
    && Known(w.server.past, w.family) && BeforeTheCeiling(w.server.past, w.family, w.server.clock)
    && w.jar.Some? && Tip(w.server.past, w.family) in w.server.table
    && forall id | id in w.tabs :: TabKept(w.server.calls, id, w.tabs[id])
  }

  ghost predicate TabKept(calls: map<CallId, Call>, id: CallId, x: Exchange) {
    match x.phase
    case Serving => id in calls && calls[id].Looked? ==> calls[id].stored.Some?
    case Answered(change) => !change.Clear?
    case _ => true
  }

  lemma AllOfTheFamilyIsThere(s: State, f: Family, token: Token)
    requires Inv(s) && Known(s.past, f) && Tip(s.past, f) in s.table && OfFamily(s.past, f, token)
    ensures token in s.table
  {
    assert ChainOk(s.past, f);
    assert RowOk(s.past, Tip(s.past, f), s.table[Tip(s.past, f)]);
    assert token in s.table || Gone(s.table, f);
  }

  /** What a step of the server leaves of the exchange it is for. */
  lemma ServedIsKept(s: State, f: Family, bound: int, id: CallId, x: Exchange, e: Event)
    requires Known(s.past, f) && Enabled(s, e) && TabOk(s, f, bound, id, x) && TabKept(s.calls, id, x) && x.token in s.table
    requires (e.Look? && e.call == id && e.token == x.token && x.phase.Sent?) || ((e.Decide? || e.Claim? || e.Abort?) && e.call == id && x.phase.Serving?)
    requires e.Decide? ==>
               && !Judge(s.calls[id].stored, s.clock).KillChain?
               && (s.calls[id].stored.Some? ==> s.clock < s.calls[id].stored.value.expiresAt && s.clock < s.calls[id].stored.value.idleExpiresAt)
    ensures TabKept(Apply(s, e).calls, id, x.(phase := PhaseAfter(s, e)))
    ensures s.table.Keys <= Apply(s, e).table.Keys && Apply(s, e).clock == s.clock
  {
  }

  lemma TheTipIsThere(w: World, bound: int, p: Lead, id: CallId, e: Event)
    requires JarInv(w, bound, p) && 2 * bound <= RACE_WINDOW_MS && Can(w, bound, Serve(id, e))
    requires Tip(w.server.past, w.family) in w.server.table && w.server.table.Keys <= Apply(w.server, e).table.Keys
    ensures var t := Apply(w.server, e);
            && Known(t.past, w.family) && Tip(t.past, w.family) in t.table
            && t.past.births[w.family] == w.server.past.births[w.family] && t.past.limits == w.server.past.limits
  {
    if MovesChain(w, Serve(id, e)) {
      WinningClaim(w, bound, p, id, e.successor);
    } else {
      QuietServeOwn(w, bound, p, id, e);
    }
  }

  lemma OthersAreKept(w: World, bound: int, id: CallId, e: Event)
    requires Can(w, bound, Serve(id, e)) && forall d | d in w.tabs :: TabKept(w.server.calls, d, w.tabs[d])
    ensures forall d | d in w.tabs && d != id :: TabKept(Apply(w.server, e).calls, d, w.tabs[d])
  {
    forall d | d in w.tabs && d != id ensures TabKept(Apply(w.server, e).calls, d, w.tabs[d]) {
      ServeElsewhere(w, bound, id, e, d);
    }
  }

  lemma OwnIsKept(w: World, bound: int, p: Lead, id: CallId, e: Event)
    requires JarInv(w, bound, p) && 2 * bound <= RACE_WINDOW_MS && Kept(w)
    requires Can(w, bound, Serve(id, e)) && Timely(w, bound, Serve(id, e))
    ensures TabKept(Apply(w.server, e).calls, id, w.tabs[id].(phase := PhaseAfter(w.server, e)))
    ensures w.server.table.Keys <= Apply(w.server, e).table.Keys && Apply(w.server, e).clock == w.server.clock
  {
    var x := w.tabs[id];
    assert TabOk(w.server, w.family, bound, id, x) && TabKept(w.server.calls, id, x);
    AllOfTheFamilyIsThere(w.server, w.family, x.token);
    if e.Decide? {
      NeverWeighedAsReuse(w.server, w.family, bound, id, x);
    }
    ServedIsKept(w.server, w.family, bound, id, x, e);
  }

  /** What is kept, piece by piece: the family's dates, its tip and the exchanges. */
  lemma KeptByParts(w: World, v: World)
    requires Kept(w) && v.family == w.family && v.jar == w.jar
    requires Known(v.server.past, w.family) && Tip(v.server.past, w.family) in v.server.table
    requires v.server.past.births[w.family] == w.server.past.births[w.family] && v.server.past.limits == w.server.past.limits
    requires BeforeTheCeiling(w.server.past, w.family, v.server.clock)
    requires forall id | id in v.tabs :: TabKept(v.server.calls, id, v.tabs[id])
    ensures Kept(v)
  {
  }

  lemma ServeKeeps(w: World, bound: int, p: Lead, id: CallId, e: Event)
    requires JarInv(w, bound, p) && 2 * bound <= RACE_WINDOW_MS && Kept(w)
    requires Can(w, bound, Serve(id, e)) && Timely(w, bound, Serve(id, e))
    ensures Kept(Do(w, bound, Serve(id, e)))
  {
    var v := Do(w, bound, Serve(id, e));
    OwnIsKept(w, bound, p, id, e);
    TheTipIsThere(w, bound, p, id, e);
    OthersAreKept(w, bound, id, e);
    assert v.server == Apply(w.server, e);
    KeptByParts(w, v);
  }

  /** Before the ceiling no purge takes the family. */
  lemma TheTipStays(s: State, f: Family, e: Event)
    requires Inv(s) && Enabled(s, e) && Known(s.past, f) && BeforeTheCeiling(s.past, f, s.clock)
    requires Tip(s.past, f) in s.table && OfFamily(s.past, f, Tip(s.past, f))
    ensures Tip(s.past, f) in Apply(s, e).table
  {
    if e.Purge? {
      assert RowOk(s.past, Tip(s.past, f), s.table[Tip(s.past, f)]);
    } else {
      OnlyPurgesRemove(s, e, Tip(s.past, f));
    }
  }

  lemma OnlyPurgesRemove(s: State, e: Event, token: Token)
    requires Enabled(s, e) && token in s.table && !e.Purge?
    ensures token in Apply(s, e).table
  {
  }

  /** And nobody opens it again, or forgets when it was opened. */
  lemma TheBirthStays(s: State, f: Family, e: Event)
    requires Enabled(s, e) && Known(s.past, f)
    ensures f in Apply(s, e).past.births && Apply(s, e).past.births[f] == s.past.births[f] && Apply(s, e).past.limits == s.past.limits
  {
  }

  lemma AllAreKept(w: World, bound: int, e: Event)
    requires Can(w, bound, Elsewhere(e)) && Known(w.server.past, w.family)
    requires forall d | d in w.tabs :: TabOk(w.server, w.family, bound, d, w.tabs[d]) && TabKept(w.server.calls, d, w.tabs[d])
    ensures forall d | d in w.tabs :: TabKept(Apply(w.server, e).calls, d, w.tabs[d])
  {
    forall d | d in w.tabs ensures TabKept(Apply(w.server, e).calls, d, w.tabs[d]) {
      assert TabOk(w.server, w.family, bound, d, w.tabs[d]);
      ForeignStepElsewhere(w, bound, e, d);
    }
  }

  lemma TheFamilyStays(w: World, bound: int, p: Lead, e: Event)
    requires JarInv(w, bound, p) && Kept(w) && Can(w, bound, Elsewhere(e))
    ensures var t := Apply(w.server, e);
            && Known(t.past, w.family) && Tip(t.past, w.family) in t.table
            && t.past.births[w.family] == w.server.past.births[w.family] && t.past.limits == w.server.past.limits
  {
    assert OfFamily(w.server.past, w.family, Tip(w.server.past, w.family)) by {
      assert ChainOk(w.server.past, w.family);
    }
    ForeignStepLeavesFamily(w, bound, e, p);
    TheTipStays(w.server, w.family, e);
    TheBirthStays(w.server, w.family, e);
  }

  lemma OnlyTicksMoveTheClock(s: State, e: Event)
    requires Enabled(s, e)
    ensures Apply(s, e).clock == if e.Tick? then e.now else s.clock
  {
  }

  lemma ElsewhereKeeps(w: World, bound: int, p: Lead, e: Event)
    requires JarInv(w, bound, p) && Kept(w)
    requires Can(w, bound, Elsewhere(e)) && Timely(w, bound, Elsewhere(e))
    ensures Kept(Do(w, bound, Elsewhere(e)))
  {
    var v := Do(w, bound, Elsewhere(e));
    TheFamilyStays(w, bound, p, e);
    OnlyTicksMoveTheClock(w.server, e);
    AllAreKept(w, bound, e);
    assert v.server == Apply(w.server, e);
    KeptByParts(w, v);
  }

  lemma ActKeeps(w: World, bound: int, p: Lead, a: Act)
    requires JarInv(w, bound, p) && 0 < 2 * bound <= RACE_WINDOW_MS && Kept(w)
    requires Can(w, bound, a) && Timely(w, bound, a)
    ensures Kept(Do(w, bound, a))
  {
    match a
    case Serve(id, e) => ServeKeeps(w, bound, p, id, e);
    case Elsewhere(e) => ElsewhereKeeps(w, bound, p, e);
    case Deliver(id) => assert TabKept(w.server.calls, id, w.tabs[id]);
    case _ =>
  }

  lemma {:induction false} TimelyRun(w: World, bound: int, p: Lead, acts: seq<Act>)
    requires JarInv(w, bound, p) && 0 < 2 * bound <= RACE_WINDOW_MS && Kept(w)
    requires Goes(w, bound, acts) && AlwaysTimely(w, bound, acts)
    ensures NeverEmpty(w, bound, acts)
    decreases |acts|
  {
    if acts != [] {
      ActKeeps(w, bound, p, acts[0]);
      ActKeepsJarInv(w, bound, p, acts[0]);
      TimelyRun(Do(w, bound, acts[0]), bound, NextLead(w, acts[0], p), acts[1..]);
    }
  }

  /** After any login, any number of tabs that race each other in time: no run ever empties the jar. */
  lemma TabsStayLoggedIn(bound: int, limits: Limits, w: World, clock: int, es: seq<Event>, lawyer: Lawyer, token: Token, acts: seq<Act>)
    requires 0 < 2 * bound <= RACE_WINDOW_MS && 0 <= limits.session
    requires JustLoggedIn(w, limits, clock, es, lawyer, token) && Goes(w, bound, acts) && AlwaysTimely(w, bound, acts)
    ensures NeverEmpty(w, bound, acts)
  {
    LoginEstablishes(w, bound, limits, clock, es, lawyer, token);
    LimitsFixed(Init(limits, clock), es);
    TimelyRun(w, bound, Jar, acts);
  }
}
