/** A rotation that has committed and whose answer is lost: the session is over, though nobody has been told. */
module SharedJarStranded {
  import opened Options
  import opened RefreshTokens
  import opened RefreshTokenProofs
  import opened RefreshTokenService
  import opened SharedJar
  import opened SharedJarProofs

  ghost predicate StrandedTab(h: History, calls: map<CallId, Call>, f: Family, id: CallId, x: Exchange)
    requires Known(h, f)
  {
    && OfFamily(h, f, x.token)
    && match x.phase
       case Sent => id !in calls && x.token != Tip(h, f)
       case Serving => x.token != Tip(h, f) && id in calls && !calls[id].Leaving? && calls[id].token == x.token
       case Renewing(_, _) => false
       case Answered(change) => id !in calls && !change.Set?
  }

  /** Neither the jar nor any exchange holds the tip, or is about to be given it. */
  ghost predicate Stranded(w: World) {
    && Inv(w.server) && Known(w.server.past, w.family)
    && (w.jar.Some? ==> OfFamily(w.server.past, w.family, w.jar.value) && w.jar.value != Tip(w.server.past, w.family))
    && (forall id | id in w.tabs :: StrandedTab(w.server.past, w.server.calls, w.family, id, w.tabs[id]))
    && (forall c | c in w.server.calls && c !in w.tabs :: ForeignCall(w.server.past, w.family, w.server.calls[c]))
  }

  /** A committed rotation that is not answered with its token strands the tabs, be it a thrown error or a missing account. */
  lemma LostAnswerStrands(w: World, bound: int, p: Lead, id: CallId, renewal: Renewal)
    requires JarInv(w, bound, p) && Can(w, bound, Renew(id, renewal)) && !renewal.Renewed?
    ensures Stranded(Do(w, bound, Renew(id, renewal)))
  {
    var v := Do(w, bound, Renew(id, renewal));
    assert p == Leads(id);
    forall d | d in v.tabs ensures StrandedTab(v.server.past, v.server.calls, v.family, d, v.tabs[d]) {
      assert TabOk(w.server, w.family, bound, d, w.tabs[d]);
    }
  }

  // ---------------------------------------------------------------------
  // For ever
  // ---------------------------------------------------------------------

  /** The act rotates for one of the tabs. */
  ghost predicate AnswersRotated(w: World, bound: int, a: Act)
    requires Can(w, bound, a)
  {
    a.Serve? && Answer(w.server, a.event).Some? && Answer(w.server, a.event).value.Rotated?
  }

  ghost predicate EverRotated(w: World, bound: int, acts: seq<Act>)
    requires Goes(w, bound, acts)
    decreases |acts|
  {
    acts != [] && (AnswersRotated(w, bound, acts[0]) || EverRotated(Do(w, bound, acts[0]), bound, acts[1..]))
  }

  /** A claim with a token that is not the tip's finds its row revoked. */
  lemma StaleClaimFails(s: State, f: Family, c: CallId)
    requires Inv(s) && Known(s.past, f) && c in s.calls && s.calls[c].Checked?
    requires OfFamily(s.past, f, s.calls[c].token) && s.calls[c].token != Tip(s.past, f)
    ensures !Live(s.table, s.calls[c].token)
  {
    if s.calls[c].token in s.table {
      assert RowOk(s.past, s.calls[c].token, s.table[s.calls[c].token]);
    }
  }

  /** Steps that leave the history alone, and all calls but one. */
  lemma OwnStepStrands(w: World, v: World, id: CallId)
    requires Stranded(w) && id in w.tabs && v.family == w.family && v.jar == w.jar
    requires Inv(v.server) && v.server.past == w.server.past
    requires v.tabs.Keys == w.tabs.Keys && forall d | d in w.tabs && d != id :: v.tabs[d] == w.tabs[d]
    requires forall c | c != id :: (c in v.server.calls <==> c in w.server.calls) && (c in w.server.calls ==> v.server.calls[c] == w.server.calls[c])
    requires StrandedTab(v.server.past, v.server.calls, w.family, id, v.tabs[id])
    ensures Stranded(v)
  {
    forall d | d in v.tabs ensures StrandedTab(v.server.past, v.server.calls, v.family, d, v.tabs[d]) {
      assert StrandedTab(w.server.past, w.server.calls, w.family, d, w.tabs[d]);
    }
  }

  lemma ServedStrands(s: State, f: Family, id: CallId, x: Exchange, e: Event)
    requires Known(s.past, f) && Enabled(s, e) && StrandedTab(s.past, s.calls, f, id, x)
    requires (e.Look? && e.call == id && e.token == x.token && x.phase.Sent?)
             || ((e.Decide? || e.Claim? || e.Kill? || e.Abort?) && e.call == id && x.phase.Serving?)
    requires e.Claim? ==> !Live(s.table, s.calls[id].token)
    ensures Apply(s, e).past == s.past && !(Answer(s, e).Some? && Answer(s, e).value.Rotated?)
    ensures StrandedTab(s.past, Apply(s, e).calls, f, id, x.(phase := PhaseAfter(s, e)))
  {
  }

  lemma ServeStrands(w: World, bound: int, id: CallId, e: Event)
    requires Stranded(w) && Can(w, bound, Serve(id, e))
    ensures Stranded(Do(w, bound, Serve(id, e))) && !AnswersRotated(w, bound, Serve(id, e))
  {
    assert StrandedTab(w.server.past, w.server.calls, w.family, id, w.tabs[id]);
    if e.Claim? {
      StaleClaimFails(w.server, w.family, id);
    }
    ServedStrands(w.server, w.family, id, w.tabs[id], e);
    assert Inv(Apply(w.server, e)) by {
      StepKeepsInv(w.server, e);
    }
    forall c | c != id
      ensures (c in Apply(w.server, e).calls <==> c in w.server.calls)
      ensures c in w.server.calls ==> Apply(w.server, e).calls[c] == w.server.calls[c]
    {
      ServeElsewhere(w, bound, id, e, c);
    }
    OwnStepStrands(w, Do(w, bound, Serve(id, e)), id);
  }

  lemma StrandedTabFrame(s: State, t: State, f: Family, id: CallId, x: Exchange)
    requires Known(s.past, f) && LeavesFamily(s, t, f) && StrandedTab(s.past, s.calls, f, id, x)
    requires if id in s.calls then id in t.calls && t.calls[id] == s.calls[id] else id !in t.calls
    ensures StrandedTab(t.past, t.calls, f, id, x)
  {
  }

  lemma ForeignElsewhere(w: World, bound: int, e: Event, id: CallId)
    requires Can(w, bound, Elsewhere(e)) && id in w.tabs
    ensures var s := w.server; var t := Apply(s, e);
            if id in s.calls then id in t.calls && t.calls[id] == s.calls[id] else id !in t.calls
  {
  }

  lemma ForeignStrands(w: World, bound: int, e: Event)
    requires Stranded(w) && Can(w, bound, Elsewhere(e))
    ensures Stranded(Do(w, bound, Elsewhere(e)))
  {
    var t := Apply(w.server, e);
    assert Inv(t) by {
      StepKeepsInv(w.server, e);
    }
    EventLeavesFamily(w.server, w.family, e);
    forall id | id in w.tabs ensures StrandedTab(t.past, t.calls, w.family, id, w.tabs[id]) {
      ForeignElsewhere(w, bound, e, id);
      StrandedTabFrame(w.server, t, w.family, id, w.tabs[id]);
    }
    forall c | c in t.calls && c !in w.tabs ensures ForeignCall(t.past, w.family, t.calls[c]) {
      ForeignStepKeepsForeign(w, bound, e, c);
    }
  }

  lemma TabsAloneStrand(w: World, v: World)
    requires Stranded(w) && v.server == w.server && v.family == w.family
    requires v.jar == w.jar || v.jar.None?
    requires forall d | d in v.tabs && d !in w.tabs :: StrandedTab(w.server.past, w.server.calls, w.family, d, v.tabs[d])
    requires forall d | d in v.tabs && d in w.tabs :: v.tabs[d] == w.tabs[d]
    requires forall d | d in w.tabs && d !in v.tabs :: d !in w.server.calls
    ensures Stranded(v)
  {
  }

  lemma ActStrands(w: World, bound: int, a: Act)
    requires Stranded(w) && Can(w, bound, a)
    ensures Stranded(Do(w, bound, a)) && !AnswersRotated(w, bound, a)
  {
    match a
    case Serve(id, e) => ServeStrands(w, bound, id, e);
    case Elsewhere(e) => ForeignStrands(w, bound, e);
    case Send(_) => TabsAloneStrand(w, Do(w, bound, a));
    case Renew(_, _) =>
    case Deliver(id) =>
      assert StrandedTab(w.server.past, w.server.calls, w.family, id, w.tabs[id]);
      TabsAloneStrand(w, Do(w, bound, a));
    case DropCookie => TabsAloneStrand(w, Do(w, bound, a));
  }

  /** Whatever anybody does, no tab ever rotates again. */
  lemma {:induction false} StrandedForEver(w: World, bound: int, acts: seq<Act>)
    requires Stranded(w) && Goes(w, bound, acts)
    ensures Stranded(After(w, bound, acts)) && !EverRotated(w, bound, acts)
    decreases |acts|
  {
    if acts != [] {
      ActStrands(w, bound, acts[0]);
      StrandedForEver(Do(w, bound, acts[0]), bound, acts[1..]);
    }
  }

  lemma {:induction false} HonestRunKeepsJarInv(w: World, bound: int, p: Lead, acts: seq<Act>) returns (q: Lead)
    requires JarInv(w, bound, p) && Goes(w, bound, acts) && Unbroken(acts) && 0 < 2 * bound <= RACE_WINDOW_MS
    ensures JarInv(After(w, bound, acts), bound, q)
    decreases |acts|
  {
    q := p;
    if acts != [] {
      ActKeepsJarInv(w, bound, p, acts[0]);
      q := HonestRunKeepsJarInv(Do(w, bound, acts[0]), bound, NextLead(w, acts[0], p), acts[1..]);
    }
  }

  /**
   * After any login and any run in time in which no answer was lost, one lost answer ends the session: no tab
   * rotates again, whatever happens next.
   */
  lemma OneLostAnswerEndsTheSession(
      w: World, bound: int, limits: Limits, clock: int, es: seq<Event>, lawyer: Lawyer, token: Token,
      acts: seq<Act>, id: CallId, renewal: Renewal, more: seq<Act>)
    requires 0 < 2 * bound <= RACE_WINDOW_MS && !renewal.Renewed?
    requires JustLoggedIn(w, limits, clock, es, lawyer, token) && Goes(w, bound, acts) && Unbroken(acts)
    requires Can(After(w, bound, acts), bound, Renew(id, renewal))
    requires Goes(Do(After(w, bound, acts), bound, Renew(id, renewal)), bound, more)
    ensures !EverRotated(Do(After(w, bound, acts), bound, Renew(id, renewal)), bound, more)
  {
    LoginEstablishes(w, bound, limits, clock, es, lawyer, token);
    var p := HonestRunKeepsJarInv(w, bound, Jar, acts);
    LostAnswerStrands(After(w, bound, acts), bound, p, id, renewal);
    StrandedForEver(Do(After(w, bound, acts), bound, Renew(id, renewal)), bound, more);
  }

  // ---------------------------------------------------------------------
  // And the next tab is taken for a thief
  // ---------------------------------------------------------------------

  lemma OneAct(w: World, bound: int, a: Act, rest: seq<Act>)
    requires Can(w, bound, a) && Goes(Do(w, bound, a), bound, rest)
    ensures Goes(w, bound, [a] + rest)
    ensures EverReused(w, bound, [a] + rest) <==> AnswersReused(w, bound, a) || EverReused(Do(w, bound, a), bound, rest)
  {
    assert ([a] + rest)[1..] == rest;
  }

  /** The tab `id` has been sent the cookie back, a race window after its row was revoked. */
  predicate Stale(w: World, id: CallId, token: Token) {
    && w.jar == Some(token) && token in w.server.table && w.server.table[token].revokedAt.Some?
    && w.server.clock >= w.server.table[token].revokedAt.value + RACE_WINDOW_MS
    && id !in w.tabs && id !in w.server.calls
  }

  lemma StaleCookieIsReused(w: World, bound: int, id: CallId, token: Token) returns (acts: seq<Act>)
    requires Stale(w, id, token)
    ensures Goes(w, bound, acts) && EverReused(w, bound, acts)
  {
    var x := Exchange(token, w.server.clock, Sent);
    var row := w.server.table[token];
    var w1 := w.(tabs := w.tabs[id := x]);
    var w2 := w1.(server := w.server.(calls := w.server.calls[id := Looked(token, Some(row))]), tabs := w.tabs[id := x.(phase := Serving)]);
    var w3 := w2.(server := w.server.(calls := w.server.calls[id := Killing(token, row.family)]));
    assert Do(w, bound, Send(id)) == w1;
    assert w1.tabs[id := x.(phase := Serving)] == w2.tabs;
    assert Do(w1, bound, Serve(id, Look(id, token))) == w2;
    assert w2.server.calls[id := Killing(token, row.family)] == w3.server.calls;
    assert w2.tabs[id := w2.tabs[id].(phase := Serving)] == w2.tabs;
    assert Do(w2, bound, Serve(id, Decide(id))) == w3;
    assert AnswersReused(w3, bound, Serve(id, Kill(id)));
    OneAct(w3, bound, Serve(id, Kill(id)), []);
    OneAct(w2, bound, Serve(id, Decide(id)), [Serve(id, Kill(id))] + []);
    OneAct(w1, bound, Serve(id, Look(id, token)), [Serve(id, Decide(id))] + ([Serve(id, Kill(id))] + []));
    acts := [Serve(id, Look(id, token))] + ([Serve(id, Decide(id))] + ([Serve(id, Kill(id))] + []));
    OneAct(w, bound, Send(id), acts);
    acts := [Send(id)] + acts;
  }

  /**
   * With no exchange in flight and a replaced token left in the jar, as after a lost answer, the next tab to
   * refresh once the race window is over is answered 'reused', at any bound, if the family has not been purged.
   */
  lemma LeftWithAReplacedToken(w: World, bound: int, id: CallId, token: Token) returns (acts: seq<Act>)
    requires w.tabs == map[] && w.jar == Some(token) && id !in w.server.calls
    requires token in w.server.table && w.server.table[token].revokedAt.Some?
    ensures Goes(w, bound, acts) && EverReused(w, bound, acts)
  {
    var due := w.server.table[token].revokedAt.value + RACE_WINDOW_MS;
    if w.server.clock >= due {
      acts := StaleCookieIsReused(w, bound, id, token);
    } else {
      var v := w.(server := w.server.(clock := due));
      assert Do(w, bound, Elsewhere(Tick(due))) == v;
      acts := StaleCookieIsReused(v, bound, id, token);
      OneAct(w, bound, Elsewhere(Tick(due)), acts);
      acts := [Elsewhere(Tick(due))] + acts;
    }
  }
}
