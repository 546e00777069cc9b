/** Honest tabs are never taken for thieves, as long as every exchange takes less than half the race window. */
module SharedJarProofs {
  import opened Options
  import opened RefreshTokens
  import opened RefreshTokenProofs
  import opened RefreshTokenService
  import opened SharedJar

  // ---------------------------------------------------------------------
  // What other people's steps do to the family: nothing, or a purge
  // ---------------------------------------------------------------------

  ghost predicate LeavesFamily(s: State, t: State, f: Family)
    requires Known(s.past, f)
  {
    && Known(t.past, f) && Tip(t.past, f) == Tip(s.past, f)
    && (forall k | k in s.past.owner :: k in t.past.owner && t.past.owner[k] == s.past.owner[k])
    && (forall k | k in t.past.owner && k !in s.past.owner :: t.past.owner[k] != f)
    && (forall k | k in t.table && OfFamily(s.past, f, k) :: k in s.table && t.table[k] == s.table[k])
  }

  lemma IssueLeavesFamily(s: State, f: Family, lawyer: Lawyer, family: Family, token: Token)
    requires Inv(s) && Enabled(s, Issue(lawyer, family, token)) && Known(s.past, f)
    ensures LeavesFamily(s, ApplyIssue(s, lawyer, family, token), f)
  {
  }

  lemma RevocationLeavesFamily(s: State, t: State, f: Family, g: Family)
    requires Inv(s) && Known(s.past, f) && f != g
    requires t.past == s.past && t.table == RevokeFamilyRows(s.table, g, s.clock)
    ensures LeavesFamily(s, t, f)
  {
    forall k | k in t.table && OfFamily(s.past, f, k) ensures k in s.table && t.table[k] == s.table[k] {
      assert RowOk(s.past, k, s.table[k]);
    }
  }

  lemma LiveClaimLeavesFamily(s: State, c: CallId, successor: Token, f: Family)
    requires Enabled(s, Claim(c, successor)) && Live(s.table, s.calls[c].token)
    requires Known(s.past, f) && Known(s.past, s.calls[c].row.family)
    requires s.table[s.calls[c].token].family == s.calls[c].row.family != f
    requires forall k | k in s.table :: k in s.past.owner && s.table[k].family == s.past.owner[k]
    ensures LeavesFamily(s, ApplyClaim(s, c, successor), f)
  {
  }

  lemma ClaimLeavesFamily(s: State, c: CallId, successor: Token, f: Family)
    requires Inv(s) && Enabled(s, Claim(c, successor)) && Known(s.past, f) && ForeignCall(s.past, f, s.calls[c])
    ensures LeavesFamily(s, ApplyClaim(s, c, successor), f)
  {
    if Live(s.table, s.calls[c].token) {
      ClaimIsOfTip(s, c);
      assert forall k | k in s.table :: k in s.past.owner && s.table[k].family == s.past.owner[k] by {
        assert forall k | k in s.table :: RowOk(s.past, k, s.table[k]);
      }
      LiveClaimLeavesFamily(s, c, successor, f);
    }
  }

  lemma QuietLeavesFamily(s: State, f: Family, e: Event)
    requires Known(s.past, f) && Enabled(s, e)
    requires !e.Issue? && !e.Claim? && !e.Kill? && !e.LogoutRevoke?
    ensures LeavesFamily(s, Apply(s, e), f)
  {
  }

  lemma EventLeavesFamily(s: State, f: Family, e: Event)
    requires Known(s.past, f) && Enabled(s, e) && Inv(s)
    requires e.Claim? || e.Kill? || e.LogoutRevoke? ==> ForeignCall(s.past, f, s.calls[e.call])
    ensures LeavesFamily(s, Apply(s, e), f)
  {
    match e
    case Issue(lawyer, family, token) => IssueLeavesFamily(s, f, lawyer, family, token);
    case Claim(c, successor) => ClaimLeavesFamily(s, c, successor, f);
    case Kill(c) => RevocationLeavesFamily(s, Apply(s, e), f, s.calls[c].family);
    case LogoutRevoke(c) => RevocationLeavesFamily(s, Apply(s, e), f, s.calls[c].family);
    case _ => QuietLeavesFamily(s, f, e);
  }

  lemma ForeignStepLeavesFamily(w: World, bound: int, e: Event, p: Lead)
    requires JarInv(w, bound, p) && Can(w, bound, Elsewhere(e))
    ensures LeavesFamily(w.server, Apply(w.server, e), w.family)
  {
    EventLeavesFamily(w.server, w.family, e);
  }

  lemma ForeignCallFrame(s: State, t: State, f: Family, call: Call)
    requires Known(s.past, f) && LeavesFamily(s, t, f) && ForeignCall(s.past, f, call)
    ensures ForeignCall(t.past, f, call)
  {
  }

  /** The calls a foreign step starts or moves on are somebody else's. */
  lemma ForeignStepsAreForeign(w: World, bound: int, e: Event, c: CallId)
    requires TableOk(w.server.past, w.server.table) && CallsOk(w.server)
    requires Can(w, bound, Elsewhere(e)) && c in Apply(w.server, e).calls && !e.Issue? && !e.Claim?
    requires c in w.server.calls ==> ForeignCall(w.server.past, w.family, w.server.calls[c])
    ensures ForeignCall(w.server.past, w.family, Apply(w.server, e).calls[c])
  {
    var s := w.server;
    match e
    case Decide(d) =>
      if c == d {
        assert CallOk(s.past, s.table, s.clock, s.calls[c]);
      }
    case LogoutLook(_, token) =>
      if token in s.table {
        assert RowOk(s.past, token, s.table[token]);
      }
    case _ =>
  }

  lemma ForeignStepKeepsForeign(w: World, bound: int, e: Event, c: CallId)
    requires TableOk(w.server.past, w.server.table) && CallsOk(w.server)
    requires Can(w, bound, Elsewhere(e)) && c in Apply(w.server, e).calls
    requires Known(w.server.past, w.family) && LeavesFamily(w.server, Apply(w.server, e), w.family)
    requires c in w.server.calls ==> ForeignCall(w.server.past, w.family, w.server.calls[c])
    ensures ForeignCall(Apply(w.server, e).past, w.family, Apply(w.server, e).calls[c])
  {
    if e.Issue? || e.Claim? {
      ForeignCallFrame(w.server, Apply(w.server, e), w.family, w.server.calls[c]);
    } else {
      ForeignStepsAreForeign(w, bound, e, c);
    }
  }

  lemma TabFrame(s: State, t: State, f: Family, bound: int, id: CallId, x: Exchange)
    requires Known(s.past, f) && LeavesFamily(s, t, f) && TabOk(s, f, bound, id, x)
    requires s.clock <= t.clock < x.sentAt + bound
    requires if id in s.calls then id in t.calls && t.calls[id] == s.calls[id] else id !in t.calls
    ensures TabOk(t, f, bound, id, x)
  {
  }

  /** A foreign step touches neither the calls of the tabs nor their time. */
  lemma ForeignStepElsewhere(w: World, bound: int, e: Event, id: CallId)
    requires Can(w, bound, Elsewhere(e)) && id in w.tabs && w.server.clock < w.tabs[id].sentAt + bound
    ensures var s := w.server; var t := Apply(s, e);
            && s.clock <= t.clock < w.tabs[id].sentAt + bound
            && if id in s.calls then id in t.calls && t.calls[id] == s.calls[id] else id !in t.calls
  {
  }

  lemma ForeignStepKeepsTab(w: World, bound: int, e: Event, id: CallId)
    requires Can(w, bound, Elsewhere(e)) && id in w.tabs
    requires Known(w.server.past, w.family) && LeavesFamily(w.server, Apply(w.server, e), w.family)
    requires TabOk(w.server, w.family, bound, id, w.tabs[id])
    ensures TabOk(Apply(w.server, e), w.family, bound, id, w.tabs[id])
  {
    ForeignStepElsewhere(w, bound, e, id);
    TabFrame(w.server, Apply(w.server, e), w.family, bound, id, w.tabs[id]);
  }

  lemma ForeignKeepsWinner(w: World, v: World, p: Lead)
    requires Known(w.server.past, w.family) && LeavesFamily(w.server, v.server, w.family)
    requires v.family == w.family && v.jar == w.jar && v.tabs == w.tabs
    requires OfFamily(w.server.past, w.family, Tip(w.server.past, w.family)) && TipUnrevoked(w.server, w.family)
    requires OneWinner(w, p) && NobodyAhead(w, p)
    ensures TipUnrevoked(v.server, v.family) && OneWinner(v, p) && NobodyAhead(v, p)
  {
  }

  lemma ForeignKeepsJarInv(w: World, bound: int, e: Event, p: Lead)
    requires JarInv(w, bound, p) && Can(w, bound, Elsewhere(e))
    ensures JarInv(Do(w, bound, Elsewhere(e)), bound, p)
  {
    var v := Do(w, bound, Elsewhere(e));
    assert Inv(v.server) by {
      StepKeepsInv(w.server, e);
    }
    ForeignStepLeavesFamily(w, bound, e, p);
    forall id | id in v.tabs ensures TabOk(v.server, v.family, bound, id, v.tabs[id]) {
      ForeignStepKeepsTab(w, bound, e, id);
    }
    forall c | c in v.server.calls && c !in v.tabs ensures ForeignCall(v.server.past, v.family, v.server.calls[c]) {
      ForeignStepKeepsForeign(w, bound, e, c);
    }
    assert ChainOk(w.server.past, w.family);
    ForeignKeepsWinner(w, v, p);
  }

  // ---------------------------------------------------------------------
  // The tabs' own steps
  // ---------------------------------------------------------------------

  /** The only way the family's chain moves. */
  ghost predicate MovesChain(w: World, a: Act) {
    a.Serve? && a.event.Claim? && a.id in w.server.calls && w.server.calls[a.id].Checked? && Live(w.server.table, w.server.calls[a.id].token)
  }

  /** Half the race window is enough: whatever has been replaced when it is weighed was replaced less than a window ago. */
  lemma NeverWeighedAsReuse(s: State, f: Family, bound: int, id: CallId, x: Exchange)
    requires Known(s.past, f) && TabOk(s, f, bound, id, x) && 2 * bound <= RACE_WINDOW_MS
    requires id in s.calls && s.calls[id].Looked?
    ensures !Judge(s.calls[id].stored, s.clock).KillChain?
  {
  }

  /** What a step that is not a winning claim leaves of its own exchange. */
  lemma QuietServeOwnTab(s: State, f: Family, bound: int, id: CallId, x: Exchange, e: Event)
    requires Known(s.past, f) && Enabled(s, e) && TabOk(s, f, bound, id, x)
    requires (e.Look? && e.call == id && e.token == x.token && x.phase.Sent?) || ((e.Decide? || e.Claim? || e.Abort?) && e.call == id && x.phase.Serving?)
    requires e.Decide? ==> !Judge(s.calls[id].stored, s.clock).KillChain?
    requires e.Claim? ==> !Live(s.table, s.calls[id].token)
    ensures var t := Apply(s, e);
            && t == s.(calls := t.calls)
            && TabOk(t, f, bound, id, x.(phase := PhaseAfter(s, e)))
            && !Wins(x.(phase := PhaseAfter(s, e)))
  {
  }

  lemma ServeElsewhere(w: World, bound: int, id: CallId, e: Event, c: CallId)
    requires Can(w, bound, Serve(id, e)) && c != id
    ensures var s := w.server; var t := Apply(s, e);
            if c in s.calls then c in t.calls && t.calls[c] == s.calls[c] else c !in t.calls
  {
  }

  /** What a step that is not a winning claim leaves of another exchange. */
  lemma QuietServeOther(w: World, bound: int, id: CallId, e: Event, d: CallId)
    requires Can(w, bound, Serve(id, e)) && d in w.tabs && d != id && Known(w.server.past, w.family)
    requires TabOk(w.server, w.family, bound, d, w.tabs[d])
    requires var t := Apply(w.server, e); t == w.server.(calls := t.calls)
    ensures TabOk(Apply(w.server, e), w.family, bound, d, w.tabs[d])
  {
    ServeElsewhere(w, bound, id, e, d);
    TabFrame(w.server, Apply(w.server, e), w.family, bound, d, w.tabs[d]);
  }

  /** And of the exchanges and everybody else's calls together. */
  lemma QuietServeOthers(w: World, bound: int, p: Lead, id: CallId, e: Event)
    requires JarInv(w, bound, p) && Can(w, bound, Serve(id, e))
    requires var t := Apply(w.server, e); t == w.server.(calls := t.calls)
    ensures forall d | d in w.tabs && d != id :: TabOk(Apply(w.server, e), w.family, bound, d, w.tabs[d])
    ensures forall c | c in Apply(w.server, e).calls && c !in w.tabs :: ForeignCall(w.server.past, w.family, Apply(w.server, e).calls[c])
  {
    forall d | d in w.tabs && d != id ensures TabOk(Apply(w.server, e), w.family, bound, d, w.tabs[d]) {
      QuietServeOther(w, bound, id, e, d);
    }
    forall c | c in Apply(w.server, e).calls && c !in w.tabs ensures ForeignCall(w.server.past, w.family, Apply(w.server, e).calls[c]) {
      ServeElsewhere(w, bound, id, e, c);
    }
  }

  lemma QuietServeOwn(w: World, bound: int, p: Lead, id: CallId, e: Event)
    requires JarInv(w, bound, p) && 2 * bound <= RACE_WINDOW_MS
    requires Can(w, bound, Serve(id, e)) && !MovesChain(w, Serve(id, e))
    ensures var t := Apply(w.server, e); var x := w.tabs[id].(phase := PhaseAfter(w.server, e));
            t == w.server.(calls := t.calls) && TabOk(t, w.family, bound, id, x) && !Wins(x) && !Wins(w.tabs[id])
  {
    assert TabOk(w.server, w.family, bound, id, w.tabs[id]);
    if e.Decide? {
      NeverWeighedAsReuse(w.server, w.family, bound, id, w.tabs[id]);
    }
    QuietServeOwnTab(w.server, w.family, bound, id, w.tabs[id], e);
  }

  lemma QuietServeKeepsWinner(w: World, bound: int, p: Lead, id: CallId, e: Event)
    requires Known(w.server.past, w.family) && OneWinner(w, p) && NobodyAhead(w, p) && TipUnrevoked(w.server, w.family)
    requires Can(w, bound, Serve(id, e)) && !Wins(w.tabs[id]) && !w.tabs[id].phase.Answered?
    requires !Wins(w.tabs[id].(phase := PhaseAfter(w.server, e)))
    requires var t := Apply(w.server, e); t == w.server.(calls := t.calls)
    ensures var v := Do(w, bound, Serve(id, e)); OneWinner(v, p) && NobodyAhead(v, p) && TipUnrevoked(v.server, v.family)
  {
    var v := Do(w, bound, Serve(id, e));
    assert v.server.past == w.server.past && v.server.table == w.server.table && v.jar == w.jar;
    assert forall d | d in v.tabs && d != id :: d in w.tabs && v.tabs[d] == w.tabs[d];
  }

  lemma QuietServeKeepsJarInv(w: World, bound: int, p: Lead, id: CallId, e: Event)
    requires JarInv(w, bound, p) && 2 * bound <= RACE_WINDOW_MS
    requires Can(w, bound, Serve(id, e)) && !MovesChain(w, Serve(id, e))
    ensures JarInv(Do(w, bound, Serve(id, e)), bound, p)
  {
    QuietServeOwn(w, bound, p, id, e);
    QuietServeOthers(w, bound, p, id, e);
    QuietServeKeepsWinner(w, bound, p, id, e);
    assert Inv(Apply(w.server, e)) by {
      StepKeepsInv(w.server, e);
    }
  }

  /** A winning claim: the chain has a new tip that only its answer carries. */
  lemma WinningClaim(w: World, bound: int, p: Lead, id: CallId, successor: Token)
    requires JarInv(w, bound, p) && Can(w, bound, Serve(id, Claim(id, successor))) && MovesChain(w, Serve(id, Claim(id, successor)))
    ensures p.Jar?
    ensures var s := w.server; var t := Apply(s, Claim(id, successor)); var token := w.tabs[id].token;
            && s.calls[id].token == token == Tip(s.past, w.family) && Known(t.past, w.family) && Tip(t.past, w.family) == successor
            && s.calls[id].row.family == w.family
            && t.table == ClaimRows(s.table, token, s.calls[id].row, successor, s.clock, s.past.limits.idle)
            && t.past == Succeeded(s.past, w.family, Rotation(token, successor, s.calls[id].checkedAt, s.clock))
            && PhaseAfter(s, Claim(id, successor)) == Renewing(successor, s.calls[id].row.expiresAt)
  {
    assert TabOk(w.server, w.family, bound, id, w.tabs[id]);
    ClaimIsOfTip(w.server, id);
  }

  /** Exchanges already sent when the tip is replaced were sent before, so what they carry was replaced recently enough. */
  lemma WinLeavesOtherTab(s: State, t: State, f: Family, bound: int, d: CallId, x: Exchange, successor: Token)
    requires Known(s.past, f) && TabOk(s, f, bound, d, x) && !Wins(x)
    requires Known(t.past, f) && t.clock == s.clock && successor !in s.past.owner
    requires t.past.owner == s.past.owner[successor := f]
    requires forall k | k in t.table && k != successor :: k in s.table && (t.table[k] == s.table[k] || t.table[k].revokedAt == Some(s.clock))
    requires if d in s.calls then d in t.calls && t.calls[d] == s.calls[d] else d !in t.calls
    ensures TabOk(t, f, bound, d, x)
  {
  }

  lemma WinOwnTab(s: State, t: State, f: Family, bound: int, id: CallId, x: Exchange, successor: Token, expiresAt: int)
    requires Known(s.past, f) && TabOk(s, f, bound, id, x) && x.token == Tip(s.past, f)
    requires Known(t.past, f) && t.clock == s.clock && successor == Tip(t.past, f) && successor !in s.past.owner
    requires t.past.owner == s.past.owner[successor := f]
    requires id !in t.calls && x.token in t.table && t.table[x.token].revokedAt == Some(s.clock)
    ensures TabOk(t, f, bound, id, x.(phase := Renewing(successor, expiresAt)))
    ensures Replacing(t, f, x.(phase := Renewing(successor, expiresAt)))
  {
  }

  lemma RowsAfterClaim(table: Table, token: Token, row: Row, successor: Token, now: int, idle: int)
    requires Live(table, token)
    ensures var after := ClaimRows(table, token, row, successor, now, idle);
            forall k | k in after && k != successor :: k in table && (after[k] == table[k] || after[k].revokedAt == Some(now))
  {
  }

  lemma WinKeepsOwnTab(w: World, bound: int, p: Lead, id: CallId, successor: Token)
    requires JarInv(w, bound, p) && Can(w, bound, Serve(id, Claim(id, successor))) && MovesChain(w, Serve(id, Claim(id, successor)))
    ensures var v := Do(w, bound, Serve(id, Claim(id, successor)));
            Known(v.server.past, v.family) && TabOk(v.server, v.family, bound, id, v.tabs[id]) && Replacing(v.server, v.family, v.tabs[id])
  {
    var a := Serve(id, Claim(id, successor));
    var v := Do(w, bound, a);
    WinningClaim(w, bound, p, id, successor);
    assert TabOk(w.server, w.family, bound, id, w.tabs[id]);
    WinOwnTab(w.server, v.server, w.family, bound, id, w.tabs[id], successor, w.server.calls[id].row.expiresAt);
  }

  lemma WinKeepsTab(w: World, bound: int, p: Lead, id: CallId, successor: Token, d: CallId)
    requires JarInv(w, bound, p) && Can(w, bound, Serve(id, Claim(id, successor))) && MovesChain(w, Serve(id, Claim(id, successor)))
    requires d in w.tabs && d != id
    ensures var v := Do(w, bound, Serve(id, Claim(id, successor)));
            Known(v.server.past, v.family) && TabOk(v.server, v.family, bound, d, v.tabs[d])
  {
    var a := Serve(id, Claim(id, successor));
    var v := Do(w, bound, a);
    WinningClaim(w, bound, p, id, successor);
    assert TabOk(w.server, w.family, bound, d, w.tabs[d]);
    ServeElsewhere(w, bound, id, a.event, d);
    RowsAfterClaim(w.server.table, w.tabs[id].token, w.server.calls[id].row, successor, w.server.clock, w.server.past.limits.idle);
    WinLeavesOtherTab(w.server, v.server, w.family, bound, d, w.tabs[d], successor);
  }

  lemma WinIsTheOne(w: World, bound: int, p: Lead, id: CallId, successor: Token)
    requires JarInv(w, bound, p) && Can(w, bound, Serve(id, Claim(id, successor))) && MovesChain(w, Serve(id, Claim(id, successor)))
    ensures OneWinner(Do(w, bound, Serve(id, Claim(id, successor))), Leads(id))
  {
    WinningClaim(w, bound, p, id, successor);
  }

  lemma WinKeepsTip(w: World, bound: int, p: Lead, id: CallId, successor: Token)
    requires JarInv(w, bound, p) && Can(w, bound, Serve(id, Claim(id, successor))) && MovesChain(w, Serve(id, Claim(id, successor)))
    ensures var v := Do(w, bound, Serve(id, Claim(id, successor)));
            && Known(v.server.past, v.family) && TipUnrevoked(v.server, v.family)
            && forall d | d in v.tabs && !v.tabs[d].phase.Answered? :: v.tabs[d].token != Tip(v.server.past, v.family)
  {
    var v := Do(w, bound, Serve(id, Claim(id, successor)));
    WinningClaim(w, bound, p, id, successor);
    forall d | d in v.tabs && !v.tabs[d].phase.Answered? ensures v.tabs[d].token != Tip(v.server.past, v.family) {
      assert TabOk(w.server, w.family, bound, d, w.tabs[d]);
    }
  }

  lemma WinKeepsOneWinner(w: World, bound: int, p: Lead, id: CallId, successor: Token)
    requires JarInv(w, bound, p) && Can(w, bound, Serve(id, Claim(id, successor))) && MovesChain(w, Serve(id, Claim(id, successor)))
    ensures var v := Do(w, bound, Serve(id, Claim(id, successor)));
            Known(v.server.past, v.family) && OneWinner(v, Leads(id)) && NobodyAhead(v, Leads(id)) && TipUnrevoked(v.server, v.family)
  {
    WinIsTheOne(w, bound, p, id, successor);
    WinKeepsTip(w, bound, p, id, successor);
    WinKeepsOwnTab(w, bound, p, id, successor);
    WinningClaim(w, bound, p, id, successor);
  }

  lemma ForeignAfterWin(h: History, g: History, f: Family, call: Call, successor: Token)
    requires ForeignCall(h, f, call) && g.owner == h.owner[successor := f]
    requires call.Looked? || call.Checked? ==> call.token != successor
    ensures ForeignCall(g, f, call)
  {
  }

  lemma WinKeepsForeign(w: World, bound: int, p: Lead, id: CallId, successor: Token, c: CallId)
    requires JarInv(w, bound, p) && Can(w, bound, Serve(id, Claim(id, successor))) && MovesChain(w, Serve(id, Claim(id, successor)))
    requires c in Do(w, bound, Serve(id, Claim(id, successor))).server.calls && c !in w.tabs
    ensures var v := Do(w, bound, Serve(id, Claim(id, successor)));
            ForeignCall(v.server.past, v.family, v.server.calls[c])
  {
    var call := w.server.calls[c];
    ServeElsewhere(w, bound, id, Claim(id, successor), c);
    assert call.Looked? || call.Checked? ==> call.token != successor by {
      assert CallOk(w.server.past, w.server.table, w.server.clock, call);
      assert FreshToken(w.server, successor);
    }
    assert Apply(w.server, Claim(id, successor)).past.owner == w.server.past.owner[successor := w.family] by {
      WinningClaim(w, bound, p, id, successor);
    }
    ForeignAfterWin(w.server.past, Apply(w.server, Claim(id, successor)).past, w.family, call, successor);
  }

  lemma WinKeepsJarInv(w: World, bound: int, p: Lead, id: CallId, successor: Token)
    requires JarInv(w, bound, p) && Can(w, bound, Serve(id, Claim(id, successor))) && MovesChain(w, Serve(id, Claim(id, successor)))
    ensures JarInv(Do(w, bound, Serve(id, Claim(id, successor))), bound, Leads(id))
  {
    var a := Serve(id, Claim(id, successor));
    var v := Do(w, bound, a);
    assert Inv(v.server) by {
      StepKeepsInv(w.server, a.event);
    }
    WinKeepsOneWinner(w, bound, p, id, successor);
    forall d | d in v.tabs ensures TabOk(v.server, v.family, bound, d, v.tabs[d]) {
      if d == id {
        WinKeepsOwnTab(w, bound, p, id, successor);
      } else {
        WinKeepsTab(w, bound, p, id, successor, d);
      }
    }
    forall c | c in v.server.calls && c !in v.tabs ensures ForeignCall(v.server.past, v.family, v.server.calls[c]) {
      WinKeepsForeign(w, bound, p, id, successor, c);
    }
  }

  /** What the jar holds is the tip, or was replaced by a rotation whose exchange has not been delivered yet. */
  lemma SentTokenIsRecent(w: World, bound: int, p: Lead)
    requires JarInv(w, bound, p) && w.jar.Some? && 0 < bound
    ensures w.jar.value in w.server.table ==> Recent(w.server.table[w.jar.value].revokedAt, w.server.clock, bound)
  {
    if p.Leads? || p.Clears? {
      assert TabOk(w.server, w.family, bound, p.id, w.tabs[p.id]);
    }
  }

  lemma SendKeepsJarInv(w: World, bound: int, p: Lead, id: CallId)
    requires JarInv(w, bound, p) && Can(w, bound, Send(id)) && 0 < bound
    ensures JarInv(Do(w, bound, Send(id)), bound, p)
  {
    var v := Do(w, bound, Send(id));
    if p.Leads? || p.Clears? {
      assert TabOk(w.server, w.family, bound, p.id, w.tabs[p.id]);
    }
    assert TabOk(w.server, w.family, bound, id, v.tabs[id]) by {
      SentTokenIsRecent(w, bound, p);
    }
    assert OneWinner(v, p) && NobodyAhead(v, p);
  }

  /** Acts that touch the answers and the jar only. */
  lemma TabsAlone(w: World, v: World, bound: int, id: CallId)
    requires Known(w.server.past, w.family) && v.server == w.server && v.family == w.family && id in w.tabs
    requires forall d | d in w.tabs :: TabOk(w.server, w.family, bound, d, w.tabs[d])
    requires forall c | c in w.server.calls && c !in w.tabs :: ForeignCall(w.server.past, w.family, w.server.calls[c])
    requires forall d | d in v.tabs && d != id :: d in w.tabs && v.tabs[d] == w.tabs[d]
    requires forall d | d in w.tabs && d != id :: d in v.tabs
    requires id in v.tabs ==> TabOk(v.server, v.family, bound, id, v.tabs[id])
    requires id !in w.server.calls
    ensures forall d | d in v.tabs :: TabOk(v.server, v.family, bound, d, v.tabs[d])
    ensures forall c | c in v.server.calls && c !in v.tabs :: ForeignCall(v.server.past, v.family, v.server.calls[c])
  {
  }

  lemma RenewKeepsWinner(w: World, bound: int, p: Lead, id: CallId, renewal: Renewal)
    requires Known(w.server.past, w.family) && OneWinner(w, p) && NobodyAhead(w, p)
    requires Can(w, bound, Renew(id, renewal)) && !renewal.Broken?
    ensures var v := Do(w, bound, Renew(id, renewal)); var q := if renewal.Renewed? then p else Clears(id);
            OneWinner(v, q) && NobodyAhead(v, q)
  {
  }

  /** The answer to a rotation that has committed, if it is one: with an account the tip, without one the jar is cleared. */
  lemma RenewKeepsJarInv(w: World, bound: int, p: Lead, id: CallId, renewal: Renewal)
    requires JarInv(w, bound, p) && Can(w, bound, Renew(id, renewal)) && !renewal.Broken?
    ensures JarInv(Do(w, bound, Renew(id, renewal)), bound, if renewal.Renewed? then p else Clears(id))
  {
    assert TabOk(w.server, w.family, bound, id, w.tabs[id]);
    TabsAlone(w, Do(w, bound, Renew(id, renewal)), bound, id);
    RenewKeepsWinner(w, bound, p, id, renewal);
  }

  function AfterDelivery(p: Lead, id: CallId): Lead {
    if p == Leads(id) then Jar else if p == Clears(id) then Over else p
  }

  lemma DeliverKeepsWinner(w: World, bound: int, p: Lead, id: CallId)
    requires Known(w.server.past, w.family) && OneWinner(w, p) && NobodyAhead(w, p) && Can(w, bound, Deliver(id))
    requires TabOk(w.server, w.family, bound, id, w.tabs[id]) && OfFamily(w.server.past, w.family, Tip(w.server.past, w.family))
    ensures var v := Do(w, bound, Deliver(id)); OneWinner(v, AfterDelivery(p, id)) && NobodyAhead(v, AfterDelivery(p, id))
  {
  }

  lemma DeliverKeepsJarInv(w: World, bound: int, p: Lead, id: CallId)
    requires JarInv(w, bound, p) && Can(w, bound, Deliver(id))
    ensures JarInv(Do(w, bound, Deliver(id)), bound, AfterDelivery(p, id))
  {
    assert TabOk(w.server, w.family, bound, id, w.tabs[id]);
    TabsAlone(w, Do(w, bound, Deliver(id)), bound, id);
    assert ChainOk(w.server.past, w.family);
    DeliverKeepsWinner(w, bound, p, id);
  }

  // ---------------------------------------------------------------------
  // Whole runs
  // ---------------------------------------------------------------------

  function NextLead(w: World, a: Act, p: Lead): Lead {
    match a
    case Serve(id, Claim(_, _)) =>
      if id in w.server.calls && w.server.calls[id].Checked? && Live(w.server.table, w.server.calls[id].token) then Leads(id) else p
    case Renew(id, NoAccount) => Clears(id)
    case Deliver(id) => AfterDelivery(p, id)
    case _ => p
  }

  lemma ServeKeepsJarInv(w: World, bound: int, p: Lead, id: CallId, e: Event)
    requires Can(w, bound, Serve(id, e)) && JarInv(w, bound, p) && 2 * bound <= RACE_WINDOW_MS
    ensures JarInv(Do(w, bound, Serve(id, e)), bound, NextLead(w, Serve(id, e), p))
  {
    if MovesChain(w, Serve(id, e)) {
      WinKeepsJarInv(w, bound, p, id, e.successor);
    } else {
      QuietServeKeepsJarInv(w, bound, p, id, e);
    }
  }

  lemma TabsAreNeverKilled(w: World, bound: int, a: Act)
    requires Can(w, bound, a) && Known(w.server.past, w.family)
    requires forall id | id in w.tabs :: TabOk(w.server, w.family, bound, id, w.tabs[id])
    ensures !AnswersReused(w, bound, a)
  {
    if a.Serve? {
      assert TabOk(w.server, w.family, bound, a.id, w.tabs[a.id]);
    }
  }

  lemma ActKeepsJarInv(w: World, bound: int, p: Lead, a: Act)
    requires Can(w, bound, a) && JarInv(w, bound, p) && 0 < 2 * bound <= RACE_WINDOW_MS && !Breaks(a)
    ensures JarInv(Do(w, bound, a), bound, NextLead(w, a, p))
  {
    match a
    case Send(id) => SendKeepsJarInv(w, bound, p, id);
    case Serve(id, e) => ServeKeepsJarInv(w, bound, p, id, e);
    case Renew(id, renewal) => RenewKeepsJarInv(w, bound, p, id, renewal);
    case Elsewhere(e) => ForeignKeepsJarInv(w, bound, e, p);
    case Deliver(id) => DeliverKeepsJarInv(w, bound, p, id);
    case DropCookie =>
  }

  lemma LoginEstablishes(w: World, bound: int, limits: Limits, clock: int, es: seq<Event>, lawyer: Lawyer, token: Token)
    requires JustLoggedIn(w, limits, clock, es, lawyer, token)
    ensures JarInv(w, bound, Jar)
  {
    var s := Exec(Init(limits, clock), es);
    InitKeepsInv(limits, clock);
    RunKeepsInv(Init(limits, clock), es);
    IssueKeepsInv(s, lawyer, w.family, token);
    forall c | c in w.server.calls ensures ForeignCall(w.server.past, w.family, w.server.calls[c]) {
      assert CallOk(s.past, s.table, s.clock, s.calls[c]);
    }
  }

  /** The token has been replaced by a rotation. */
  ghost predicate Replaced(h: History, token: Token) {
    exists f, k :: f in h.rotations && 0 <= k < |h.rotations[f]| && h.rotations[f][k].token == token
  }

  /** What an act may do to the jar: nothing, empty it, or put there a token that nothing has replaced. */
  ghost predicate JarMovesForward(w: World, v: World) {
    v.jar == w.jar || v.jar.None? || !Replaced(v.server.past, v.jar.value)
  }

  ghost predicate AlwaysForward(w: World, bound: int, acts: seq<Act>)
    requires Goes(w, bound, acts)
    decreases |acts|
  {
    acts == [] || (JarMovesForward(w, Do(w, bound, acts[0])) && AlwaysForward(Do(w, bound, acts[0]), bound, acts[1..]))
  }

  lemma TipIsNotReplaced(s: State, f: Family)
    requires Inv(s) && Known(s.past, f)
    ensures !Replaced(s.past, Tip(s.past, f))
  {
    forall g, k | g in s.past.rotations && 0 <= k < |s.past.rotations[g]|
      ensures s.past.rotations[g][k].token != Tip(s.past, f)
    {
      assert ChainOk(s.past, g) && s.past.rotations[g][k] in s.past.rotations[g] && ChainOk(s.past, f);
    }
  }

  lemma ActMovesJarForward(w: World, bound: int, p: Lead, a: Act)
    requires JarInv(w, bound, p) && Can(w, bound, a)
    ensures JarMovesForward(w, Do(w, bound, a))
  {
    if a.Deliver? && Wins(w.tabs[a.id]) {
      assert TabOk(w.server, w.family, bound, a.id, w.tabs[a.id]);
      TipIsNotReplaced(w.server, w.family);
    }
  }

  lemma {:induction false} HonestRun(w: World, bound: int, p: Lead, acts: seq<Act>)
    requires JarInv(w, bound, p) && Goes(w, bound, acts) && Unbroken(acts) && 0 < 2 * bound <= RACE_WINDOW_MS
    ensures !EverReused(w, bound, acts) && AlwaysForward(w, bound, acts)
    decreases |acts|
  {
    if acts != [] {
      ActKeepsJarInv(w, bound, p, acts[0]);
      TabsAreNeverKilled(w, bound, acts[0]);
      ActMovesJarForward(w, bound, p, acts[0]);
      HonestRun(Do(w, bound, acts[0]), bound, NextLead(w, acts[0], p), acts[1..]);
    }
  }
}
