/** What every step of the rotation protocol keeps, and what follows over whole runs. */
module RefreshTokenProofs {
  import opened Options
  import opened RefreshTokens

  // ---------------------------------------------------------------------
  // History: a login opens a chain, a rotation lengthens one
  // ---------------------------------------------------------------------

  lemma TokensOfFresh(owner: map<Token, Family>, token: Token, family: Family, f: Family)
    requires token !in owner
    ensures |TokensOf(owner[token := family], f)| == |TokensOf(owner, f)| + (if f == family then 1 else 0)
  {
    var after := owner[token := family];
    if f == family {
      assert TokensOf(after, f) == TokensOf(owner, f) + {token};
    } else {
      assert TokensOf(after, f) == TokensOf(owner, f);
    }
  }

  /** A family whose own history has not moved keeps its chain, whatever is minted for the others. */
  lemma ChainFrame(h: History, g: History, f: Family)
    requires Known(h, f) && ChainOk(h, f)
    requires Known(g, f) && g.births[f] == h.births[f] && g.rotations[f] == h.rotations[f] && g.limits == h.limits
    requires forall k | k in h.owner :: k in g.owner && g.owner[k] == h.owner[k]
    requires |TokensOf(g.owner, f)| == |TokensOf(h.owner, f)|
    ensures ChainOk(g, f)
  {
    forall k | 0 <= k < |g.rotations[f]| ensures LinkOk(g, f, k) {
      assert LinkOk(h, f, k);
    }
  }

  /** What a login or a rotation does to the history: nothing is forgotten. */
  ghost predicate Extends(h: History, g: History) {
    && g.limits == h.limits
    && h.births.Keys == h.rotations.Keys && g.births.Keys == g.rotations.Keys
    && (forall k | k in h.owner :: k in g.owner && g.owner[k] == h.owner[k])
    && (forall f | f in h.births :: f in g.births && g.births[f] == h.births[f])
    && (forall f | f in h.births :: g.rotations[f] == h.rotations[f] || Tip(g, f) !in h.owner)
  }

  lemma BornFacts(h: History, lawyer: Lawyer, family: Family, token: Token, now: int)
    requires h.births.Keys == h.rotations.Keys && token !in h.owner && family !in h.births
    ensures var g := Born(h, lawyer, family, token, now);
            Extends(h, g) && Known(g, family) && Tip(g, family) == token && LastAppend(g, family) == now
  {
  }

  lemma BornChain(h: History, lawyer: Lawyer, family: Family, token: Token, now: int)
    requires token !in h.owner && TokensOf(h.owner, family) == {}
    ensures ChainOk(Born(h, lawyer, family, token, now), family)
  {
    TokensOfFresh(h.owner, token, family, family);
  }

  lemma BornOtherChain(h: History, lawyer: Lawyer, family: Family, token: Token, now: int, f: Family)
    requires token !in h.owner && f != family && Known(h, f) && ChainOk(h, f)
    ensures ChainOk(Born(h, lawyer, family, token, now), f)
  {
    TokensOfFresh(h.owner, token, family, f);
    ChainFrame(h, Born(h, lawyer, family, token, now), f);
  }

  lemma BornKeepsHistory(h: History, lawyer: Lawyer, family: Family, token: Token, now: int)
    requires HistoryOk(h) && token !in h.owner && family !in h.births
    ensures HistoryOk(Born(h, lawyer, family, token, now))
  {
    var g := Born(h, lawyer, family, token, now);
    forall f | f in g.births ensures ChainOk(g, f) {
      if f == family {
        assert TokensOf(h.owner, f) == {};
        BornChain(h, lawyer, family, token, now);
      } else {
        assert ChainOk(h, f);
        BornOtherChain(h, lawyer, family, token, now, f);
      }
    }
  }

  /** A rotation of the tip, checked in time, gives a chain one link longer whose tip is the successor. */
  lemma ChainExtended(h: History, f: Family, r: Rotation)
    requires Known(h, f) && ChainOk(h, f)
    requires r.token == Tip(h, f) && r.successor !in h.owner
    requires r.checkedAt < h.births[f].at + h.limits.session && r.checkedAt < LastAppend(h, f) + h.limits.idle
    requires r.checkedAt <= r.at
    ensures ChainOk(Succeeded(h, f, r), f)
  {
    var g := Succeeded(h, f, r);
    TokensOfFresh(h.owner, r.successor, f, f);
    forall k | 0 <= k < |g.rotations[f]| ensures LinkOk(g, f, k) {
      if k < |h.rotations[f]| {
        assert LinkOk(h, f, k);
      }
    }
    assert g.owner[r.token] == f;
  }

  lemma OthersKeepChain(h: History, f: Family, r: Rotation, e: Family)
    requires Known(h, e) && ChainOk(h, e) && e != f && r.successor !in h.owner
    ensures ChainOk(Succeeded(h, f, r), e)
  {
    TokensOfFresh(h.owner, r.successor, f, e);
    ChainFrame(h, Succeeded(h, f, r), e);
  }

  lemma SucceededFacts(h: History, f: Family, r: Rotation)
    requires h.births.Keys == h.rotations.Keys && Known(h, f) && r.successor !in h.owner
    ensures var g := Succeeded(h, f, r);
            Extends(h, g) && Known(g, f) && Tip(g, f) == r.successor && LastAppend(g, f) == r.at
  {
  }

  lemma EveryChainKept(h: History, f: Family, r: Rotation)
    requires HistoryOk(h) && Known(h, f) && r.successor !in h.owner && ChainOk(Succeeded(h, f, r), f)
    ensures HistoryOk(Succeeded(h, f, r))
  {
    var g := Succeeded(h, f, r);
    forall e | e in g.births ensures ChainOk(g, e) {
      if e != f {
        assert ChainOk(h, e);
        OthersKeepChain(h, f, r, e);
      }
    }
  }

  lemma SucceededKeepsHistory(h: History, f: Family, r: Rotation)
    requires HistoryOk(h) && Known(h, f)
    requires r.token == Tip(h, f) && r.successor !in h.owner
    requires r.checkedAt < h.births[f].at + h.limits.session && r.checkedAt < LastAppend(h, f) + h.limits.idle
    requires r.checkedAt <= r.at
    ensures HistoryOk(Succeeded(h, f, r))
  {
    assert ChainOk(h, f);
    ChainExtended(h, f, r);
    EveryChainKept(h, f, r);
  }

  // ---------------------------------------------------------------------
  // One step
  // ---------------------------------------------------------------------

  /** What a purge or a revocation does to a row: it stays, or is revoked. */
  ghost predicate Weakened(before: Row, after: Row) {
    after == before || (before.revokedAt.None? && after.revokedAt.Some? && after == before.(revokedAt := after.revokedAt))
  }

  ghost predicate Weakens(before: Table, after: Table) {
    forall k | k in after :: k in before && Weakened(before[k], after[k])
  }

  lemma WeakeningKeepsWhole(h: History, before: Table, after: Table)
    requires TableOk(h, before) && Whole(h, before) && Weakens(before, after)
    requires forall j, k | j in before && k in after && before[j].family == before[k].family :: j in after
    ensures Whole(h, after)
  {
    forall j | j in h.owner ensures j in after || Gone(after, h.owner[j]) {
      if j in before {
        assert RowOk(h, j, before[j]);
      } else {
        assert Gone(before, h.owner[j]);
      }
    }
  }

  lemma WeakeningKeepsRows(h: History, before: Table, after: Table)
    requires TableOk(h, before) && Weakens(before, after)
    ensures TableOk(h, after)
  {
    forall k | k in after ensures RowOk(h, k, after[k]) {
      assert RowOk(h, k, before[k]);
    }
  }

  lemma WeakeningKeepsCall(h: History, before: Table, after: Table, clock: int, call: Call)
    requires Weakens(before, after) && CallOk(h, before, clock, call)
    ensures CallOk(h, after, clock, call)
  {
  }

  lemma WeakeningKeepsInv(s: State, table: Table)
    requires Inv(s) && Weakens(s.table, table)
    requires forall j, k | j in s.table && k in table && s.table[j].family == s.table[k].family :: j in table
    ensures Inv(s.(table := table))
  {
    var t := s.(table := table);
    WeakeningKeepsRows(s.past, s.table, table);
    WeakeningKeepsWhole(s.past, s.table, table);
    forall c | c in t.calls ensures CallOk(t.past, t.table, t.clock, t.calls[c]) {
      WeakeningKeepsCall(s.past, s.table, table, s.clock, s.calls[c]);
    }
  }

  lemma RevokeFamilyKeepsInv(s: State, c: CallId, f: Family)
    requires Inv(s)
    ensures Inv(Finish(s, c).(table := RevokeFamilyRows(s.table, f, s.clock)))
  {
    var t := Finish(s, c);
    assert CallsOk(t);
    var after := RevokeFamilyRows(s.table, f, s.clock);
    assert Weakens(s.table, after);
    WeakeningKeepsInv(t, after);
  }

  /** All rows of a family carry one lawyer and one ceiling, so a purge takes all of them or none. */
  lemma PurgeKeepsInv(s: State, lawyer: Lawyer)
    requires Inv(s)
    ensures Inv(s.(table := PurgeRows(s.table, lawyer, s.clock)))
  {
    var table := PurgeRows(s.table, lawyer, s.clock);
    forall j, k | j in s.table && k in table && s.table[j].family == s.table[k].family ensures j in table {
      assert RowOk(s.past, j, s.table[j]) && RowOk(s.past, k, s.table[k]);
    }
    WeakeningKeepsInv(s, table);
  }

  /** What minting one token does to the table. */
  ghost predicate Mints(before: Table, after: Table, token: Token) {
    forall k | k in after && k != token :: k in before && Weakened(before[k], after[k])
  }

  /** A freshly minted token changes nothing for the calls in flight. */
  lemma CallFrame(s: State, t: State, call: Call, token: Token)
    requires CallOk(s.past, s.table, s.clock, call) && s.clock == t.clock
    requires token !in s.past.owner && (call.Looked? ==> call.token != token)
    requires Extends(s.past, t.past) && Mints(s.table, t.table, token)
    ensures CallOk(t.past, t.table, t.clock, call)
  {
  }

  lemma MintKeepsCalls(s: State, t: State, token: Token)
    requires CallsOk(s) && FreshToken(s, token) && s.clock == t.clock
    requires Extends(s.past, t.past) && Mints(s.table, t.table, token)
    requires forall c | c in t.calls :: c in s.calls && t.calls[c] == s.calls[c]
    ensures CallsOk(t)
  {
    forall c | c in t.calls ensures CallOk(t.past, t.table, t.clock, t.calls[c]) {
      CallFrame(s, t, s.calls[c], token);
    }
  }

  /** A row of a family whose history has not moved. */
  lemma RowFrame(h: History, g: History, k: Token, row: Row)
    requires RowOk(h, k, row) && Extends(h, g)
    requires g.rotations[row.family] == h.rotations[row.family]
    ensures RowOk(g, k, row)
  {
  }

  lemma WholeMint(h: History, g: History, table: Table, after: Table, token: Token)
    requires Whole(h, table) && token in after && Mints(table, after, token) && table.Keys <= after.Keys
    requires token in g.owner && g.owner == h.owner[token := g.owner[token]] && after[token].family == g.owner[token]
    requires !Gone(table, g.owner[token]) || forall j | j in h.owner :: h.owner[j] != g.owner[token]
    ensures Whole(g, after)
  {
    forall j | j in g.owner ensures j in after || Gone(after, g.owner[j]) {
      if j !in after {
        assert Gone(table, h.owner[j]);
      }
    }
  }

  lemma IssueKeepsRows(s: State, lawyer: Lawyer, family: Family, token: Token)
    requires Inv(s) && Enabled(s, Issue(lawyer, family, token))
    ensures var t := ApplyIssue(s, lawyer, family, token); TableOk(t.past, t.table)
  {
    var t := ApplyIssue(s, lawyer, family, token);
    BornFacts(s.past, lawyer, family, token, s.clock);
    forall k | k in t.table ensures RowOk(t.past, k, t.table[k]) {
      if k != token {
        RowFrame(s.past, t.past, k, s.table[k]);
      }
    }
  }

  lemma IssueKeepsInv(s: State, lawyer: Lawyer, family: Family, token: Token)
    requires Inv(s) && Enabled(s, Issue(lawyer, family, token))
    ensures Inv(ApplyIssue(s, lawyer, family, token))
  {
    var t := ApplyIssue(s, lawyer, family, token);
    BornKeepsHistory(s.past, lawyer, family, token, s.clock);
    BornFacts(s.past, lawyer, family, token, s.clock);
    IssueKeepsRows(s, lawyer, family, token);
    WholeMint(s.past, t.past, s.table, t.table, token);
    MintKeepsCalls(s, t, token);
  }

  /** A claim that succeeds is a claim of the tip, within both deadlines. */
  lemma ClaimIsOfTip(s: State, c: CallId)
    requires Inv(s) && c in s.calls && s.calls[c].Checked? && Live(s.table, s.calls[c].token)
    ensures forall successor | successor !in s.past.owner ::
              Claimable(s.past, s.table, s.calls[c].row, Rotation(s.calls[c].token, successor, s.calls[c].checkedAt, s.clock))
  {
    var token := s.calls[c].token;
    assert CallOk(s.past, s.table, s.clock, s.calls[c]);
    assert RowOk(s.past, token, s.table[token]);
  }

  /** Everything a successful claim may rely on: the token claimed is the live tip, checked in time. */
  ghost predicate Claimable(h: History, table: Table, row: Row, r: Rotation) {
    var f := row.family;
    && Live(table, r.token) && RowFits(h, r.token, row) && table[r.token].family == f
    && r.token == Tip(h, f) && r.successor !in h.owner
    && r.checkedAt < row.expiresAt && r.checkedAt < LastAppend(h, f) + h.limits.idle && r.checkedAt <= r.at
  }

  lemma ClaimKeepsRow(h: History, table: Table, row: Row, r: Rotation, k: Token)
    requires h.births.Keys == h.rotations.Keys && Claimable(h, table, row, r)
    requires k in table && k != r.successor && RowOk(h, k, table[k])
    ensures RowOk(Succeeded(h, row.family, r), k, RevokeRow(table, r.token, r.at)[k])
  {
    SucceededFacts(h, row.family, r);
    if table[k].family != row.family {
      RowFrame(h, Succeeded(h, row.family, r), k, table[k]);
    }
  }

  lemma ClaimKeepsTable(h: History, table: Table, row: Row, r: Rotation)
    requires HistoryOk(h) && TableOk(h, table) && Claimable(h, table, row, r)
    ensures TableOk(Succeeded(h, row.family, r), ClaimRows(table, r.token, row, r.successor, r.at, h.limits.idle))
  {
    var g := Succeeded(h, row.family, r);
    var after := ClaimRows(table, r.token, row, r.successor, r.at, h.limits.idle);
    SucceededFacts(h, row.family, r);
    forall k | k in after ensures RowOk(g, k, after[k]) {
      if k != r.successor {
        assert RowOk(h, k, table[k]);
        ClaimKeepsRow(h, table, row, r, k);
      }
    }
  }

  lemma ClaimMints(table: Table, row: Row, r: Rotation, idle: int)
    requires Live(table, r.token) && r.successor !in table
    ensures var after := ClaimRows(table, r.token, row, r.successor, r.at, idle);
            Mints(table, after, r.successor) && after.Keys == table.Keys + {r.successor} && after[r.successor].family == row.family
  {
  }

  lemma ClaimKeepsInv(s: State, c: CallId, successor: Token)
    requires Inv(s) && Enabled(s, Claim(c, successor)) && Live(s.table, s.calls[c].token)
    ensures Inv(ApplyClaim(s, c, successor))
  {
    var t := ApplyClaim(s, c, successor);
    var call := s.calls[c];
    var r := Rotation(call.token, successor, call.checkedAt, s.clock);
    ClaimIsOfTip(s, c);
    assert successor !in s.table by {
      assert forall k | k in s.table :: RowOk(s.past, k, s.table[k]);
    }
    ClaimMints(s.table, call.row, r, s.past.limits.idle);
    assert HistoryOk(t.past) by {
      SucceededKeepsHistory(s.past, call.row.family, r);
    }
    assert Extends(s.past, t.past) by {
      SucceededFacts(s.past, call.row.family, r);
    }
    assert TableOk(t.past, t.table) by {
      ClaimKeepsTable(s.past, s.table, call.row, r);
    }
    assert Whole(t.past, t.table) by {
      assert call.token in s.table;
      WholeMint(s.past, t.past, s.table, t.table, successor);
    }
    assert CallsOk(t) by {
      MintKeepsCalls(s, t, successor);
    }
  }

  /** Steps that leave table and history alone keep the invariant if the calls they leave are good. */
  lemma CallsKeepInv(s: State, t: State)
    requires Inv(s) && t == s.(clock := t.clock, calls := t.calls) && s.clock <= t.clock
    requires forall c | c in t.calls :: (c in s.calls && t.calls[c] == s.calls[c]) || CallOk(s.past, s.table, s.clock, t.calls[c])
    ensures Inv(t)
  {
    forall c | c in t.calls ensures CallOk(t.past, t.table, t.clock, t.calls[c]) {
      assert CallOk(s.past, s.table, s.clock, t.calls[c]);
    }
  }

  lemma ReadingIsSound(s: State, token: Token)
    requires Inv(s)
    ensures CallOk(s.past, s.table, s.clock, Looked(token, Find(s.table, token)))
    ensures token in s.table ==> CallOk(s.past, s.table, s.clock, Leaving(s.table[token].family))
  {
    if token in s.table {
      assert RowOk(s.past, token, s.table[token]);
    }
  }

  lemma DecisionIsSound(h: History, table: Table, now: int, token: Token, row: Row)
    requires CallOk(h, table, now, Looked(token, Some(row)))
    ensures Judge(Some(row), now).Proceed? ==> CallOk(h, table, now, Checked(token, row, now))
    ensures CallOk(h, table, now, Killing(token, row.family))
  {
  }

  lemma DecideKeepsInv(s: State, c: CallId)
    requires Inv(s) && Enabled(s, Decide(c))
    ensures Inv(ApplyDecide(s, c))
  {
    var Looked(token, stored) := s.calls[c];
    match Judge(stored, s.clock)
    case Refuse(_) => CallsKeepInv(s, Finish(s, c));
    case KillChain =>
      assert CallOk(s.past, s.table, s.clock, s.calls[c]);
      DecisionIsSound(s.past, s.table, s.clock, token, stored.value);
      CallsKeepInv(s, s.(calls := s.calls[c := Killing(token, stored.value.family)]));
    case Proceed =>
      assert CallOk(s.past, s.table, s.clock, s.calls[c]);
      DecisionIsSound(s.past, s.table, s.clock, token, stored.value);
      CallsKeepInv(s, s.(calls := s.calls[c := Checked(token, stored.value, s.clock)]));
  }

  lemma StepKeepsInv(s: State, e: Event)
    requires Inv(s) && Enabled(s, e)
    ensures Inv(Apply(s, e))
  {
    match e
    case Issue(lawyer, family, token) => IssueKeepsInv(s, lawyer, family, token);
    case Claim(c, successor) =>
      if Live(s.table, s.calls[c].token) {
        ClaimKeepsInv(s, c, successor);
      } else {
        CallsKeepInv(s, Finish(s, c));
      }
    case Purge(lawyer) => PurgeKeepsInv(s, lawyer);
    case Kill(c) => RevokeFamilyKeepsInv(s, c, s.calls[c].family);
    case LogoutRevoke(c) => RevokeFamilyKeepsInv(s, c, s.calls[c].family);
    case Decide(c) => DecideKeepsInv(s, c);
    case Look(c, token) => ReadingIsSound(s, token); CallsKeepInv(s, s.(calls := s.calls[c := Looked(token, Find(s.table, token))]));
    case LogoutLook(c, token) =>
      if token in s.table {
        ReadingIsSound(s, token);
        CallsKeepInv(s, s.(calls := s.calls[c := Leaving(s.table[token].family)]));
      }
    case Abort(c) => CallsKeepInv(s, Finish(s, c));
    case Tick(now) => CallsKeepInv(s, s.(clock := now));
  }

  lemma {:induction false} RunKeepsInv(s: State, es: seq<Event>)
    requires Inv(s) && Runs(s, es)
    ensures Inv(Exec(s, es))
    decreases |es|
  {
    if es != [] {
      StepKeepsInv(s, es[0]);
      RunKeepsInv(Apply(s, es[0]), es[1..]);
    }
  }

  lemma InitKeepsInv(limits: Limits, clock: int)
    ensures Inv(Init(limits, clock))
  {
  }

  // ---------------------------------------------------------------------
  // Whole runs: one live row, and a row for every rotation
  // ---------------------------------------------------------------------

  lemma OthersCountNothing(s: State, e: Event, f: Family)
    requires s.past.births.Keys == s.past.rotations.Keys && Enabled(s, e) && !e.Claim?
    ensures RotationsOf(Apply(s, e).past, f) == RotationsOf(s.past, f) && !RotatesIn(s, e, f)
  {
  }

  lemma StepCounts(s: State, e: Event, f: Family)
    requires Inv(s) && Enabled(s, e)
    ensures |RotationsOf(Apply(s, e).past, f)| == |RotationsOf(s.past, f)| + (if RotatesIn(s, e, f) then 1 else 0)
  {
    if !e.Claim? {
      OthersCountNothing(s, e, f);
    }
  }

  lemma {:induction false} RunCounts(s: State, es: seq<Event>, f: Family)
    requires Inv(s) && Runs(s, es)
    ensures |RotationsOf(Exec(s, es).past, f)| == |RotationsOf(s.past, f)| + CountRotated(s, es, f)
    decreases |es|
  {
    if es != [] {
      StepKeepsInv(s, es[0]);
      StepCounts(s, es[0], f);
      RunCounts(Apply(s, es[0]), es[1..], f);
    }
  }

  /** In every reachable state a family has at most one unrevoked row. */
  lemma AtMostOneLiveRow(limits: Limits, clock: int, es: seq<Event>, j: Token, k: Token)
    requires Runs(Init(limits, clock), es)
    requires var t := Exec(Init(limits, clock), es).table; Live(t, j) && Live(t, k) && t[j].family == t[k].family
    ensures j == k
  {
    InitKeepsInv(limits, clock);
    RunKeepsInv(Init(limits, clock), es);
    var s := Exec(Init(limits, clock), es);
    assert RowOk(s.past, j, s.table[j]) && RowOk(s.past, k, s.table[k]);
  }

  /** A family that still has rows has one for the login and one for each 'rotated' answered in it, no more, no less. */
  lemma OneRowPerRotation(limits: Limits, clock: int, es: seq<Event>, f: Family)
    requires Runs(Init(limits, clock), es)
    requires RowsOf(Exec(Init(limits, clock), es).table, f) != {}
    ensures |RowsOf(Exec(Init(limits, clock), es).table, f)| == 1 + CountRotated(Init(limits, clock), es, f)
  {
    var init := Init(limits, clock);
    InitKeepsInv(limits, clock);
    RunKeepsInv(init, es);
    RunCounts(init, es, f);
    var s := Exec(init, es);
    RowsAreTokens(s, f);
  }

  lemma RowsAreTokens(s: State, f: Family)
    requires Inv(s) && RowsOf(s.table, f) != {}
    ensures f in s.past.births && RowsOf(s.table, f) == TokensOf(s.past.owner, f)
  {
    var w :| w in RowsOf(s.table, f);
    assert RowOk(s.past, w, s.table[w]);
    forall k | k in s.past.owner && s.past.owner[k] == f ensures k in RowsOf(s.table, f) {
      assert k in s.table || Gone(s.table, f);
      assert RowOk(s.past, k, s.table[k]);
    }
    forall k | k in RowsOf(s.table, f) ensures k in TokensOf(s.past.owner, f) {
      assert RowOk(s.past, k, s.table[k]);
    }
  }

  // ---------------------------------------------------------------------
  // A dead family stays dead
  // ---------------------------------------------------------------------

  /** The family has been opened and has no unrevoked row left, if it has rows at all. */
  ghost predicate Dead(s: State, f: Family) {
    f in s.past.births && forall k | k in s.table && s.table[k].family == f :: s.table[k].revokedAt.Some?
  }

  /** A successful claim moves nothing but its own family. */
  lemma ClaimLeavesOthers(s: State, c: CallId, successor: Token, f: Family)
    requires Enabled(s, Claim(c, successor)) && Live(s.table, s.calls[c].token)
    requires s.table[s.calls[c].token].family == s.calls[c].row.family != f
    ensures var t := ApplyClaim(s, c, successor);
            && t.past.births == s.past.births
            && (f in s.past.rotations <==> f in t.past.rotations)
            && RotationsOf(t.past, f) == RotationsOf(s.past, f)
            && forall k | k in t.table && t.table[k].family == f :: k in s.table && t.table[k] == s.table[k]
  {
  }

  lemma DeadClaim(s: State, c: CallId, successor: Token, f: Family)
    requires Inv(s) && Enabled(s, Claim(c, successor)) && Dead(s, f)
    ensures Dead(ApplyClaim(s, c, successor), f) && !RotatesIn(s, Claim(c, successor), f)
  {
    if Live(s.table, s.calls[c].token) {
      ClaimIsOfTip(s, c);
      ClaimLeavesOthers(s, c, successor, f);
    }
  }

  lemma DeadOtherwise(s: State, e: Event, f: Family)
    requires Enabled(s, e) && Dead(s, f) && !e.Claim?
    ensures Dead(Apply(s, e), f) && !RotatesIn(s, e, f)
  {
  }

  lemma DeadStep(s: State, e: Event, f: Family)
    requires Inv(s) && Enabled(s, e) && Dead(s, f)
    ensures Dead(Apply(s, e), f) && !RotatesIn(s, e, f)
  {
    if e.Claim? {
      DeadClaim(s, e.call, e.successor, f);
    } else {
      DeadOtherwise(s, e, f);
    }
  }

  /** Not even a rotation whose read had already seen a live token brings it back. */
  lemma {:induction false} DeadForEver(s: State, es: seq<Event>, f: Family)
    requires Inv(s) && Runs(s, es) && Dead(s, f)
    ensures Dead(Exec(s, es), f) && CountRotated(s, es, f) == 0
    decreases |es|
  {
    if es != [] {
      StepKeepsInv(s, es[0]);
      DeadStep(s, es[0], f);
      DeadForEver(Apply(s, es[0]), es[1..], f);
    }
  }

  /** A reuse or a logout kills the family it found, and a purge that takes one row of a family takes the family. */
  lemma WhatKills(s: State, e: Event)
    requires Inv(s) && Enabled(s, e)
    ensures e.Kill? || e.LogoutRevoke? ==> Dead(Apply(s, e), s.calls[e.call].family)
    ensures e.Purge? ==> forall k | k in s.table && k !in Apply(s, e).table ::
              Gone(Apply(s, e).table, s.table[k].family) && Dead(Apply(s, e), s.table[k].family)
  {
    if e.Kill? || e.LogoutRevoke? {
      assert CallOk(s.past, s.table, s.clock, s.calls[e.call]);
    }
    if e.Purge? {
      forall k, j | k in s.table && k !in Apply(s, e).table && j in Apply(s, e).table
        ensures s.table[k].family in s.past.births && s.table[j].family != s.table[k].family
      {
        assert RowOk(s.past, k, s.table[k]) && RowOk(s.past, j, s.table[j]);
      }
      forall k | k in s.table && k !in Apply(s, e).table ensures s.table[k].family in s.past.births {
        assert RowOk(s.past, k, s.table[k]);
      }
    }
  }

  // ---------------------------------------------------------------------
  // Purges, and 'unknown'
  // ---------------------------------------------------------------------

  /** The purge deletes a family whole, and only once its ceiling is past, or does not touch it. */
  lemma PurgeIsAllOrNothing(s: State, lawyer: Lawyer, f: Family)
    requires Inv(s) && f in s.past.births
    ensures var after := PurgeRows(s.table, lawyer, s.clock);
            if s.past.births[f].lawyer == lawyer && s.past.births[f].at + s.past.limits.session < s.clock
            then Gone(after, f)
            else forall k | k in s.table && s.table[k].family == f :: k in after && after[k] == s.table[k]
  {
    forall k | k in s.table && s.table[k].family == f
      ensures s.table[k].lawyer == s.past.births[f].lawyer
      ensures s.table[k].expiresAt == s.past.births[f].at + s.past.limits.session
    {
      assert RowOk(s.past, k, s.table[k]);
    }
  }

  /** A token that was issued is answered 'unknown' only when its whole family has left the table. */
  lemma UnknownOnlyOnceForgotten(s: State, c: CallId)
    requires Inv(s) && Enabled(s, Decide(c))
    requires s.calls[c].token in s.past.owner
    requires Answer(s, Decide(c)) == Some(Rejected(Unknown))
    ensures Gone(s.table, s.past.owner[s.calls[c].token])
  {
    assert CallOk(s.past, s.table, s.clock, s.calls[c]);
  }

  // ---------------------------------------------------------------------
  // Deadlines
  // ---------------------------------------------------------------------

  /**
   * The k-th rotation of a family replaced the token of the (k-1)-th append, and passed its check strictly
   * before issue + SESSION_EXPIRES and strictly before that append + SESSION_IDLE_EXPIRES. No token is replaced twice.
   */
  lemma EveryRotationWasInTime(limits: Limits, clock: int, es: seq<Event>, f: Family, k: nat)
    requires Runs(Init(limits, clock), es)
    requires var h := Exec(Init(limits, clock), es).past; Known(h, f) && k < |h.rotations[f]|
    ensures var h := Exec(Init(limits, clock), es).past;
            && h.limits == limits
            && h.rotations[f][k].token == TokenAt(h, f, k)
            && h.rotations[f][k].checkedAt < h.births[f].at + limits.session
            && h.rotations[f][k].checkedAt < AppendTime(h, f, k) + limits.idle
            && h.rotations[f][k].checkedAt <= h.rotations[f][k].at
            && forall i | 0 <= i < |h.rotations[f]| && i != k :: h.rotations[f][i].token != h.rotations[f][k].token
  {
    InitKeepsInv(limits, clock);
    RunKeepsInv(Init(limits, clock), es);
    LimitsFixed(Init(limits, clock), es);
    var h := Exec(Init(limits, clock), es).past;
    assert ChainOk(h, f) && LinkOk(h, f, k);
  }

  lemma {:induction false} LimitsFixed(s: State, es: seq<Event>)
    requires Runs(s, es)
    ensures Exec(s, es).past.limits == s.past.limits
    decreases |es|
  {
    if es != [] {
      LimitsFixed(Apply(s, es[0]), es[1..]);
    }
  }

  /** The idle span or the session has run out, and nobody is past the check with the current token. */
  ghost predicate Closed(s: State, f: Family) {
    && Known(s.past, f)
    && (s.clock >= LastAppend(s.past, f) + s.past.limits.idle || s.clock >= s.past.births[f].at + s.past.limits.session)
    && forall c | c in s.calls && s.calls[c].Checked? :: s.calls[c].token != Tip(s.past, f)
  }

  /** The snapshot of the tip, however old, carries the deadlines the family is judged by. */
  lemma TipHasRunOut(s: State, c: CallId, f: Family)
    requires Inv(s) && Enabled(s, Decide(c)) && Closed(s, f) && s.calls[c].token == Tip(s.past, f)
    ensures !Judge(s.calls[c].stored, s.clock).Proceed?
  {
    assert CallOk(s.past, s.table, s.clock, s.calls[c]);
    assert ChainOk(s.past, f);
  }

  lemma ClosedFrame(s: State, t: State, f: Family)
    requires Closed(s, f) && t.clock == s.clock && t.past.limits == s.past.limits && t.past.births == s.past.births
    requires f in t.past.rotations && t.past.rotations[f] == s.past.rotations[f]
    requires forall c | c in t.calls :: c in s.calls && t.calls[c] == s.calls[c]
    ensures Closed(t, f)
  {
  }

  lemma ClosedClaim(s: State, c: CallId, successor: Token, f: Family)
    requires Inv(s) && Enabled(s, Claim(c, successor)) && Closed(s, f)
    ensures Closed(ApplyClaim(s, c, successor), f) && !RotatesIn(s, Claim(c, successor), f)
  {
    if Live(s.table, s.calls[c].token) {
      assert s.calls[c].row.family != f && s.table[s.calls[c].token].family == s.calls[c].row.family by {
        ClaimIsOfTip(s, c);
      }
      ClaimLeavesOthers(s, c, successor, f);
    }
    ClosedFrame(s, ApplyClaim(s, c, successor), f);
  }

  lemma ClosedOtherwise(s: State, e: Event, f: Family)
    requires Enabled(s, e) && Closed(s, f) && !e.Claim?
    requires e.Decide? && s.calls[e.call].token == Tip(s.past, f) ==> !Judge(s.calls[e.call].stored, s.clock).Proceed?
    ensures Closed(Apply(s, e), f) && !RotatesIn(s, e, f)
  {
  }

  lemma ClosedStep(s: State, e: Event, f: Family)
    requires Inv(s) && Enabled(s, e) && Closed(s, f)
    ensures Closed(Apply(s, e), f) && !RotatesIn(s, e, f)
  {
    if e.Claim? {
      ClosedClaim(s, e.call, e.successor, f);
    } else {
      if e.Decide? && s.calls[e.call].token == Tip(s.past, f) {
        TipHasRunOut(s, e.call, f);
      }
      ClosedOtherwise(s, e, f);
    }
  }

  /** A family unused for the idle span never rotates again. */
  lemma {:induction false} ClosedForEver(s: State, es: seq<Event>, f: Family)
    requires Inv(s) && Runs(s, es) && Closed(s, f)
    ensures Closed(Exec(s, es), f) && CountRotated(s, es, f) == 0
    decreases |es|
  {
    if es != [] {
      StepKeepsInv(s, es[0]);
      ClosedStep(s, es[0], f);
      ClosedForEver(Apply(s, es[0]), es[1..], f);
    }
  }
}
