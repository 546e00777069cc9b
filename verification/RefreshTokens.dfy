/**
 * Rotation of refresh tokens with reuse detection (section 4.14.2 of RFC 9700).
 *
 * The table is keyed by the token itself: its hash is taken to be injective.
 * Every `await` of the service is a point where other calls may run, so a call
 * is a sequence of steps, and a run is any interleaving of the steps of any
 * number of calls. The claim and the append of `rotate` are one transaction and
 * therefore one step.
 */
module RefreshTokens {
  import opened Options

  type Token = nat
  type Family = nat
  type Lawyer = nat
  type CallId = nat

  /** Milliseconds, as in the service. */
  const RACE_WINDOW_MS: int := 30_000

  datatype Row = Row(
    family: Family,
    lawyer: Lawyer,
    expiresAt: int,
    idleExpiresAt: int,
    revokedAt: Option<int>)

  type Table = map<Token, Row>

  /** SESSION_EXPIRES and SESSION_IDLE_EXPIRES, in milliseconds. */
  datatype Limits = Limits(session: int, idle: int)

  datatype Reason = Unknown | Expired | ReusedToken | Raced

  datatype Outcome =
    | Rotated(successor: Token, lawyer: Lawyer, expiresAt: int)
    | Rejected(reason: Reason)

  // ---------------------------------------------------------------------
  // What the queries do to the table
  // ---------------------------------------------------------------------

  /** The decision `rotate` takes on the row it has read. */
  datatype Verdict = Refuse(reason: Reason) | KillChain | Proceed

  function Judge(stored: Option<Row>, now: int): Verdict {
    match stored
    case None => Refuse(Unknown)
    case Some(row) =>
      match row.revokedAt
      case Some(at) =>
        if now - at < RACE_WINDOW_MS then Refuse(Raced) else KillChain
      case None =>
        if row.expiresAt <= now || row.idleExpiresAt <= now then Refuse(Expired) else Proceed
  }

  function Find(table: Table, token: Token): Option<Row> {
    if token in table then Some(table[token]) else None
  }

  predicate Live(table: Table, token: Token) {
    token in table && table[token].revokedAt.None?
  }

  function AppendRow(table: Table, token: Token, lawyer: Lawyer, family: Family, expiresAt: int, idleExpiresAt: int): Table {
    table[token := Row(family, lawyer, expiresAt, idleExpiresAt, None)]
  }

  function RevokeRow(table: Table, token: Token, now: int): Table
    requires token in table
  {
    table[token := table[token].(revokedAt := Some(now))]
  }

  function RevokeFamilyRows(table: Table, family: Family, now: int): Table {
    map k | k in table ::
      if table[k].family == family && table[k].revokedAt.None?
      then table[k].(revokedAt := Some(now)) else table[k]
  }

  function PurgeRows(table: Table, lawyer: Lawyer, now: int): Table {
    map k | k in table && !(table[k].lawyer == lawyer && table[k].expiresAt < now) :: table[k]
  }

  // ---------------------------------------------------------------------
  // The step machine
  // ---------------------------------------------------------------------

  /** A call in flight, as it stands at its current `await`. */
  datatype Call =
    | Looked(token: Token, stored: Option<Row>)            // the row has been read, nothing decided
    | Checked(token: Token, row: Row, checkedAt: int)      // both deadlines passed, claim pending
    | Killing(token: Token, family: Family)                // reuse found, revokeFamily pending
    | Leaving(family: Family)                              // logout, revokeFamily pending

  /** Recorded when a family is opened, and each time it rotates. */
  datatype Birth = Birth(lawyer: Lawyer, at: int, first: Token)
  datatype Rotation = Rotation(token: Token, successor: Token, checkedAt: int, at: int)

  /** Everything ever minted. No step decides anything from it but freshness; purges leave it alone. */
  datatype History = History(
    limits: Limits,
    owner: map<Token, Family>,
    births: map<Family, Birth>,
    rotations: map<Family, seq<Rotation>>)

  datatype State = State(clock: int, table: Table, calls: map<CallId, Call>, past: History)

  datatype Event =
    | Tick(now: int)
    | Issue(lawyer: Lawyer, family: Family, token: Token)
    | Purge(lawyer: Lawyer)
    | Look(call: CallId, token: Token)
    | Decide(call: CallId)
    | Claim(call: CallId, successor: Token)
    | Kill(call: CallId)
    | LogoutLook(call: CallId, token: Token)
    | LogoutRevoke(call: CallId)
    | Abort(call: CallId)                 // an await throws: the transaction rolls back, the call ends

  function Init(limits: Limits, clock: int): State {
    State(clock, map[], map[], History(limits, map[], map[], map[]))
  }

  /** 256 random bits: never minted before, and not a value somebody has already guessed. */
  ghost predicate FreshToken(s: State, token: Token) {
    && token !in s.past.owner
    && forall c | c in s.calls && s.calls[c].Looked? :: s.calls[c].token != token
  }

  ghost predicate Enabled(s: State, e: Event) {
    match e
    case Tick(now) => s.clock <= now
    case Issue(_, family, token) => FreshToken(s, token) && family !in s.past.births
    case Purge(_) => true
    case Look(c, _) => c !in s.calls
    case Decide(c) => c in s.calls && s.calls[c].Looked?
    case Claim(c, successor) => c in s.calls && s.calls[c].Checked? && FreshToken(s, successor)
    case Kill(c) => c in s.calls && s.calls[c].Killing?
    case LogoutLook(c, _) => c !in s.calls
    case LogoutRevoke(c) => c in s.calls && s.calls[c].Leaving?
    case Abort(c) => c in s.calls
  }

  function Finish(s: State, c: CallId): State {
    s.(calls := s.calls - {c})
  }

  function Born(h: History, lawyer: Lawyer, family: Family, token: Token, now: int): History {
    h.(owner := h.owner[token := family],
    births := h.births[family := Birth(lawyer, now, token)],
    rotations := h.rotations[family := []])
  }

  function RotationsOf(h: History, f: Family): seq<Rotation> {
    if f in h.rotations then h.rotations[f] else []
  }

  function Succeeded(h: History, f: Family, r: Rotation): History {
    h.(owner := h.owner[r.successor := f], rotations := h.rotations[f := RotationsOf(h, f) + [r]])
  }

  function ApplyIssue(s: State, lawyer: Lawyer, family: Family, token: Token): State {
    var limits := s.past.limits;
    s.(table := AppendRow(s.table, token, lawyer, family, s.clock + limits.session, s.clock + limits.idle),
    past := Born(s.past, lawyer, family, token, s.clock))
  }

  function ApplyDecide(s: State, c: CallId): State
    requires c in s.calls && s.calls[c].Looked?
  {
    var Looked(token, stored) := s.calls[c];
    match Judge(stored, s.clock)
    case Refuse(_) => Finish(s, c)
    case KillChain => s.(calls := s.calls[c := Killing(token, stored.value.family)])
    case Proceed => s.(calls := s.calls[c := Checked(token, stored.value, s.clock)])
  }

  /** The claim and the successor, both or neither: lines 96-111. */
  function ClaimRows(table: Table, token: Token, row: Row, successor: Token, now: int, idle: int): Table
    requires Live(table, token)
  {
    AppendRow(RevokeRow(table, token, now), successor, row.lawyer, row.family, row.expiresAt, now + idle)
  }

  function ApplyClaim(s: State, c: CallId, successor: Token): State
    requires c in s.calls && s.calls[c].Checked?
  {
    var Checked(token, row, checkedAt) := s.calls[c];
    if Live(s.table, token) then
      Finish(s, c).(
      table := ClaimRows(s.table, token, row, successor, s.clock, s.past.limits.idle),
      past := Succeeded(s.past, row.family, Rotation(token, successor, checkedAt, s.clock)))
    else
      Finish(s, c)
  }

  ghost function Apply(s: State, e: Event): State
    requires Enabled(s, e)
  {
    match e
    case Tick(now) => s.(clock := now)
    case Issue(lawyer, family, token) => ApplyIssue(s, lawyer, family, token)
    case Purge(lawyer) => s.(table := PurgeRows(s.table, lawyer, s.clock))
    case Look(c, token) => s.(calls := s.calls[c := Looked(token, Find(s.table, token))])
    case Decide(c) => ApplyDecide(s, c)
    case Claim(c, successor) => ApplyClaim(s, c, successor)
    case Kill(c) => Finish(s, c).(table := RevokeFamilyRows(s.table, s.calls[c].family, s.clock))
    case LogoutLook(c, token) =>
      if token in s.table then s.(calls := s.calls[c := Leaving(s.table[token].family)]) else s
    case LogoutRevoke(c) => Finish(s, c).(table := RevokeFamilyRows(s.table, s.calls[c].family, s.clock))
    case Abort(c) => Finish(s, c)
  }

  /** What the step answers to the caller of `rotate`, if it is the last step of that call. */
  ghost function Answer(s: State, e: Event): Option<Outcome>
    requires Enabled(s, e)
  {
    match e
    case Decide(c) =>
      var verdict := Judge(s.calls[c].stored, s.clock);
      if verdict.Refuse? then Some(Rejected(verdict.reason)) else None
    case Claim(c, successor) =>
      if Live(s.table, s.calls[c].token)
      then Some(Rotated(successor, s.calls[c].row.lawyer, s.calls[c].row.expiresAt))
      else Some(Rejected(Raced))
    case Kill(_) => Some(Rejected(ReusedToken))
    case _ => None
  }

  ghost predicate Runs(s: State, es: seq<Event>)
    decreases |es|
  {
    es == [] || (Enabled(s, es[0]) && Runs(Apply(s, es[0]), es[1..]))
  }

  ghost function Exec(s: State, es: seq<Event>): State
    requires Runs(s, es)
    decreases |es|
  {
    if es == [] then s else Exec(Apply(s, es[0]), es[1..])
  }

  function AsList(o: Option<Outcome>): seq<Outcome> {
    match o
    case None => []
    case Some(v) => [v]
  }

  /** Everything a run answers, in order. */
  ghost function Answers(s: State, es: seq<Event>): seq<Outcome>
    requires Runs(s, es)
    decreases |es|
  {
    if es == [] then []
    else AsList(Answer(s, es[0])) + Answers(Apply(s, es[0]), es[1..])
  }

  /** The step is a rotation of family `f` that was answered 'rotated'. */
  ghost predicate RotatesIn(s: State, e: Event, f: Family)
    requires Enabled(s, e)
  {
    e.Claim? && Answer(s, e).Some? && Answer(s, e).value.Rotated? && s.calls[e.call].row.family == f
  }

  ghost function CountRotated(s: State, es: seq<Event>, f: Family): nat
    requires Runs(s, es)
    decreases |es|
  {
    if es == [] then 0
    else (if RotatesIn(s, es[0], f) then 1 else 0) + CountRotated(Apply(s, es[0]), es[1..], f)
  }

  // ---------------------------------------------------------------------
  // The chain of a family, from its history
  // ---------------------------------------------------------------------

  ghost predicate Known(h: History, f: Family) {
    f in h.births && f in h.rotations
  }

  /** The token of the family that has not been replaced. */
  ghost function Tip(h: History, f: Family): Token
    requires Known(h, f)
  {
    var past := h.rotations[f];
    if past == [] then h.births[f].first else past[|past| - 1].successor
  }

  /** When the k-th token of the family was appended, k = 0 being the login. */
  ghost function AppendTime(h: History, f: Family, k: nat): int
    requires Known(h, f) && k <= |h.rotations[f]|
  {
    if k == 0 then h.births[f].at else h.rotations[f][k - 1].at
  }

  /** The k-th token of the family, k = 0 being the one the login handed out. */
  ghost function TokenAt(h: History, f: Family, k: nat): Token
    requires Known(h, f) && k <= |h.rotations[f]|
  {
    if k == 0 then h.births[f].first else h.rotations[f][k - 1].successor
  }

  ghost function LastAppend(h: History, f: Family): int
    requires Known(h, f)
  {
    AppendTime(h, f, |h.rotations[f]|)
  }

  ghost function TokensOf(owner: map<Token, Family>, f: Family): set<Token> {
    set k | k in owner && owner[k] == f
  }

  ghost function RowsOf(table: Table, f: Family): set<Token> {
    set k | k in table && table[k].family == f
  }

  // ---------------------------------------------------------------------
  // The invariant
  // ---------------------------------------------------------------------

  /** The k-th rotation replaced the k-th token, checked before the ceiling and before that token's idle deadline. */
  ghost predicate LinkOk(h: History, f: Family, k: nat)
    requires Known(h, f) && k < |h.rotations[f]|
  {
    var r := h.rotations[f][k];
    && r.token == TokenAt(h, f, k)
    && r.checkedAt < h.births[f].at + h.limits.session
    && r.checkedAt < AppendTime(h, f, k) + h.limits.idle
    && r.checkedAt <= r.at
  }

  ghost predicate ReplacedOnce(rs: seq<Rotation>) {
    forall i, j | 0 <= i < j < |rs| :: rs[i].token != rs[j].token
  }

  ghost predicate ChainOk(h: History, f: Family)
    requires Known(h, f)
  {
    && Tip(h, f) in h.owner && h.owner[Tip(h, f)] == f
    && (forall k {:trigger LinkOk(h, f, k)} | 0 <= k < |h.rotations[f]| :: LinkOk(h, f, k))
    && (forall r | r in h.rotations[f] :: r.token in h.owner && h.owner[r.token] == f && r.token != Tip(h, f))
    && ReplacedOnce(h.rotations[f])
    && |TokensOf(h.owner, f)| == 1 + |h.rotations[f]|
  }

  ghost predicate HistoryOk(h: History) {
    && h.births.Keys == h.rotations.Keys
    && (forall k | k in h.owner :: h.owner[k] in h.births)
    && (forall f | f in h.births :: ChainOk(h, f))
  }

  /**
   * A row as the history explains it. Lawyer and ceiling are those of the login, the asymmetry of `append`;
   * the idle deadline of the tip counts from the last append.
   */
  ghost predicate RowFits(h: History, k: Token, row: Row) {
    && k in h.owner && h.owner[k] == row.family && Known(h, row.family)
    && row.lawyer == h.births[row.family].lawyer
    && row.expiresAt == h.births[row.family].at + h.limits.session
    && (k == Tip(h, row.family) ==> row.idleExpiresAt == LastAppend(h, row.family) + h.limits.idle)
  }

  /** Only the tip may be live. */
  ghost predicate RowOk(h: History, k: Token, row: Row) {
    RowFits(h, k, row) && (row.revokedAt.None? ==> k == Tip(h, row.family))
  }

  ghost predicate TableOk(h: History, table: Table) {
    forall k | k in table :: RowOk(h, k, table[k])
  }

  ghost predicate Gone(table: Table, f: Family) {
    forall k | k in table :: table[k].family != f
  }

  /** A family is in the table with every token it ever had, or not at all. */
  ghost predicate Whole(h: History, table: Table) {
    forall j | j in h.owner :: j in table || Gone(table, h.owner[j])
  }

  /** A row read earlier still describes its token, but for a revocation that came since. */
  ghost predicate Agrees(h: History, table: Table, k: Token, row: Row) {
    && RowFits(h, k, row)
    && (k in table ==>
          && table[k] == row.(revokedAt := table[k].revokedAt)
          && (row.revokedAt.Some? ==> table[k] == row))
  }

  ghost predicate CallOk(h: History, table: Table, clock: int, call: Call) {
    match call
    case Looked(token, None) => token !in table
    case Looked(token, Some(row)) => Agrees(h, table, token, row)
    case Checked(token, row, at) =>
      Agrees(h, table, token, row) && at < row.expiresAt && at < row.idleExpiresAt && at <= clock
    case Killing(token, family) => token in h.owner && h.owner[token] == family
    case Leaving(family) => family in h.births
  }

  ghost predicate CallsOk(s: State) {
    forall c | c in s.calls :: CallOk(s.past, s.table, s.clock, s.calls[c])
  }

  ghost predicate Inv(s: State) {
    && HistoryOk(s.past)
    && TableOk(s.past, s.table)
    && Whole(s.past, s.table)
    && CallsOk(s)
  }
}
