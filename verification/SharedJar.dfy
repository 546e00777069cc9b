/**
 * One login, and any number of tabs of one browser that share its cookie jar and refresh honestly.
 *
 * The server is the whole token machine: other accounts log in, refresh, log out and purge at will around
 * the one family watched here. A refresh exchange is sent with the cookie the jar then holds, is served in
 * steps, and its answer reaches the jar less than `bound` milliseconds after it was sent. After a rotation has
 * committed the account is read again and an access token signed, and either may throw.
 */
module SharedJar {
  import opened Options
  import opened RefreshTokens
  import opened RefreshTokenService

  datatype Phase = Sent | Serving | Renewing(successor: Token, expiresAt: int) | Answered(change: CookieChange)

  datatype Exchange = Exchange(token: Token, sentAt: int, phase: Phase)

  /** `family` is the login watched; `tabs` are its exchanges in flight, under the ids of their server calls. */
  datatype World = World(server: State, family: Family, jar: Option<Token>, tabs: map<CallId, Exchange>)

  datatype Act =
    | Send(id: CallId)
    | Serve(id: CallId, event: Event)     // a step of the call behind one of the exchanges
    | Renew(id: CallId, renewal: Renewal) // what follows a rotation that has committed
    | Elsewhere(event: Event)             // the clock, and everybody else
    | Deliver(id: CallId)
    | DropCookie                          // the browser forgets it: Max-Age, or its user

  /** Nobody else presents a token of the family, and time does not outrun an exchange. */
  ghost predicate Foreign(w: World, bound: int, e: Event) {
    match e
    case Tick(now) => forall id | id in w.tabs :: now < w.tabs[id].sentAt + bound
    case Look(c, token) => c !in w.tabs && (token in w.server.past.owner ==> w.server.past.owner[token] != w.family)
    case LogoutLook(c, token) => c !in w.tabs && (token in w.server.past.owner ==> w.server.past.owner[token] != w.family)
    case Issue(_, _, _) => true
    case Purge(_) => true
    case _ => e.call !in w.tabs
  }

  ghost predicate Served(w: World, id: CallId, e: Event) {
    && id in w.tabs
    && match e
       case Look(c, token) => c == id && token == w.tabs[id].token && w.tabs[id].phase.Sent?
       case Decide(c) => c == id && w.tabs[id].phase.Serving?
       case Claim(c, _) => c == id && w.tabs[id].phase.Serving?
       case Kill(c) => c == id && w.tabs[id].phase.Serving?
       case Abort(c) => c == id && w.tabs[id].phase.Serving?
       case _ => false
  }

  ghost predicate Can(w: World, bound: int, a: Act) {
    match a
    case Send(id) => w.jar.Some? && id !in w.tabs && id !in w.server.calls
    case Serve(id, e) => Served(w, id, e) && Enabled(w.server, e)
    case Renew(id, _) => id in w.tabs && w.tabs[id].phase.Renewing?
    case Elsewhere(e) => Foreign(w, bound, e) && Enabled(w.server, e)
    case Deliver(id) => id in w.tabs && w.tabs[id].phase.Answered?
    case DropCookie => true
  }

  /** A refused or failed call leaves by one answer, a 500 carrying no cookie; a rotation has still to be answered. */
  ghost function PhaseAfter(s: State, e: Event): Phase
    requires Enabled(s, e)
  {
    match Answer(s, e)
    case Some(outcome) => if outcome.Rotated? then Renewing(outcome.successor, outcome.expiresAt) else Answered(EffectOf(outcome, s.clock))
    case None => if e.Abort? then Answered(Keep) else Serving
  }

  ghost function Do(w: World, bound: int, a: Act): World
    requires Can(w, bound, a)
  {
    match a
    case Send(id) => w.(tabs := w.tabs[id := Exchange(w.jar.value, w.server.clock, Sent)])
    case Serve(id, e) =>
      w.(server := Apply(w.server, e), tabs := w.tabs[id := w.tabs[id].(phase := PhaseAfter(w.server, e))])
    case Renew(id, renewal) =>
      var Renewing(successor, expiresAt) := w.tabs[id].phase;
      w.(tabs := w.tabs[id := w.tabs[id].(phase := Answered(EffectOfRenewal(renewal, successor, expiresAt, w.server.clock)))])
    case Elsewhere(e) => w.(server := Apply(w.server, e))
    case Deliver(id) =>
      var jar := match w.tabs[id].phase.change
                 case Keep => w.jar
                 case Set(token, _) => Some(token)
                 case Clear => None;
      w.(jar := jar, tabs := w.tabs - {id})
    case DropCookie => w.(jar := None)
  }

  ghost predicate Goes(w: World, bound: int, acts: seq<Act>)
    decreases |acts|
  {
    acts == [] || (Can(w, bound, acts[0]) && Goes(Do(w, bound, acts[0]), bound, acts[1..]))
  }

  ghost function After(w: World, bound: int, acts: seq<Act>): World
    requires Goes(w, bound, acts)
    decreases |acts|
  {
    if acts == [] then w else After(Do(w, bound, acts[0]), bound, acts[1..])
  }

  /** The act answers 'reused' to one of the tabs. */
  ghost predicate AnswersReused(w: World, bound: int, a: Act)
    requires Can(w, bound, a)
  {
    a.Serve? && Answer(w.server, a.event) == Some(Rejected(ReusedToken))
  }

  ghost predicate EverReused(w: World, bound: int, acts: seq<Act>)
    requires Goes(w, bound, acts)
    decreases |acts|
  {
    acts != [] && (AnswersReused(w, bound, acts[0]) || EverReused(Do(w, bound, acts[0]), bound, acts[1..]))
  }

  /** The rotation is committed, and its answer is lost to a thrown error. */
  predicate Breaks(a: Act) {
    a.Renew? && a.renewal.Broken?
  }

  predicate Unbroken(acts: seq<Act>) {
    forall i | 0 <= i < |acts| :: !Breaks(acts[i])
  }

  /** The world right after a login, whatever the server went through before. */
  ghost predicate JustLoggedIn(w: World, limits: Limits, clock: int, es: seq<Event>, lawyer: Lawyer, token: Token) {
    && Runs(Init(limits, clock), es)
    && var s := Exec(Init(limits, clock), es);
       && Enabled(s, Issue(lawyer, w.family, token))
       && w == World(Apply(s, Issue(lawyer, w.family, token)), w.family, Some(token), map[])
  }

  // ---------------------------------------------------------------------
  // The invariant
  // ---------------------------------------------------------------------

  ghost predicate OfFamily(h: History, f: Family, token: Token) {
    token in h.owner && h.owner[token] == f
  }

  /** A token already replaced when the exchange carrying it was sent was replaced less than `bound` before. */
  ghost predicate Recent(revokedAt: Option<int>, sentAt: int, bound: int) {
    revokedAt.Some? ==> sentAt < revokedAt.value + bound
  }

  ghost predicate TabOk(s: State, f: Family, bound: int, id: CallId, x: Exchange)
    requires Known(s.past, f)
  {
    && OfFamily(s.past, f, x.token)
    && x.sentAt <= s.clock < x.sentAt + bound
    && match x.phase
       case Sent =>
         && id !in s.calls
         && (x.token in s.table ==> Recent(s.table[x.token].revokedAt, x.sentAt, bound))
       case Serving =>
         && id in s.calls && (s.calls[id].Looked? || s.calls[id].Checked?) && s.calls[id].token == x.token
         && (s.calls[id].Looked? && s.calls[id].stored.Some? ==> Recent(s.calls[id].stored.value.revokedAt, x.sentAt, bound))
       case Renewing(successor, _) => id !in s.calls && successor == Tip(s.past, f)
       case Answered(change) =>
         && id !in s.calls
         && (change.Set? ==> change.token == Tip(s.past, f))
  }

  ghost predicate ForeignCall(h: History, f: Family, call: Call) {
    match call
    case Looked(token, _) => !OfFamily(h, f, token)
    case Checked(token, row, _) => !OfFamily(h, f, token) && row.family != f
    case Killing(_, family) => family != f
    case Leaving(family) => family != f
  }

  ghost predicate Wins(x: Exchange) {
    x.phase.Renewing? || (x.phase.Answered? && x.phase.change.Set?)
  }

  /** The exchange presented a token that was replaced after it was sent. */
  ghost predicate Replacing(s: State, f: Family, x: Exchange)
    requires Known(s.past, f)
  {
    && OfFamily(s.past, f, x.token) && x.token != Tip(s.past, f)
    && (x.token in s.table ==> s.table[x.token].revokedAt.Some? && x.sentAt <= s.table[x.token].revokedAt.value)
  }

  /**
   * Who carries the tip. Nobody but the jar; the one exchange whose rotation has not been delivered; nobody, the
   * account being gone, with the answer that clears the jar on its way or delivered.
   */
  datatype Lead = Jar | Leads(id: CallId) | Clears(id: CallId) | Over

  ghost predicate OneWinner(w: World, p: Lead) {
    && (p.Leads? || p.Clears? ==> p.id in w.tabs)
    && (p.Clears? ==> w.tabs[p.id].phase == Answered(Clear))
    && forall id | id in w.tabs :: Wins(w.tabs[id]) <==> p == Leads(id)
  }

  /** While the tip is not in the jar nobody can present it; the jar holds the tip or what the winner presented. */
  ghost predicate NobodyAhead(w: World, p: Lead)
    requires Known(w.server.past, w.family) && OneWinner(w, p)
  {
    var tip := Tip(w.server.past, w.family);
    && (w.jar.Some? ==> OfFamily(w.server.past, w.family, w.jar.value))
    && (!p.Jar? ==> forall id | id in w.tabs && !w.tabs[id].phase.Answered? :: w.tabs[id].token != tip)
    && match p
       case Jar => w.jar.Some? ==> w.jar.value == tip
       case Leads(id) => Replacing(w.server, w.family, w.tabs[id]) && (w.jar.Some? ==> w.jar.value == w.tabs[id].token)
       case Clears(id) => Replacing(w.server, w.family, w.tabs[id]) && (w.jar.Some? ==> w.jar.value == w.tabs[id].token)
       case Over => w.jar.None?
  }

  /** Nothing but a rotation ever revokes in this family. */
  ghost predicate TipUnrevoked(s: State, f: Family)
    requires Known(s.past, f)
  {
    Tip(s.past, f) in s.table ==> s.table[Tip(s.past, f)].revokedAt.None?
  }

  ghost predicate JarInv(w: World, bound: int, p: Lead) {
    && Inv(w.server) && Known(w.server.past, w.family) && TipUnrevoked(w.server, w.family)
    && (forall id | id in w.tabs :: TabOk(w.server, w.family, bound, id, w.tabs[id]))
    && (forall c | c in w.server.calls && c !in w.tabs :: ForeignCall(w.server.past, w.family, w.server.calls[c]))
    && OneWinner(w, p)
    && NobodyAhead(w, p)
  }
}
