/**
 * The life of the public links of a request: create, regenerate, revoke, resolve, and the guard that re-reads
 * the link on every request of an unlocked client.
 *
 * A regeneration is a transaction: its revocation acts on the links it saw, its insertion meets a unique index
 * on the unrevoked links of a request, and a refusal rolls both back. Tokens are fresh.
 */
module PublicLinks {
  import opened Options

  type Id = nat
  type Token = nat
  type Lawyer = nat
  type CallId = nat

  const MILLISECONDS_PER_DAY: int := 24 * 60 * 60 * 1000

  datatype Link = Link(request: Id, token: Token, expiresAt: int, createdAt: int, revokedAt: Option<int>)

  /** In the order they were inserted; the place of a link is its id. */
  type Links = seq<Link>

  /** A link still works at its very deadline. */
  predicate IsExpired(expiresAt: int, now: int) {
    now > expiresAt
  }

  predicate Active(links: Links, request: Id, i: nat) {
    i < |links| && links[i].request == request && links[i].revokedAt.None?
  }

  // ---------------------------------------------------------------------
  // Readers
  // ---------------------------------------------------------------------

  datatype Resolution = Ok(link: nat) | Unknown | Revoked | Expired

  function FindToken(links: Links, token: Token): Option<nat> {
    if links == [] then None
    else if links[|links| - 1].token == token then Some(|links| - 1)
    else FindToken(links[..|links| - 1], token)
  }

  /** Revocation is told before expiry. */
  function Judge(link: Link, i: nat, now: int): Resolution {
    if link.revokedAt.Some? then Revoked
    else if IsExpired(link.expiresAt, now) then Expired
    else Ok(i)
  }

  function Resolve(links: Links, token: Token, now: int): Resolution {
    match FindToken(links, token)
    case None => Unknown
    case Some(i) => if i < |links| then Judge(links[i], i, now) else Unknown
  }

  datatype Session = Session(link: nat, request: Id, expiresAt: int)

  /** `claimed` is the link id of a session token that verifies and is a client's, if there is one. */
  function CanActivate(links: Links, claimed: Option<nat>, now: int): Option<Session> {
    match claimed
    case None => None
    case Some(i) =>
      if i >= |links| || links[i].revokedAt.Some? || IsExpired(links[i].expiresAt, now) then None
      else Some(Session(i, links[i].request, links[i].expiresAt))
  }

  // ---------------------------------------------------------------------
  // Writers
  // ---------------------------------------------------------------------

  function RevokeLink(link: Link, at: int): Link {
    if link.revokedAt.None? then link.(revokedAt := Some(at)) else link
  }

  /** `updateMany` on the links seen: those that have been revoked since keep their date. */
  function RevokeSeen(links: Links, seen: set<nat>, at: int): (after: Links)
    ensures |after| == |links|
    ensures forall i | 0 <= i < |links| :: after[i] == if i in seen then RevokeLink(links[i], at) else links[i]
  {
    seq(|links|, i requires 0 <= i < |links| => if i in seen then RevokeLink(links[i], at) else links[i])
  }

  function ActiveOnes(links: Links, request: Id): (seen: set<nat>)
    ensures forall i :: i in seen <==> Active(links, request, i)
  {
    set i: nat | i < |links| && Active(links, request, i)
  }

  /** The unrevoked links of the request carry the date, and every other link is as it was. */
  ghost predicate DatesActive(before: Links, request: Id, at: int, after: Links) {
    && |after| == |before|
    && forall i | 0 <= i < |before| ::
         if before[i].request == request && before[i].revokedAt.None?
         then after[i] == before[i].(revokedAt := Some(at)) else after[i] == before[i]
  }

  // ---------------------------------------------------------------------
  // The step machine
  // ---------------------------------------------------------------------

  datatype Call =
    | Owned(request: Id)                                                                   // the request is the caller's, the PIN is being hashed
    | Dated(request: Id, now: int, expiresAt: int)                                         // `now` has been read
    | Revoking(request: Id, now: int, expiresAt: int, begunAt: int, seen: set<nat>)        // the transaction has run its update
    | Cutting(request: Id)                                                                 // a revocation, its update pending

  datatype State = State(clock: int, owners: map<Id, Lawyer>, links: Links, calls: map<CallId, Call>)

  datatype Event =
    | Tick(now: int)
    | Create(request: Id, lawyer: Lawyer, token: Token, days: int)
    | RegenerateFor(call: CallId, request: Id, lawyer: Lawyer)
    | ReadClock(call: CallId, days: int)
    | RunUpdate(call: CallId)
    | Commit(call: CallId, token: Token)
    | RevokeFor(call: CallId, request: Id, lawyer: Lawyer)
    | Revoke(call: CallId)
    | Abort(call: CallId)                                                                  // an await throws: the transaction rolls back

  predicate FreshToken(links: Links, token: Token) {
    forall i | 0 <= i < |links| :: links[i].token != token
  }

  predicate Enabled(s: State, e: Event) {
    match e
    case Tick(now) => s.clock <= now
    case Create(request, _, token, _) => request !in s.owners && FreshToken(s.links, token)
    case RegenerateFor(c, _, _) => c !in s.calls
    case ReadClock(c, _) => c in s.calls && s.calls[c].Owned?
    case RunUpdate(c) => c in s.calls && s.calls[c].Dated?
    case Commit(c, token) => c in s.calls && s.calls[c].Revoking? && FreshToken(s.links, token)
    case RevokeFor(c, _, _) => c !in s.calls
    case Revoke(c) => c in s.calls && s.calls[c].Cutting?
    case Abort(c) => c in s.calls
  }

  predicate Belongs(s: State, request: Id, lawyer: Lawyer) {
    request in s.owners && s.owners[request] == lawyer
  }

  function Finish(s: State, c: CallId): State {
    s.(calls := s.calls - {c})
  }

  /** The insertion collides with a link that is unrevoked and was not seen. */
  predicate Collides(links: Links, request: Id, seen: set<nat>) {
    exists i | 0 <= i < |links| :: Active(links, request, i) && i !in seen
  }

  function ApplyCommit(s: State, c: CallId, token: Token): State
    requires c in s.calls && s.calls[c].Revoking?
  {
    var Revoking(request, now, expiresAt, begunAt, seen) := s.calls[c];
    if Collides(s.links, request, seen) then Finish(s, c)
    else Finish(s, c).(links := RevokeSeen(s.links, seen, now) + [Link(request, token, expiresAt, begunAt, None)])
  }

  function Apply(s: State, e: Event): State
    requires Enabled(s, e)
  {
    match e
    case Tick(now) => s.(clock := now)
    case Create(request, lawyer, token, days) =>
      s.(owners := s.owners[request := lawyer],
      links := s.links + [Link(request, token, s.clock + days * MILLISECONDS_PER_DAY, s.clock, None)])
    case RegenerateFor(c, request, lawyer) =>
      if Belongs(s, request, lawyer) then s.(calls := s.calls[c := Owned(request)]) else s
    case ReadClock(c, days) =>
      s.(calls := s.calls[c := Dated(s.calls[c].request, s.clock, s.clock + days * MILLISECONDS_PER_DAY)])
    case RunUpdate(c) =>
      var Dated(request, now, expiresAt) := s.calls[c];
      s.(calls := s.calls[c := Revoking(request, now, expiresAt, s.clock, ActiveOnes(s.links, request))])
    case Commit(c, token) => ApplyCommit(s, c, token)
    case RevokeFor(c, request, lawyer) =>
      if Belongs(s, request, lawyer) then s.(calls := s.calls[c := Cutting(request)]) else s
    case Revoke(c) =>
      Finish(s, c).(links := RevokeSeen(s.links, ActiveOnes(s.links, s.calls[c].request), s.clock))
    case Abort(c) => Finish(s, c)
  }

  predicate Runs(s: State, es: seq<Event>)
    decreases |es|
  {
    es == [] || (Enabled(s, es[0]) && Runs(Apply(s, es[0]), es[1..]))
  }

  function Exec(s: State, es: seq<Event>): State
    requires Runs(s, es)
    decreases |es|
  {
    if es == [] then s else Exec(Apply(s, es[0]), es[1..])
  }

  function Init(clock: int): State {
    State(clock, map[], [], map[])
  }

  // ---------------------------------------------------------------------
  // The invariant
  // ---------------------------------------------------------------------

  ghost predicate AtMostOneActive(links: Links) {
    forall i: nat, j: nat, r | Active(links, r, i) && Active(links, r, j) :: i == j
  }

  ghost predicate EveryRequestHasALink(s: State) {
    forall r | r in s.owners :: exists i :: 0 <= i < |s.links| && s.links[i].request == r
  }

  ghost predicate TokensDiffer(links: Links) {
    forall i, j | 0 <= i < j < |links| :: links[i].token != links[j].token
  }

  ghost predicate Inv(s: State) {
    && AtMostOneActive(s.links)
    && EveryRequestHasALink(s)
    && TokensDiffer(s.links)
    && (forall i | 0 <= i < |s.links| :: s.links[i].request in s.owners)
    && (forall c | c in s.calls :: s.calls[c].request in s.owners)
    && (forall c | c in s.calls && s.calls[c].Revoking? ::
          forall i | i in s.calls[c].seen :: i < |s.links| && s.links[i].request == s.calls[c].request)
  }

  // ---------------------------------------------------------------------
  // The service over its table
  // ---------------------------------------------------------------------

  class Service {
    var owners: map<Id, Lawyer>
    var links: Links

    constructor (owners: map<Id, Lawyer>, links: Links)
      ensures this.owners == owners && this.links == links
    {
      this.owners := owners;
      this.links := links;
    }

    /** A request and its first link, which works for `days` times 24 hours from now. */
    method Create(request: Id, lawyer: Lawyer, days: int, token: Token, now: int) returns (issued: Link)
      requires request !in owners
      modifies this
      ensures owners == old(owners)[request := lawyer] && links == old(links) + [issued]
      ensures issued.request == request && issued.token == token && issued.revokedAt.None?
      ensures issued.createdAt == now && issued.expiresAt == now + days * 86_400_000
    {
      issued := Link(request, token, now + days * MILLISECONDS_PER_DAY, now, None);
      owners := owners[request := lawyer];
      links := links + [issued];
    }

    /** Undisturbed, a regeneration cannot collide: what was active is revoked now and one link takes its place. */
    method Regenerate(request: Id, lawyer: Lawyer, days: int, token: Token, now: int) returns (issued: Option<Link>)
      modifies this
      ensures owners == old(owners)
      ensures issued.Some? <==> request in owners && owners[request] == lawyer
      ensures issued.None? ==> links == old(links)
      ensures issued.Some? ==>
                && issued.value == Link(request, token, now + days * 86_400_000, now, None)
                && links == RevokeSeen(old(links), ActiveOnes(old(links), request), now) + [issued.value]
                && forall i: nat :: Active(links, request, i) <==> i == |links| - 1
      ensures issued.Some? ==> |links| == |old(links)| + 1 && DatesActive(old(links), request, now, links[..|old(links)|])
    {
      if request !in owners || owners[request] != lawyer {
        return None;
      }
      var link := Link(request, token, now + days * MILLISECONDS_PER_DAY, now, None);
      ghost var was := links;
      links := RevokeSeen(links, ActiveOnes(links, request), now);
      assert forall i: nat :: !Active(links, request, i);
      assert DatesActive(was, request, now, links);
      links := links + [link];
      assert links[..|was|] == RevokeSeen(was, ActiveOnes(was, request), now);
      return Some(link);
    }

    /** Idempotent: nobody gets in afterwards, whether or not somebody could before. */
    method Revoke(request: Id, lawyer: Lawyer, now: int) returns (found: bool)
      modifies this
      ensures owners == old(owners)
      ensures found <==> request in owners && owners[request] == lawyer
      ensures links == if found then RevokeSeen(old(links), ActiveOnes(old(links), request), now) else old(links)
      ensures found ==> DatesActive(old(links), request, now, links)
      ensures found ==> forall i: nat :: !Active(links, request, i)
    {
      found := request in owners && owners[request] == lawyer;
      if found {
        links := RevokeSeen(links, ActiveOnes(links, request), now);
      }
    }
  }
}
