/** Which link the dashboard's query picks: exactly, in every run; when it is the last one issued; and when it is not. */
module LastLink {
  import opened Options
  import opened PublicLinks
  import opened PublicLinkProofs
  import opened Dashboard

  ghost predicate LastIssued(links: Links, request: Id, l: nat) {
    && l < |links| && links[l].request == request
    && forall i | l < i < |links| :: links[i].request != request
  }

  // ---------------------------------------------------------------------
  // In every run
  // ---------------------------------------------------------------------

  ghost predicate Newest(links: Links, l: nat)
    requires l < |links|
  {
    forall k | l < k < |links| :: links[k].request != links[l].request
  }

  /** Every link of a request short of the newest is revoked, and no later than the newest if that one is. */
  ghost predicate Led(links: Links, clock: int) {
    && (forall i | 0 <= i < |links| && links[i].revokedAt.Some? :: links[i].revokedAt.value <= clock)
    && (forall i, j | 0 <= i < j < |links| && links[i].request == links[j].request :: links[i].revokedAt.Some?)
    && (forall i, l | 0 <= i < l < |links| && links[i].request == links[l].request && Newest(links, l) && links[l].revokedAt.Some? ::
          links[i].revokedAt.value <= links[l].revokedAt.value)
  }

  ghost predicate NoClockAhead(s: State) {
    forall c | c in s.calls && (s.calls[c].Dated? || s.calls[c].Revoking?) :: s.calls[c].now <= s.clock
  }

  lemma RevokingKeepsNewest(links: Links, seen: set<nat>, at: int, l: nat)
    requires l < |links|
    ensures Newest(RevokeSeen(links, seen, at), l) <==> Newest(links, l)
  {
    var after := RevokeSeen(links, seen, at);
    assert forall k | 0 <= k < |links| :: after[k].request == links[k].request;
  }

  /** Revoking now what is active: whatever was revoked before was revoked no later. */
  lemma RevokingNowKeepsLed(links: Links, request: Id, clock: int)
    requires Led(links, clock)
    ensures Led(RevokeSeen(links, ActiveOnes(links, request), clock), clock)
  {
    var after := RevokeSeen(links, ActiveOnes(links, request), clock);
    forall i, l | 0 <= i < l < |after| && after[i].request == after[l].request && Newest(after, l) && after[l].revokedAt.Some?
      ensures after[i].revokedAt.Some? && after[i].revokedAt.value <= after[l].revokedAt.value
    {
      RevokingKeepsNewest(links, ActiveOnes(links, request), clock, l);
    }
  }

  /** A link issued over links all revoked. */
  lemma IssuingKeepsLed(links: Links, link: Link, clock: int)
    requires Led(links, clock) && link.revokedAt.None?
    requires forall i: nat :: !Active(links, link.request, i)
    ensures Led(links + [link], clock)
  {
    var after := links + [link];
    forall i, j | 0 <= i < j < |after| && after[i].request == after[j].request ensures after[i].revokedAt.Some? {
      if j == |links| {
        assert !Active(links, link.request, i);
      }
    }
    forall i, l | 0 <= i < l < |after| && after[i].request == after[l].request && Newest(after, l) && after[l].revokedAt.Some?
      ensures after[i].revokedAt.value <= after[l].revokedAt.value
    {
      assert Newest(links, l) by {
        forall k | l < k < |links| ensures links[k].request != links[l].request {
          assert after[k] == links[k];
        }
      }
    }
  }

  /** With the new link in place the dates of its request's older ones no longer matter. */
  lemma CommitKeepsLed(s: State, c: CallId, token: Token)
    requires Led(s.links, s.clock) && Inv(s) && NoClockAhead(s) && Enabled(s, Commit(c, token))
    requires !Collides(s.links, s.calls[c].request, s.calls[c].seen)
    ensures Led(ApplyCommit(s, c, token).links, s.clock)
  {
    var Revoking(request, now, expiresAt, begunAt, seen) := s.calls[c];
    var link := Link(request, token, expiresAt, begunAt, None);
    SeenAreRevoked(s.links, request, seen, now);
    LedElsewhere(s.links, request, seen, now, s.clock, link);
  }

  lemma LedElsewhere(links: Links, request: Id, seen: set<nat>, now: int, clock: int, link: Link)
    requires Led(links, clock) && now <= clock && link.request == request && link.revokedAt.None?
    requires forall i | i in seen :: i < |links| && links[i].request == request
    requires forall i: nat :: !Active(RevokeSeen(links, seen, now), request, i)
    ensures Led(RevokeSeen(links, seen, now) + [link], clock)
  {
    var revoked := RevokeSeen(links, seen, now);
    var after := revoked + [link];
    forall i, j | 0 <= i < j < |after| && after[i].request == after[j].request ensures after[i].revokedAt.Some? {
      if after[i].request == request {
        assert !Active(revoked, request, i);
      }
    }
    forall i, l | 0 <= i < l < |after| && after[i].request == after[l].request && Newest(after, l) && after[l].revokedAt.Some?
      ensures after[i].revokedAt.value <= after[l].revokedAt.value
    {
      assert after[|links|].request == request && after[l].request != request;
      assert Newest(links, l) by {
        forall k | l < k < |links| ensures links[k].request != links[l].request {
          assert after[k].request == links[k].request;
        }
      }
    }
  }

  lemma StepKeepsLed(s: State, e: Event)
    requires Led(s.links, s.clock) && Inv(s) && NoClockAhead(s) && Enabled(s, e)
    ensures Led(Apply(s, e).links, Apply(s, e).clock) && NoClockAhead(Apply(s, e))
  {
    match e
    case Create(request, _, _, _) =>
      assert forall i: nat :: !Active(s.links, request, i);
      IssuingKeepsLed(s.links, Apply(s, e).links[|s.links|], s.clock);
    case Commit(c, token) =>
      if !Collides(s.links, s.calls[c].request, s.calls[c].seen) {
        CommitKeepsLed(s, c, token);
      }
    case Revoke(c) => RevokingNowKeepsLed(s.links, s.calls[c].request, s.clock);
    case _ =>
  }

  lemma {:induction false} RunKeepsLed(s: State, es: seq<Event>)
    requires Led(s.links, s.clock) && Inv(s) && NoClockAhead(s) && Runs(s, es)
    ensures Led(Exec(s, es).links, Exec(s, es).clock)
    decreases |es|
  {
    if es != [] {
      StepKeepsLed(s, es[0]);
      StepKeepsInv(s, es[0]);
      RunKeepsLed(Apply(s, es[0]), es[1..]);
    }
  }

  /** Link `j` is of the request of `l` and shares its revocation date, or its lack of one. */
  ghost predicate SharesDate(links: Links, l: nat, j: int)
    requires l < |links|
  {
    0 <= j < |links| && links[j].request == links[l].request && links[j].revokedAt == links[l].revokedAt
  }

  /**
   * In every run, whatever overlaps: the query may return exactly the last created of the links that share the
   * revocation date of the last issued one.
   */
  lemma PickedExactly(clock: int, es: seq<Event>, request: Id, l: nat, i: nat)
    requires Runs(Init(clock), es) && LastIssued(Exec(Init(clock), es).links, request, l)
    ensures var links := Exec(Init(clock), es).links;
            MayBeLast(links, request, i) <==>
              SharesDate(links, l, i) && forall j | SharesDate(links, l, j) :: links[j].createdAt <= links[i].createdAt
  {
    var links := Exec(Init(clock), es).links;
    RunKeepsLed(Init(clock), es);
    PickedWhenLed(links, Exec(Init(clock), es).clock, request, l, i);
  }

  lemma PickedWhenLed(links: Links, clock: int, request: Id, l: nat, i: nat)
    requires Led(links, clock) && LastIssued(links, request, l)
    ensures MayBeLast(links, request, i) <==>
              SharesDate(links, l, i) && forall j | SharesDate(links, l, j) :: links[j].createdAt <= links[i].createdAt
  {
    assert Newest(links, l);
    forall j | 0 <= j < |links| && links[j].request == request && j != l
      ensures j < l && links[j].revokedAt.Some? && (links[l].revokedAt.Some? ==> links[j].revokedAt.value <= links[l].revokedAt.value)
    {
    }
    if MayBeLast(links, request, i) {
      assert !Ahead(links[l], links[i]);
      assert SharesDate(links, l, i);
      forall j | SharesDate(links, l, j) ensures links[j].createdAt <= links[i].createdAt {
        assert !Ahead(links[j], links[i]);
      }
    }
    if SharesDate(links, l, i) && forall j | SharesDate(links, l, j) :: links[j].createdAt <= links[i].createdAt {
      forall j | 0 <= j < |links| && links[j].request == request ensures !Ahead(links[j], links[i]) {
        assert links[j].revokedAt == links[l].revokedAt ==> SharesDate(links, l, j);
      }
    }
  }

  /** So the last link issued may be returned if and only if it is unrevoked, or none revoked with it was created later. */
  lemma LastIssuedMayBePickedIff(clock: int, es: seq<Event>, request: Id, l: nat)
    requires Runs(Init(clock), es) && LastIssued(Exec(Init(clock), es).links, request, l)
    ensures var links := Exec(Init(clock), es).links;
            MayBeLast(links, request, l) <==>
              links[l].revokedAt.None? || forall j | SharesDate(links, l, j) :: links[j].createdAt <= links[l].createdAt
  {
    var links := Exec(Init(clock), es).links;
    PickedExactly(clock, es, request, l, l);
    RunKeepsLed(Init(clock), es);
    if links[l].revokedAt.None? {
      forall j | 0 <= j < |links| && j != l ensures !SharesDate(links, l, j) {
        assert j < l && links[j].request == links[l].request ==> links[j].revokedAt.Some?;
      }
    }
  }

  // ---------------------------------------------------------------------
  // The last issued, when operations do not overlap
  // ---------------------------------------------------------------------

  predicate OneByOne(s: State, es: seq<Event>)
    requires Runs(s, es)
    decreases |es|
  {
    es == [] || ((es[0].Create? || es[0].RegenerateFor? || es[0].RevokeFor? ==> s.calls == map[]) && OneByOne(Apply(s, es[0]), es[1..]))
  }

  /** Each link of a request is revoked before the next is created. */
  ghost predicate InOrder(links: Links) {
    forall i, j | 0 <= i < j < |links| && links[i].request == links[j].request ::
      && links[i].revokedAt.Some? && links[i].revokedAt.value <= links[j].createdAt
      && links[i].createdAt <= links[j].createdAt
  }

  ghost predicate Dates(links: Links, clock: int) {
    forall i | 0 <= i < |links| ::
      links[i].createdAt <= clock && (links[i].revokedAt.Some? ==> links[i].createdAt <= links[i].revokedAt.value <= clock)
  }

  ghost predicate UpToDate(s: State, call: Call) {
    match call
    case Owned(_) => true
    case Dated(request, now, _) => now <= s.clock && Dates(s.links, now)
    case Revoking(request, now, _, begunAt, seen) =>
      now <= begunAt <= s.clock && Dates(s.links, now) && seen == ActiveOnes(s.links, request)
    case Cutting(_) => true
  }

  ghost predicate Serial(s: State) {
    && InOrder(s.links) && Dates(s.links, s.clock)
    && (forall c, d | c in s.calls && d in s.calls :: c == d)
    && (forall c | c in s.calls :: UpToDate(s, s.calls[c]))
  }

  lemma RevokedInOrder(links: Links, seen: set<nat>, at: int, clock: int)
    requires InOrder(links) && Dates(links, at) && at <= clock
    ensures InOrder(RevokeSeen(links, seen, at)) && Dates(RevokeSeen(links, seen, at), clock)
  {
  }

  lemma AppendedInOrder(links: Links, link: Link, clock: int)
    requires InOrder(links) && Dates(links, clock) && link.createdAt <= clock && link.revokedAt.None?
    requires forall i | 0 <= i < |links| && links[i].request == link.request ::
               links[i].revokedAt.Some? && links[i].revokedAt.value <= link.createdAt && links[i].createdAt <= link.createdAt
    ensures InOrder(links + [link]) && Dates(links + [link], clock)
  {
  }

  lemma CommitStaysSerial(s: State, c: CallId, token: Token)
    requires Serial(s) && Enabled(s, Commit(c, token))
    ensures InOrder(ApplyCommit(s, c, token).links) && Dates(ApplyCommit(s, c, token).links, s.clock)
  {
    var Revoking(request, now, expiresAt, begunAt, seen) := s.calls[c];
    assert UpToDate(s, s.calls[c]);
    var revoked := RevokeSeen(s.links, seen, now);
    RevokedInOrder(s.links, seen, now, s.clock);
    RevokedInOrder(s.links, seen, now, now);
    forall i | 0 <= i < |revoked| && revoked[i].request == request
      ensures revoked[i].revokedAt.Some? && revoked[i].revokedAt.value <= begunAt && revoked[i].createdAt <= begunAt
    {
      if s.links[i].revokedAt.None? {
        assert Active(s.links, request, i);
      }
    }
    AppendedInOrder(revoked, Link(request, token, expiresAt, begunAt, None), s.clock);
  }

  lemma StepStaysSerial(s: State, e: Event)
    requires Serial(s) && Inv(s) && Enabled(s, e)
    requires e.Create? || e.RegenerateFor? || e.RevokeFor? ==> s.calls == map[]
    ensures Serial(Apply(s, e))
  {
    var t := Apply(s, e);
    match e
    case Create(request, _, _, _) => AppendedInOrder(s.links, t.links[|s.links|], s.clock);
    case Commit(c, token) => CommitStaysSerial(s, c, token);
    case Revoke(c) => RevokedInOrder(s.links, ActiveOnes(s.links, s.calls[c].request), s.clock, s.clock);
    case RegenerateFor(_, _, _) =>
    case RevokeFor(_, _, _) =>
    case _ => assert forall c | c in s.calls :: UpToDate(s, s.calls[c]);
  }

  lemma {:induction false} RunStaysSerial(s: State, es: seq<Event>)
    requires Serial(s) && Inv(s) && Runs(s, es) && OneByOne(s, es)
    ensures Serial(Exec(s, es)) && Inv(Exec(s, es))
    decreases |es|
  {
    if es != [] {
      StepStaysSerial(s, es[0]);
      StepKeepsInv(s, es[0]);
      RunStaysSerial(Apply(s, es[0]), es[1..]);
    }
  }

  /**
   * When operations do not overlap the query may return the last link issued; and it may return another one
   * if and only if that one carries the very same two dates, both revoked.
   */
  lemma LastLinkIsTheLastIssued(clock: int, es: seq<Event>, request: Id, l: nat, i: nat)
    requires Runs(Init(clock), es) && OneByOne(Init(clock), es)
    requires LastIssued(Exec(Init(clock), es).links, request, l)
    ensures var links := Exec(Init(clock), es).links;
            && MayBeLast(links, request, l)
            && (MayBeLast(links, request, i) && i != l <==>
                  && i < l && links[i].request == request && links[l].revokedAt.Some?
                  && links[i].revokedAt == links[l].revokedAt && links[i].createdAt == links[l].createdAt)
  {
    RunStaysSerial(Init(clock), es);
    var links := Exec(Init(clock), es).links;
    assert InOrder(links) && Dates(links, Exec(Init(clock), es).clock);
    if i < l && links[i].request == request {
      forall j | 0 <= j < |links| && links[j].request == request
        ensures links[i].revokedAt == links[l].revokedAt && links[i].createdAt == links[l].createdAt ==> !Ahead(links[j], links[i])
      {
        assert !Ahead(links[j], links[l]);
      }
    }
  }

  const FIRST: Link := Link(0, 0, 7 * MILLISECONDS_PER_DAY, 0, None)
  const SECOND: Link := Link(0, 1, 7 * MILLISECONDS_PER_DAY, 0, None)

  const REGENERATED: State := State(0, map[0 := 0], [FIRST.(revokedAt := Some(0)), SECOND], map[])

  lemma RunsFrom(s: State, e: Event, es: seq<Event>)
    requires Enabled(s, e) && Runs(Apply(s, e), es)
    ensures Runs(s, [e] + es) && Exec(s, [e] + es) == Exec(Apply(s, e), es)
    ensures OneByOne(s, [e] + es) <==> (e.Create? || e.RegenerateFor? || e.RevokeFor? ==> s.calls == map[]) && OneByOne(Apply(s, e), es)
  {
    OneMore(s, e, es);
    assert ([e] + es)[1..] == es;
  }

  function RegenerateThen(es: seq<Event>): seq<Event> {
    [Create(0, 0, 0, 7)] + ([RegenerateFor(0, 0, 0)] + ([ReadClock(0, 7)] + ([RunUpdate(0)] + ([Commit(0, 1)] + es))))
  }

  function RevokeThen(es: seq<Event>): seq<Event> {
    [RevokeFor(0, 0, 0)] + ([Revoke(0)] + es)
  }

  lemma RegeneratedAtOnce(es: seq<Event>)
    requires Runs(REGENERATED, es) && OneByOne(REGENERATED, es)
    ensures Runs(Init(0), RegenerateThen(es)) && OneByOne(Init(0), RegenerateThen(es))
    ensures Exec(Init(0), RegenerateThen(es)) == Exec(REGENERATED, es)
  {
    var s1 := Apply(Init(0), Create(0, 0, 0, 7));
    var s2 := Apply(s1, RegenerateFor(0, 0, 0));
    var s3 := Apply(s2, ReadClock(0, 7));
    var s4 := Apply(s3, RunUpdate(0));
    var s5 := Apply(s4, Commit(0, 1));
    assert s5.links == REGENERATED.links && s5.calls == map[];
    RunsFrom(s4, Commit(0, 1), es);
    RunsFrom(s3, RunUpdate(0), [Commit(0, 1)] + es);
    RunsFrom(s2, ReadClock(0, 7), [RunUpdate(0)] + ([Commit(0, 1)] + es));
    RunsFrom(s1, RegenerateFor(0, 0, 0), [ReadClock(0, 7)] + ([RunUpdate(0)] + ([Commit(0, 1)] + es)));
    RunsFrom(Init(0), Create(0, 0, 0, 7), [RegenerateFor(0, 0, 0)] + ([ReadClock(0, 7)] + ([RunUpdate(0)] + ([Commit(0, 1)] + es))));
  }

  lemma ThenRevoked()
    ensures var s, es := REGENERATED, RevokeThen([]);
            && Runs(s, es) && OneByOne(s, es)
            && Exec(s, es).links == [FIRST.(revokedAt := Some(0)), SECOND.(revokedAt := Some(0))]
  {
    var s6 := Apply(REGENERATED, RevokeFor(0, 0, 0));
    var s7 := Apply(s6, Revoke(0));
    assert s7.links == [FIRST.(revokedAt := Some(0)), SECOND.(revokedAt := Some(0))];
    RunsFrom(s6, Revoke(0), []);
    RunsFrom(REGENERATED, RevokeFor(0, 0, 0), [Revoke(0)]);
    assert [Revoke(0)] + [] == [Revoke(0)];
  }

  /** Three operations in one millisecond do leave such a tie: the dates cannot tell which link was issued last. */
  lemma TheOrderCanTie() returns (es: seq<Event>)
    ensures Runs(Init(0), es) && OneByOne(Init(0), es)
    ensures var links := Exec(Init(0), es).links; MayBeLast(links, 0, 0) && LastIssued(links, 0, 1)
  {
    es := RegenerateThen(RevokeThen([]));
    ThenRevoked();
    RegeneratedAtOnce(RevokeThen([]));
    assert Exec(Init(0), es).links == [FIRST.(revokedAt := Some(0)), SECOND.(revokedAt := Some(0))];
  }

  // ---------------------------------------------------------------------
  // A regeneration that overtakes another
  // ---------------------------------------------------------------------

  lemma RevokedAlone(s: State, c: CallId, request: Id, lawyer: Lawyer, t: State, es: seq<Event>)
    requires c !in s.calls && Belongs(s, request, lawyer) && Runs(t, es)
    requires t == s.(links := t.links) && t.links == RevokeSeen(s.links, ActiveOnes(s.links, request), s.clock)
    ensures var run := [RevokeFor(c, request, lawyer)] + ([Revoke(c)] + es); Runs(s, run) && Exec(s, run) == Exec(t, es)
  {
    var s1 := s.(calls := s.calls[c := Cutting(request)]);
    assert Apply(s, RevokeFor(c, request, lawyer)) == s1;
    GoneAgain(s.calls, c, Cutting(request));
    assert Apply(s1, Revoke(c)) == t;
    OneMore(s1, Revoke(c), es);
    OneMore(s, RevokeFor(c, request, lawyer), [Revoke(c)] + es);
  }

  const THIRD: Link := SECOND.(token := 2)
  const LATER: Link := Link(0, 1, 1 + 7 * MILLISECONDS_PER_DAY, 1, None)
  const WAITING: Call := Revoking(0, 0, 7 * MILLISECONDS_PER_DAY, 0, {})

  /** Request 0 of lawyer 0, with a regeneration that has run its update at 0, over nothing active, and waits, or without it. */
  function Overtaken(clock: int, links: Links, waits: bool): State {
    State(clock, map[0 := 0], links, if waits then map[1 := WAITING] else map[])
  }

  /** Created and revoked; then the first regeneration runs its update. */
  lemma FirstWaits(rest: seq<Event>) returns (es: seq<Event>)
    requires Runs(Overtaken(0, [FIRST.(revokedAt := Some(0))], true), rest)
    ensures Runs(Init(0), es) && Exec(Init(0), es) == Exec(Overtaken(0, [FIRST.(revokedAt := Some(0))], true), rest)
  {
    var s1 := Overtaken(0, [FIRST], false);
    var s2 := Overtaken(0, [FIRST.(revokedAt := Some(0))], false);
    var s3 := Overtaken(0, [FIRST.(revokedAt := Some(0))], true);
    assert ActiveOnes(s2.links, 0) == {};
    UpToTheCommit(s2, 1, 0, 0, 7, s3, rest);
    es := [RegenerateFor(1, 0, 0)] + ([ReadClock(1, 7)] + ([RunUpdate(1)] + rest));
    assert s2.links == RevokeSeen(s1.links, ActiveOnes(s1.links, 0), 0);
    RevokedAlone(s1, 0, 0, 0, s2, es);
    es := [RevokeFor(0, 0, 0)] + ([Revoke(0)] + es);
    assert Apply(Init(0), Create(0, 0, 0, 7)) == s1;
    OneMore(Init(0), Create(0, 0, 0, 7), es);
    es := [Create(0, 0, 0, 7)] + es;
  }

  /** A millisecond later the second regeneration runs whole, and its link is revoked. */
  lemma SecondOvertakes(rest: seq<Event>) returns (es: seq<Event>)
    requires Runs(Overtaken(1, [FIRST.(revokedAt := Some(0)), LATER.(revokedAt := Some(1))], true), rest)
    ensures Runs(Overtaken(0, [FIRST.(revokedAt := Some(0))], true), es)
    ensures Exec(Overtaken(0, [FIRST.(revokedAt := Some(0))], true), es)
            == Exec(Overtaken(1, [FIRST.(revokedAt := Some(0)), LATER.(revokedAt := Some(1))], true), rest)
  {
    var s0 := Overtaken(0, [FIRST.(revokedAt := Some(0))], true);
    var s1 := s0.(clock := 1);
    var s2 := s1.(calls := s1.calls[2 := Revoking(0, 1, 1 + 7 * MILLISECONDS_PER_DAY, 1, {})]);
    var s3 := Overtaken(1, [FIRST.(revokedAt := Some(0)), LATER], true);
    var s4 := Overtaken(1, [FIRST.(revokedAt := Some(0)), LATER.(revokedAt := Some(1))], true);
    assert s4.links == RevokeSeen(s3.links, ActiveOnes(s3.links, 0), 1);
    RevokedAlone(s3, 2, 0, 0, s4, rest);
    es := [RevokeFor(2, 0, 0)] + ([Revoke(2)] + rest);
    GoneAgain(s1.calls, 2, s2.calls[2]);
    assert RevokeSeen(s2.links, {}, 1) + [LATER] == s3.links;
    assert Apply(s2, Commit(2, 1)) == s3;
    OneMore(s2, Commit(2, 1), es);
    es := [Commit(2, 1)] + es;
    assert ActiveOnes(s1.links, 0) == {};
    UpToTheCommit(s1, 2, 0, 0, 7, s2, es);
    es := [RegenerateFor(2, 0, 0)] + ([ReadClock(2, 7)] + ([RunUpdate(2)] + es));
    OneMore(s0, Tick(1), es);
    es := [Tick(1)] + es;
  }

  /** The first regeneration commits at last, and its link is revoked in the same millisecond as the other. */
  lemma FirstCommits() returns (es: seq<Event>)
    ensures var s := Overtaken(1, [FIRST.(revokedAt := Some(0)), LATER.(revokedAt := Some(1))], true);
            Runs(s, es) && Exec(s, es).links == [FIRST.(revokedAt := Some(0)), LATER.(revokedAt := Some(1)), THIRD.(revokedAt := Some(1))]
  {
    var s0 := Overtaken(1, [FIRST.(revokedAt := Some(0)), LATER.(revokedAt := Some(1))], true);
    var s1 := Overtaken(1, s0.links + [THIRD], false);
    var s2 := Overtaken(1, s0.links + [THIRD.(revokedAt := Some(1))], false);
    assert s2.links == RevokeSeen(s1.links, ActiveOnes(s1.links, 0), 1);
    RevokedAlone(s1, 3, 0, 0, s2, []);
    es := [RevokeFor(3, 0, 0)] + ([Revoke(3)] + []);
    assert RevokeSeen(s0.links, {}, 0) == s0.links;
    assert s0.calls - {1} == map[];
    assert Apply(s0, Commit(1, 2)) == s1;
    OneMore(s0, Commit(1, 2), es);
    es := [Commit(1, 2)] + es;
  }

  /** A run after which only a link issued before the last one can be returned, though their dates differ. */
  lemma TheLastIssuedMayBePassedOver() returns (es: seq<Event>)
    ensures Runs(Init(0), es)
    ensures var links := Exec(Init(0), es).links;
            && LastIssued(links, 0, 2) && !MayBeLast(links, 0, 2) && MayBeLast(links, 0, 1)
            && links[1].createdAt != links[2].createdAt && links[1].revokedAt == links[2].revokedAt
  {
    es := FirstCommits();
    es := SecondOvertakes(es);
    es := FirstWaits(es);
    var links := Exec(Init(0), es).links;
    assert links == [FIRST.(revokedAt := Some(0)), LATER.(revokedAt := Some(1)), THIRD.(revokedAt := Some(1))];
    assert Ahead(links[1], links[2]);
  }
}
