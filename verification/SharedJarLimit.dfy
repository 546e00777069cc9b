/** Half the race window is exactly the time an exchange may take, and no answer may be lost once its rotation has committed. */
module SharedJarLimit {
  import opened Options
  import opened RefreshTokens
  import opened RefreshTokenService
  import opened SharedJar
  import opened SharedJarProofs
  import opened SharedJarStranded

  /**
   * After any login, however the tabs and everybody else interleave, no tab is ever answered 'reused'; `lossy`
   * says whether an error may be thrown between a rotation that has committed and its answer.
   */
  ghost predicate TabsAreSafe(bound: int, limits: Limits, lossy: bool) {
    forall w, clock, es, lawyer, token, acts ::
      JustLoggedIn(w, limits, clock, es, lawyer, token) && Goes(w, bound, acts) && (lossy || Unbroken(acts)) ==> !EverReused(w, bound, acts)
  }

  lemma HonestTabs(bound: int, limits: Limits, w: World, clock: int, es: seq<Event>, lawyer: Lawyer, token: Token, acts: seq<Act>)
    requires 0 < 2 * bound <= RACE_WINDOW_MS
    requires JustLoggedIn(w, limits, clock, es, lawyer, token) && Goes(w, bound, acts) && Unbroken(acts)
    ensures !EverReused(w, bound, acts)
    ensures AlwaysForward(w, bound, acts)
  {
    LoginEstablishes(w, bound, limits, clock, es, lawyer, token);
    HonestRun(w, bound, Jar, acts);
  }

  // ---------------------------------------------------------------------
  // One tab rotates
  // ---------------------------------------------------------------------

  function FirstRow(limits: Limits, revokedAt: Option<int>): Row {
    Row(0, 0, limits.session, limits.idle, revokedAt)
  }

  function FirstHistory(limits: Limits): History {
    History(limits, map[0 := 0], map[0 := Birth(0, 0, 0)], map[0 := []])
  }

  function RotatedHistory(limits: Limits): History {
    History(limits, map[0 := 0, 1 := 0], map[0 := Birth(0, 0, 0)], map[0 := [Rotation(0, 1, 0, 0)]])
  }

  function RotatedTable(limits: Limits): Table {
    map[0 := FirstRow(limits, Some(0)), 1 := FirstRow(limits, None)]
  }

  function Login(limits: Limits): World {
    World(State(0, map[0 := FirstRow(limits, None)], map[], FirstHistory(limits)), 0, Some(0), map[])
  }

  /** The first tab has rotated; what follows has still to be done. */
  function Committed(limits: Limits): World {
    World(State(0, RotatedTable(limits), map[], RotatedHistory(limits)), 0, Some(0), map[1 := Exchange(0, 0, Renewing(1, limits.session))])
  }

  /** It has been done, and the answer is on its way. */
  function Winning(limits: Limits): World {
    Committed(limits).(tabs := map[1 := Exchange(0, 0, Answered(Set(1, limits.session)))])
  }

  /** Just before it lands the second tab has sent the old cookie, and its row has been read. */
  function Late(limits: Limits): World {
    World(State(15_000, RotatedTable(limits), map[2 := Looked(0, Some(FirstRow(limits, Some(0))))], RotatedHistory(limits)), 0, Some(1),
          map[2 := Exchange(0, 15_000, Serving)])
  }

  /** The first tab has passed its check. */
  function Due(limits: Limits): World {
    World(State(0, map[0 := FirstRow(limits, None)], map[1 := Checked(0, FirstRow(limits, None), 0)], FirstHistory(limits)),
          0, Some(0), map[1 := Exchange(0, 0, Serving)])
  }

  lemma ClaimOne(bound: int, limits: Limits)
    ensures Can(Due(limits), bound, Serve(1, Claim(1, 1))) && Do(Due(limits), bound, Serve(1, Claim(1, 1))) == Committed(limits)
  {
    var w := Due(limits);
    var t := ApplyClaim(w.server, 1, 1);
    assert t.table == RotatedTable(limits);
    assert t.calls == map[];
    assert RotationsOf(w.server.past, 0) + [Rotation(0, 1, 0, 0)] == [Rotation(0, 1, 0, 0)];
    assert t.past.rotations == map[0 := [Rotation(0, 1, 0, 0)]];
    assert t.past.owner == map[0 := 0, 1 := 0];
    assert PhaseAfter(w.server, Claim(1, 1)) == Renewing(1, limits.session);
  }

  lemma UpToTheCheck(bound: int, limits: Limits, rest: seq<Act>) returns (acts: seq<Act>)
    requires 0 < limits.session && 0 < limits.idle
    requires Goes(Due(limits), bound, rest) && EverReused(Due(limits), bound, rest)
    ensures Goes(Login(limits), bound, acts) && EverReused(Login(limits), bound, acts) && (Unbroken(rest) ==> Unbroken(acts))
  {
    var w0 := Login(limits);
    var w1 := w0.(tabs := map[1 := Exchange(0, 0, Sent)]);
    var row := FirstRow(limits, None);
    var w2 := w1.(server := w1.server.(calls := map[1 := Looked(0, Some(row))]), tabs := map[1 := Exchange(0, 0, Serving)]);
    assert Do(w0, bound, Send(1)) == w1;
    assert Do(w1, bound, Serve(1, Look(1, 0))) == w2;
    assert Do(w2, bound, Serve(1, Decide(1))) == Due(limits);
    OneAct(w2, bound, Serve(1, Decide(1)), rest);
    OneAct(w1, bound, Serve(1, Look(1, 0)), [Serve(1, Decide(1))] + rest);
    OneAct(w0, bound, Send(1), [Serve(1, Look(1, 0))] + ([Serve(1, Decide(1))] + rest));
    acts := [Send(1)] + ([Serve(1, Look(1, 0))] + ([Serve(1, Decide(1))] + rest));
  }

  lemma FirstTab(bound: int, limits: Limits, rest: seq<Act>) returns (acts: seq<Act>)
    requires 0 < limits.session && 0 < limits.idle
    requires Goes(Committed(limits), bound, rest) && EverReused(Committed(limits), bound, rest)
    ensures Goes(Login(limits), bound, acts) && EverReused(Login(limits), bound, acts) && (Unbroken(rest) ==> Unbroken(acts))
  {
    ClaimOne(bound, limits);
    OneAct(Due(limits), bound, Serve(1, Claim(1, 1)), rest);
    acts := UpToTheCheck(bound, limits, [Serve(1, Claim(1, 1))] + rest);
  }

  // ---------------------------------------------------------------------
  // Two tabs and one slow answer
  // ---------------------------------------------------------------------

  lemma FirstIsAnswered(bound: int, limits: Limits, rest: seq<Act>) returns (acts: seq<Act>)
    requires Goes(Winning(limits), bound, rest) && EverReused(Winning(limits), bound, rest)
    ensures Goes(Committed(limits), bound, acts) && EverReused(Committed(limits), bound, acts) && (Unbroken(rest) ==> Unbroken(acts))
  {
    assert Do(Committed(limits), bound, Renew(1, Renewed)) == Winning(limits);
    OneAct(Committed(limits), bound, Renew(1, Renewed), rest);
    acts := [Renew(1, Renewed)] + rest;
  }

  /** The second tab has sent the old cookie, and the first answer has not landed. */
  function Both(limits: Limits): World {
    var w := Winning(limits);
    w.(server := w.server.(clock := 15_000), tabs := w.tabs[2 := Exchange(0, 15_000, Sent)])
  }

  lemma SecondIsServed(bound: int, limits: Limits, rest: seq<Act>) returns (acts: seq<Act>)
    requires Goes(Late(limits), bound, rest) && EverReused(Late(limits), bound, rest)
    ensures Goes(Both(limits), bound, acts) && EverReused(Both(limits), bound, acts) && (Unbroken(rest) ==> Unbroken(acts))
  {
    var w := Both(limits).(jar := Some(1), tabs := map[2 := Exchange(0, 15_000, Sent)]);
    assert Do(Both(limits), bound, Deliver(1)) == w;
    assert Do(w, bound, Serve(2, Look(2, 0))) == Late(limits);
    OneAct(w, bound, Serve(2, Look(2, 0)), rest);
    acts := [Serve(2, Look(2, 0))] + rest;
    OneAct(Both(limits), bound, Deliver(1), acts);
    acts := [Deliver(1)] + acts;
  }

  lemma SecondTab(bound: int, limits: Limits, rest: seq<Act>) returns (acts: seq<Act>)
    requires 2 * bound > RACE_WINDOW_MS
    requires Goes(Late(limits), bound, rest) && EverReused(Late(limits), bound, rest)
    ensures Goes(Winning(limits), bound, acts) && EverReused(Winning(limits), bound, acts) && (Unbroken(rest) ==> Unbroken(acts))
  {
    var w0 := Winning(limits);
    var w1 := w0.(server := w0.server.(clock := 15_000));
    assert Do(w0, bound, Elsewhere(Tick(15_000))) == w1;
    assert Do(w1, bound, Send(2)) == Both(limits);
    acts := SecondIsServed(bound, limits, rest);
    OneAct(w1, bound, Send(2), acts);
    acts := [Send(2)] + acts;
    OneAct(w0, bound, Elsewhere(Tick(15_000)), acts);
    acts := [Elsewhere(Tick(15_000))] + acts;
  }

  lemma Killed(bound: int, limits: Limits) returns (acts: seq<Act>)
    requires 2 * bound > RACE_WINDOW_MS
    ensures Goes(Late(limits), bound, acts) && EverReused(Late(limits), bound, acts) && Unbroken(acts)
  {
    var w0 := Late(limits);
    var w1 := w0.(server := w0.server.(clock := 30_000));
    var w2 := w1.(server := w1.server.(calls := map[2 := Killing(0, 0)]));
    assert Do(w0, bound, Elsewhere(Tick(30_000))) == w1;
    assert Do(w1, bound, Serve(2, Decide(2))) == w2;
    assert AnswersReused(w2, bound, Serve(2, Kill(2)));
    OneAct(w2, bound, Serve(2, Kill(2)), []);
    OneAct(w1, bound, Serve(2, Decide(2)), [Serve(2, Kill(2))] + []);
    OneAct(w0, bound, Elsewhere(Tick(30_000)), [Serve(2, Decide(2))] + ([Serve(2, Kill(2))] + []));
    acts := [Elsewhere(Tick(30_000))] + ([Serve(2, Decide(2))] + ([Serve(2, Kill(2))] + []));
  }

  // ---------------------------------------------------------------------
  // One tab and one lost answer
  // ---------------------------------------------------------------------

  /** The answer is lost, the 500 is delivered at once, and the replaced token stays in the jar. */
  lemma Lost(bound: int, limits: Limits) returns (acts: seq<Act>)
    ensures Goes(Committed(limits), bound, acts) && EverReused(Committed(limits), bound, acts)
  {
    var w0 := Committed(limits);
    var w1 := w0.(tabs := map[1 := Exchange(0, 0, Answered(Keep))]);
    var w2 := w0.(tabs := map[]);
    assert Do(w0, bound, Renew(1, Broken)) == w1;
    assert w1.tabs - {1} == map[];
    assert Do(w1, bound, Deliver(1)) == w2;
    acts := LeftWithAReplacedToken(w2, bound, 2, 0);
    OneAct(w1, bound, Deliver(1), acts);
    acts := [Deliver(1)] + acts;
    OneAct(w0, bound, Renew(1, Broken), acts);
    acts := [Renew(1, Broken)] + acts;
  }

  lemma LoginIsALogin(limits: Limits)
    ensures JustLoggedIn(Login(limits), limits, 0, [], 0, 0)
  {
    assert Runs(Init(limits, 0), []) && Exec(Init(limits, 0), []) == Init(limits, 0);
    assert ApplyIssue(Init(limits, 0), 0, 0, 0) == Login(limits).server;
  }

  /**
   * Exactly two things keep every run safe: exchanges delivered in under 15 s, half of RACE_WINDOW_MS, and no
   * error thrown once a rotation has committed. A millisecond more, or one lost answer, and some run is not.
   */
  lemma HalfTheWindowIsExact(bound: int, limits: Limits, lossy: bool)
    requires 0 < bound && 0 < limits.session && 0 < limits.idle
    ensures TabsAreSafe(bound, limits, lossy) <==> 2 * bound <= RACE_WINDOW_MS && !lossy
  {
    if 2 * bound <= RACE_WINDOW_MS && !lossy {
      forall w, clock, es, lawyer, token, acts | JustLoggedIn(w, limits, clock, es, lawyer, token) && Goes(w, bound, acts) && Unbroken(acts)
        ensures !EverReused(w, bound, acts)
      {
        HonestTabs(bound, limits, w, clock, es, lawyer, token, acts);
      }
    } else {
      var acts: seq<Act>;
      if lossy {
        acts := Lost(bound, limits);
      } else {
        acts := Killed(bound, limits);
        acts := SecondTab(bound, limits, acts);
        acts := FirstIsAnswered(bound, limits, acts);
      }
      acts := FirstTab(bound, limits, acts);
      LoginIsALogin(limits);
    }
  }
}
