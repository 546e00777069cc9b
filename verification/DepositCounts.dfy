/** The completion counter: at least once always, and exactly when once. */
module DepositCounts {
  import opened Options
  import opened Deposits
  import opened DepositProofs

  // ---------------------------------------------------------------------
  // At least once
  // ---------------------------------------------------------------------

  predicate EveryFileComplete(files: Files) {
    forall i | i in files :: files[i].status == Complete
  }

  /** No process dies and no count query fails. */
  predicate Undisturbed(s: State, es: seq<Event>)
    requires Runs(s, es)
    decreases |es|
  {
    es == [] || (!es[0].Crash? && !es[0].CountFails? && Undisturbed(Apply(s, es[0]), es[1..]))
  }

  ghost predicate CountPending(s: State, r: Id) {
    exists c :: c in s.calls && s.calls[c].Counting? && s.calls[c].request == r
  }

  ghost predicate CountedOrOwed(s: State, r: Id) {
    EveryFileComplete(s.files) && (AllReceived(s.items, s.files, r) ==> s.counted[r] >= 1 || CountPending(s, r))
  }

  /** A write that completes a request is the first file of its piece, so its call goes on to count. */
  lemma CompletionIsOwed(s: State, c: CallId, r: Id)
    requires Inv(s) && EveryFileComplete(s.files) && Enabled(s, UpsertWrite(c))
    requires var t := ApplyWrite(s, c); AllReceived(t.items, t.files, r) && !AllReceived(s.items, s.files, r)
    ensures ApplyWrite(s, c).calls[c] == Counting(r, s.calls[c].item)
  {
    assert CallOk(s, s.calls[c]);
  }

  /** Nothing but a count ends the debt of a call that is to count. */
  lemma DebtStays(s: State, e: Event, c: CallId, r: Id)
    requires Enabled(s, e) && !e.Crash? && !e.CountFails?
    requires c in s.calls && s.calls[c].Counting? && s.calls[c].request == r && AllReceived(s.items, s.files, r)
    ensures Apply(s, e).counted[r] >= 1 || CountPending(Apply(s, e), r)
  {
    if e.call != c {
      assert c in Apply(s, e).calls && Apply(s, e).calls[c] == s.calls[c];
    }
  }

  lemma OthersComplete(s: State, e: Event)
    requires EveryFileComplete(s.files) && Enabled(s, e)
    ensures EveryFileComplete(Apply(s, e).files) && Apply(s, e).items == s.items
    ensures !e.UpsertWrite? ==> Apply(s, e).files == s.files
    ensures forall r :: s.counted[r] <= Apply(s, e).counted[r]
  {
  }

  lemma OwedStep(s: State, e: Event, r: Id)
    requires Inv(s) && CountedOrOwed(s, r) && Enabled(s, e) && !e.Crash? && !e.CountFails?
    ensures CountedOrOwed(Apply(s, e), r)
  {
    var t := Apply(s, e);
    OthersComplete(s, e);
    if AllReceived(t.items, t.files, r) {
      if !AllReceived(s.items, s.files, r) {
        CompletionIsOwed(s, e.call, r);
        assert t.calls[e.call].Counting?;
      } else if s.counted[r] == 0 {
        var c :| c in s.calls && s.calls[c].Counting? && s.calls[c].request == r;
        DebtStays(s, e, c, r);
      }
    }
  }

  lemma {:induction false} OwedRun(s: State, es: seq<Event>, r: Id)
    requires Inv(s) && CountedOrOwed(s, r) && Runs(s, es) && Undisturbed(s, es)
    ensures CountedOrOwed(Exec(s, es), r)
    decreases |es|
  {
    if es != [] {
      StepKeepsInv(s, es[0]);
      OwedStep(s, es[0], r);
      OwedRun(Apply(s, es[0]), es[1..], r);
    }
  }

  /** Once every piece is received and all calls have finished, the request was counted, in every interleaving. */
  lemma CountedAtLeastOnce(s: State, es: seq<Event>, r: Id)
    requires Starts(s) && EveryFileComplete(s.files) && !AllReceived(s.items, s.files, r)
    requires Runs(s, es) && Undisturbed(s, es)
    requires Exec(s, es).calls == map[] && AllReceived(s.items, Exec(s, es).files, r)
    ensures Exec(s, es).counted[r] >= 1
  {
    OwedRun(s, es, r);
    ItemsNeverMove(s, es);
  }

  lemma {:induction false} ItemsNeverMove(s: State, es: seq<Event>)
    requires Runs(s, es)
    ensures Exec(s, es).items == s.items
    decreases |es|
  {
    if es != [] {
      ItemsNeverMove(Apply(s, es[0]), es[1..]);
    }
  }

  // ---------------------------------------------------------------------
  // How often, exactly
  // ---------------------------------------------------------------------

  function Pending(calls: map<CallId, Call>, r: Id): set<CallId> {
    set c | c in calls && calls[c].Counting? && calls[c].request == r
  }

  /** What the counter has of the request, and what calls on their way to it will add. */
  function Owed(s: State, r: Id): nat {
    s.counted[r] + |Pending(s.calls, r)|
  }

  /** The call found no file, and its write will go through now that its piece has one. */
  predicate FirstFile(call: Call) {
    match call
    case Found(_, _, previous) => previous.None?
    case Stored(_, _, previous, _) => previous.None?
    case Upserting(_, _, previous, _, sawRow) => previous.None? && sawRow
    case _ => false
  }

  ghost predicate MayCountAgain(s: State, r: Id) {
    exists c :: c in s.calls && s.calls[c].request == r && FirstFile(s.calls[c])
  }

  /** The write of a call that found no file: it goes on to count. */
  predicate FirstWrite(s: State, e: Event, r: Id)
    requires Enabled(s, e)
  {
    e.UpsertWrite? && s.calls[e.call].request == r && s.calls[e.call].previous.None?
    && WriteGoesThrough(s.files, s.calls[e.call].item, s.calls[e.call].sawRow)
  }

  function FirstWrites(s: State, es: seq<Event>, r: Id): nat
    requires Runs(s, es)
    decreases |es|
  {
    if es == [] then 0 else (if FirstWrite(s, es[0], r) then 1 else 0) + FirstWrites(Apply(s, es[0]), es[1..], r)
  }

  /** All of it received, with no row of another status. */
  ghost predicate Completed(s: State, r: Id) {
    Inv(s) && EveryFileComplete(s.files) && AllReceived(s.items, s.files, r)
  }

  lemma PendingSet(calls: map<CallId, Call>, c: CallId, call: Call, r: Id)
    ensures Pending(calls[c := call], r)
            == Pending(calls, r) - {c} + (if call.Counting? && call.request == r then {c} else {})
    ensures Pending(calls - {c}, r) == Pending(calls, r) - {c}
  {
  }

  lemma SizesOf(a: set<CallId>, c: CallId)
    ensures |a - {c}| == |a| - (if c in a then 1 else 0)
    ensures |a - {c} + {c}| == |a| + (if c in a then 0 else 1)
  {
    if c in a {
      assert a - {c} + {c} == a;
    } else {
      assert a - {c} == a;
    }
  }

  /** A call on its way to count that never does: its query fails, or its process dies. */
  predicate Loses(s: State, e: Event, r: Id)
    requires Enabled(s, e)
  {
    (e.CountFails? || e.Crash?) && s.calls[e.call].Counting? && s.calls[e.call].request == r
  }

  function Losses(s: State, es: seq<Event>, r: Id): nat
    requires Runs(s, es)
    decreases |es|
  {
    if es == [] then 0 else (if Loses(s, es[0], r) then 1 else 0) + Losses(Apply(s, es[0]), es[1..], r)
  }

  lemma QuietOwes(s: State, e: Event, r: Id)
    requires Enabled(s, e) && !e.UpsertWrite? && !e.Count? && !e.Crash? && !e.CountFails?
    ensures Owed(Apply(s, e), r) == Owed(s, r)
  {
    var t := Apply(s, e);
    assert forall c | c in s.calls && s.calls[c].Counting? :: c in t.calls && t.calls[c] == s.calls[c];
    assert forall c | c in t.calls && t.calls[c].Counting? :: c in s.calls && t.calls[c] == s.calls[c];
    assert Pending(t.calls, r) == Pending(s.calls, r);
  }

  lemma OneMorePending(before: map<CallId, Call>, c: CallId, call: Call, r: Id)
    requires c !in Pending(before, r)
    ensures |Pending(before[c := call], r)| == |Pending(before, r)| + if call.Counting? && call.request == r then 1 else 0
  {
    PendingSet(before, c, call, r);
    assert Pending(before, r) - {c} == Pending(before, r);
  }

  lemma WriteMoves(s: State, c: CallId, r: Id)
    requires Enabled(s, UpsertWrite(c))
    ensures var t := ApplyWrite(s, c);
            && c in t.calls && t.calls == s.calls[c := t.calls[c]] && t.counted == s.counted
            && (t.calls[c].Counting? && t.calls[c].request == r <==> FirstWrite(s, UpsertWrite(c), r))
  {
  }

  lemma WriteOwes(s: State, c: CallId, r: Id)
    requires Enabled(s, UpsertWrite(c))
    ensures Owed(ApplyWrite(s, c), r) == Owed(s, r) + if FirstWrite(s, UpsertWrite(c), r) then 1 else 0
  {
    WriteMoves(s, c, r);
    OneMorePending(s.calls, c, ApplyWrite(s, c).calls[c], r);
  }

  lemma CountOwes(s: State, c: CallId, r: Id)
    requires Enabled(s, Count(c)) && AllReceived(s.items, s.files, r)
    ensures Owed(Apply(s, Count(c)), r) == Owed(s, r)
  {
    SizesOf(Pending(s.calls, r), c);
    PendingSet(s.calls, c, s.calls[c], r);
  }

  lemma LossOwes(s: State, e: Event, r: Id)
    requires Enabled(s, e) && (e.Crash? || e.CountFails?)
    ensures Owed(Apply(s, e), r) + (if Loses(s, e, r) then 1 else 0) == Owed(s, r)
  {
    SizesOf(Pending(s.calls, r), e.call);
    PendingSet(s.calls, e.call, s.calls[e.call], r);
  }

  /** Once a request is complete, first writes add to what is owed, and failed queries and dead processes take from it. */
  lemma OwedMoves(s: State, e: Event, r: Id)
    requires Completed(s, r) && Enabled(s, e)
    ensures Completed(Apply(s, e), r)
    ensures Owed(Apply(s, e), r) + (if Loses(s, e, r) then 1 else 0) == Owed(s, r) + (if FirstWrite(s, e, r) then 1 else 0)
  {
    StepKeepsInv(s, e);
    OthersComplete(s, e);
    match e
    case UpsertWrite(c) => WriteOwes(s, c, r);
    case Count(c) => CountOwes(s, c, r);
    case Crash(_) => LossOwes(s, e, r);
    case CountFails(_) => LossOwes(s, e, r);
    case _ => QuietOwes(s, e, r);
  }

  /** In every run from there, whatever fails: what is owed in the end, plus what was lost, is what was owed, plus the first writes. */
  lemma {:induction false} RunOwes(s: State, es: seq<Event>, r: Id)
    requires Completed(s, r) && Runs(s, es)
    ensures Completed(Exec(s, es), r)
    ensures Owed(Exec(s, es), r) + Losses(s, es, r) == Owed(s, r) + FirstWrites(s, es, r)
    decreases |es|
  {
    if es != [] {
      OwedMoves(s, es[0], r);
      RunOwes(Apply(s, es[0]), es[1..], r);
    }
  }

  lemma {:induction false} UndisturbedLosesNothing(s: State, es: seq<Event>, r: Id)
    requires Runs(s, es) && Undisturbed(s, es)
    ensures Losses(s, es, r) == 0
    decreases |es|
  {
    if es != [] {
      UndisturbedLosesNothing(Apply(s, es[0]), es[1..], r);
    }
  }

  /** Nobody finds a piece of a complete request empty any more. */
  lemma NoneAgainStep(s: State, e: Event, r: Id)
    requires Completed(s, r) && Enabled(s, e) && !MayCountAgain(s, r)
    ensures !MayCountAgain(Apply(s, e), r) && !FirstWrite(s, e, r)
  {
    var t := Apply(s, e);
    if e.Lookup? {
      assert Owns(s.items, e.request, e.item) && e.request == r ==> IsReceived(s.files, e.item);
    } else {
      assert CallOk(s, s.calls[e.call]);
      assert s.calls[e.call].request == r ==> IsReceived(s.files, s.calls[e.call].item);
      assert s.calls[e.call].request == r ==> !FirstFile(s.calls[e.call]);
    }
  }

  lemma {:induction false} NoneAgainRun(s: State, es: seq<Event>, r: Id)
    requires Completed(s, r) && Runs(s, es) && Undisturbed(s, es) && !MayCountAgain(s, r)
    ensures FirstWrites(s, es, r) == 0
    decreases |es|
  {
    if es != [] {
      OwedMoves(s, es[0], r);
      NoneAgainStep(s, es[0], r);
      NoneAgainRun(Apply(s, es[0]), es[1..], r);
    }
  }

  /** A run that lets every call end. */
  ghost predicate Ends(s: State, es: seq<Event>) {
    Runs(s, es) && Undisturbed(s, es) && Exec(s, es).calls == map[]
  }

  lemma OneBefore(s: State, e: Event, es: seq<Event>)
    requires Enabled(s, e) && !e.Crash? && !e.CountFails? && Ends(Apply(s, e), es)
    ensures Ends(s, [e] + es) && Exec(s, [e] + es) == Exec(Apply(s, e), es)
  {
    assert ([e] + es)[1..] == es;
    OneMore(s, e, es);
  }

  /** The step that takes a call towards its end without recording anything. */
  function WayOut(c: CallId, call: Call): Event {
    match call
    case Found(_, _, _) => PutFails(c)
    case Stored(_, _, _, _) => UpsertFails(c)
    case Upserting(_, _, _, _, _) => UpsertFails(c)
    case Undoing(_, _, _, _) => Undo(c, true)
    case Counting(_, _) => Count(c)
    case Forgetting(_, _, _) => Forget(c, true)
  }

  lemma WayOutEnds(s: State, c: CallId, r: Id)
    requires Completed(s, r) && c in s.calls
    ensures var e := WayOut(c, s.calls[c]);
            && Enabled(s, e) && Completed(Apply(s, e), r) && Owed(Apply(s, e), r) == Owed(s, r)
            && if s.calls[c].Stored? || s.calls[c].Upserting? then
                 Apply(s, e).calls.Keys == s.calls.Keys && Apply(s, e).calls[c].Undoing?
               else
                 Apply(s, e).calls == s.calls - {c}
  {
    OwedMoves(s, WayOut(c, s.calls[c]), r);
  }

  lemma EndOneCall(s: State, c: CallId, r: Id, es: seq<Event>) returns (more: seq<Event>)
    requires Completed(s, r) && c in s.calls
    requires var t := Apply(s, WayOut(c, s.calls[c])); Ends(t, es) && Exec(t, es).counted[r] == Owed(t, r)
    ensures Ends(s, more) && Exec(s, more).counted[r] == Owed(s, r)
  {
    var e := WayOut(c, s.calls[c]);
    WayOutEnds(s, c, r);
    OneBefore(s, e, es);
    more := [e] + es;
  }

  lemma NobodyOwes(s: State, r: Id)
    requires s.calls == map[]
    ensures Owed(s, r) == s.counted[r] && Ends(s, [])
  {
    assert Pending(s.calls, r) == {};
  }

  /** From anywhere all calls may end with nothing counted but what is owed. */
  lemma {:induction false} AllMayEnd(s: State, r: Id) returns (es: seq<Event>)
    requires Completed(s, r)
    ensures Ends(s, es) && Exec(s, es).counted[r] == Owed(s, r)
    decreases |s.calls.Keys|, 1
  {
    if s.calls == map[] {
      NobodyOwes(s, r);
      es := [];
    } else {
      var c :| c in s.calls;
      if s.calls[c].Stored? || s.calls[c].Upserting? {
        var t := Apply(s, WayOut(c, s.calls[c]));
        WayOutEnds(s, c, r);
        assert t.calls.Keys == s.calls.Keys;
        es := OthersMayEnd(t, c, r);
        es := EndOneCall(s, c, r, es);
      } else {
        es := OthersMayEnd(s, c, r);
      }
    }
  }

  /** The same, beginning with a call that is one step from its end. */
  lemma {:induction false} OthersMayEnd(s: State, c: CallId, r: Id) returns (es: seq<Event>)
    requires Completed(s, r) && c in s.calls && !s.calls[c].Stored? && !s.calls[c].Upserting?
    ensures Ends(s, es) && Exec(s, es).counted[r] == Owed(s, r)
    decreases |s.calls.Keys|, 0
  {
    var t := Apply(s, WayOut(c, s.calls[c]));
    WayOutEnds(s, c, r);
    assert t.calls.Keys == s.calls.Keys - {c};
    es := AllMayEnd(t, r);
    es := EndOneCall(s, c, r, es);
  }

  lemma {:induction false} AFreshDraw(used: set<Key>) returns (n: nat)
    ensures forall k | k in used :: k.draw < n
    decreases |used|
  {
    n := 0;
    if used != {} {
      var k :| k in used;
      n := AFreshDraw(used - {k});
      n := if k.draw < n then n else k.draw + 1;
    }
  }

  lemma {:induction false} OneMayCountAgain(s: State, c: CallId, r: Id) returns (es: seq<Event>)
    requires Completed(s, r) && c in s.calls && s.calls[c].request == r && FirstFile(s.calls[c])
    ensures Ends(s, es) && Exec(s, es).counted[r] == Owed(s, r) + 1
    decreases if s.calls[c].Found? then 2 else if s.calls[c].Stored? then 1 else 0
  {
    var e: Event;
    assert CallOk(s, s.calls[c]) && IsReceived(s.files, s.calls[c].item);
    if s.calls[c].Found? {
      var draw := AFreshDraw(s.used);
      e := Put(c, draw);
      OwedMoves(s, e, r);
      es := OneMayCountAgain(Apply(s, e), c, r);
    } else if s.calls[c].Stored? {
      e := UpsertRead(c);
      OwedMoves(s, e, r);
      es := OneMayCountAgain(Apply(s, e), c, r);
    } else {
      e := UpsertWrite(c);
      OwedMoves(s, e, r);
      es := AllMayEnd(Apply(s, e), r);
    }
    OneBefore(s, e, es);
    es := [e] + es;
  }

  /** Every run that lets every call end leaves the counter at `n`. */
  ghost predicate AlwaysEndsAt(s: State, r: Id, n: nat) {
    forall es | Ends(s, es) :: Exec(s, es).counted[r] == n
  }

  /** Once a request is complete, what its counter ends at is settled exactly when no call in flight found its piece empty. */
  lemma CountIsSettledIff(s: State, r: Id, n: nat)
    requires Completed(s, r)
    ensures AlwaysEndsAt(s, r, n) <==> Owed(s, r) == n && !MayCountAgain(s, r)
  {
    if AlwaysEndsAt(s, r, n) {
      var es := AllMayEnd(s, r);
      if c :| c in s.calls && s.calls[c].request == r && FirstFile(s.calls[c]) {
        var more := OneMayCountAgain(s, c, r);
      }
    }
    if Owed(s, r) == n && !MayCountAgain(s, r) {
      forall es | Ends(s, es) ensures Exec(s, es).counted[r] == n {
        RunOwes(s, es, r);
        UndisturbedLosesNothing(s, es, r);
        NoneAgainRun(s, es, r);
        assert Pending(Exec(s, es).calls, r) == {};
      }
    }
  }

  // ---------------------------------------------------------------------
  // Exactly once
  // ---------------------------------------------------------------------

  lemma {:induction false} NotCountedBefore(s: State, es: seq<Event>, r: Id)
    requires Inv(s) && EveryFileComplete(s.files) && Runs(s, es) && !AllReceived(s.items, Exec(s, es).files, r)
    ensures Inv(Exec(s, es)) && EveryFileComplete(Exec(s, es).files) && Exec(s, es).items == s.items
    ensures Exec(s, es).counted[r] == s.counted[r]
    decreases |es|
  {
    if es != [] {
      StepKeepsInv(s, es[0]);
      OthersComplete(s, es[0]);
      NotCountedBefore(Apply(s, es[0]), es[1..], r);
      if AllReceived(s.items, s.files, r) {
        ReceivedForEver(s, es, r);
      }
    }
  }

  lemma {:induction false} ReceivedForEver(s: State, es: seq<Event>, r: Id)
    requires Runs(s, es) && AllReceived(s.items, s.files, r)
    ensures AllReceived(s.items, Exec(s, es).files, r)
    decreases |es|
  {
    if es != [] {
      assert Apply(s, es[0]).items == s.items;
      ReceivedForEver(Apply(s, es[0]), es[1..], r);
    }
  }

  /** The call found no file: it may still record the first one of its piece, or has and is to count it. */
  predicate First(call: Call) {
    match call
    case Found(_, _, previous) => previous.None?
    case Stored(_, _, previous, _) => previous.None?
    case Upserting(_, _, previous, _, _) => previous.None?
    case Counting(_, _) => true
    case _ => false
  }

  /** What the write of `c` that completes the request finds of others: none that counts, or will if it is left to. */
  ghost predicate NoOther(s: State, c: CallId, r: Id) {
    forall d | d in s.calls && d != c && s.calls[d].request == r :: !s.calls[d].Counting? && !FirstFile(s.calls[d])
  }

  lemma OnlyOneOwed(s: State, c: CallId, r: Id)
    requires c in s.calls && s.calls[c].Counting? && s.calls[c].request == r && s.counted[r] == 0
    ensures Owed(s, r) == 1 && !MayCountAgain(s, r) <==> NoOther(s, c, r)
  {
    var p := Pending(s.calls, r);
    SizesOf(p, c);
    if NoOther(s, c, r) {
      assert p - {c} == {};
    } else if !MayCountAgain(s, r) {
      var d :| d in s.calls && d != c && s.calls[d].request == r && (s.calls[d].Counting? || FirstFile(s.calls[d]));
      assert d in p - {c};
    }
  }

  /** The write that completes a request goes on to count, and nothing was counted before it. */
  lemma CompletingWrite(s: State, es: seq<Event>, c: CallId, r: Id)
    requires Starts(s) && EveryFileComplete(s.files) && s.counted[r] == 0 && Runs(s, es)
    requires var u := Exec(s, es); Enabled(u, UpsertWrite(c)) && !AllReceived(u.items, u.files, r)
    requires var t := Apply(Exec(s, es), UpsertWrite(c)); AllReceived(t.items, t.files, r)
    ensures var t := Apply(Exec(s, es), UpsertWrite(c));
            Completed(t, r) && t.counted[r] == 0 && c in t.calls && t.calls[c].Counting? && t.calls[c].request == r
  {
    var u := Exec(s, es);
    ItemsNeverMove(s, es);
    NotCountedBefore(s, es, r);
    StepKeepsInv(u, UpsertWrite(c));
    OthersComplete(u, UpsertWrite(c));
    CompletionIsOwed(u, c, r);
  }

  /**
   * The write that completes a request not counted before leads to exactly one count, however the run goes on,
   * if and only if no other call of the request is then to count or has its write of a first file still to come
   * and to succeed.
   */
  lemma CompletionCountsOnceIff(s: State, es: seq<Event>, c: CallId, r: Id)
    requires Starts(s) && EveryFileComplete(s.files) && s.counted[r] == 0 && Runs(s, es)
    requires var u := Exec(s, es); Enabled(u, UpsertWrite(c)) && !AllReceived(u.items, u.files, r)
    requires var t := Apply(Exec(s, es), UpsertWrite(c)); AllReceived(t.items, t.files, r)
    ensures AlwaysEndsAt(Apply(Exec(s, es), UpsertWrite(c)), r, 1) <==> NoOther(Exec(s, es), c, r)
  {
    var u := Exec(s, es);
    var t := ApplyWrite(u, c);
    CompletingWrite(s, es, c, r);
    CountIsSettledIff(t, r, 1);
    OnlyOneOwed(t, c, r);
    assert forall d | d in u.calls && d != c :: d in t.calls && t.calls[d] == u.calls[d];
    assert forall d | d in t.calls && d != c :: d in u.calls && t.calls[d] == u.calls[d];
  }

  /**
   * With crashes and failed count queries allowed: from the write that completes a request not counted before, a
   * run in which all calls end leaves it uncounted if and only if it loses every count, those owed by that
   * write and by calls already on their way, and those of later first writes.
   */
  lemma EndsUncountedIff(s: State, es: seq<Event>, c: CallId, r: Id, more: seq<Event>)
    requires Starts(s) && EveryFileComplete(s.files) && s.counted[r] == 0 && Runs(s, es)
    requires var u := Exec(s, es); Enabled(u, UpsertWrite(c)) && !AllReceived(u.items, u.files, r)
    requires var t := Apply(Exec(s, es), UpsertWrite(c));
             AllReceived(t.items, t.files, r) && Runs(t, more) && Exec(t, more).calls == map[]
    ensures var t := Apply(Exec(s, es), UpsertWrite(c));
            && |Pending(t.calls, r)| >= 1
            && Exec(t, more).counted[r] + Losses(t, more, r) == |Pending(t.calls, r)| + FirstWrites(t, more, r)
            && (Exec(t, more).counted[r] == 0 <==> Losses(t, more, r) == |Pending(t.calls, r)| + FirstWrites(t, more, r))
  {
    var t := ApplyWrite(Exec(s, es), c);
    CompletingWrite(s, es, c, r);
    RunOwes(t, more, r);
    assert c in Pending(t.calls, r);
    NobodyOwes(Exec(t, more), r);
  }

  /** No deposit finds a piece of `r` empty while another that did is in flight. Everything else may overlap. */
  predicate FirstsApart(s: State, es: seq<Event>, r: Id)
    requires Runs(s, es)
    decreases |es|
  {
    es == [] || (Apart(s, es[0], r) && FirstsApart(Apply(s, es[0]), es[1..], r))
  }

  predicate Apart(s: State, e: Event, r: Id) {
    e.Lookup? && e.request == r && Owns(s.items, r, e.item) && e.accepted && e.item !in s.files ==>
      forall c | c in s.calls && s.calls[c].request == r :: !First(s.calls[c])
  }

  ghost predicate AtMostOneFirst(calls: map<CallId, Call>, r: Id) {
    forall c, d | c in calls && d in calls && calls[c].request == r && calls[d].request == r && First(calls[c]) && First(calls[d]) :: c == d
  }

  ghost predicate CountedOnceInTheEnd(s: State, r: Id) {
    && Inv(s) && EveryFileComplete(s.files) && AtMostOneFirst(s.calls, r)
    && if AllReceived(s.items, s.files, r) then Owed(s, r) == 1 && !MayCountAgain(s, r) else s.counted[r] == 0
  }

  lemma FirstsStayApart(s: State, e: Event, r: Id)
    requires AtMostOneFirst(s.calls, r) && Enabled(s, e) && Apart(s, e, r)
    ensures AtMostOneFirst(Apply(s, e).calls, r)
  {
  }

  lemma OnceStep(s: State, e: Event, r: Id)
    requires CountedOnceInTheEnd(s, r) && Enabled(s, e) && Apart(s, e, r) && !e.Crash? && !e.CountFails?
    ensures CountedOnceInTheEnd(Apply(s, e), r)
  {
    var t := Apply(s, e);
    FirstsStayApart(s, e, r);
    StepKeepsInv(s, e);
    OthersComplete(s, e);
    if AllReceived(s.items, s.files, r) {
      OwedMoves(s, e, r);
      NoneAgainStep(s, e, r);
    } else if AllReceived(t.items, t.files, r) {
      CompletionIsOwed(s, e.call, r);
      OnlyOneOwed(t, e.call, r);
    }
  }

  lemma {:induction false} OnceRun(s: State, es: seq<Event>, r: Id)
    requires CountedOnceInTheEnd(s, r) && Runs(s, es) && Undisturbed(s, es) && FirstsApart(s, es, r)
    ensures CountedOnceInTheEnd(Exec(s, es), r)
    decreases |es|
  {
    if es != [] {
      OnceStep(s, es[0], r);
      OnceRun(Apply(s, es[0]), es[1..], r);
    }
  }

  /**
   * A request with something missing is counted exactly once when it is completed, and not before, as long as its
   * own first deposits do not overlap: replacements, other requests and failed deletions are free.
   */
  lemma CountedExactlyOnce(s: State, es: seq<Event>, r: Id)
    requires Starts(s) && EveryFileComplete(s.files) && !AllReceived(s.items, s.files, r) && s.counted[r] == 0
    requires Runs(s, es) && Undisturbed(s, es) && FirstsApart(s, es, r) && Exec(s, es).calls == map[]
    ensures Exec(s, es).counted[r] == if AllReceived(s.items, Exec(s, es).files, r) then 1 else 0
  {
    OnceRun(s, es, r);
    ItemsNeverMove(s, es);
    assert Pending(Exec(s, es).calls, r) == {};
  }

  // ---------------------------------------------------------------------
  // A replacement never counts
  // ---------------------------------------------------------------------

  /** The piece had a file when the call looked. */
  predicate Replaces(call: Call) {
    match call
    case Found(_, _, previous) => previous.Some?
    case Stored(_, _, previous, _) => previous.Some?
    case Upserting(_, _, previous, _, _) => previous.Some?
    case Undoing(_, _, _, _) => true
    case Counting(_, _) => false
    case Forgetting(_, _, _) => true
  }

  predicate NeverLooksAgain(es: seq<Event>, c: CallId) {
    forall e | e in es :: !(e.Lookup? && e.call == c)
  }

  lemma {:induction false} ReplacementNeverCounts(s: State, es: seq<Event>, c: CallId)
    requires Runs(s, es) && NeverLooksAgain(es, c) && (c in s.calls ==> Replaces(s.calls[c]))
    ensures Count(c) !in es
    decreases |es|
  {
    if es != [] {
      assert es[0] in es && forall e | e in es[1..] :: e in es;
      ReplacementNeverCounts(Apply(s, es[0]), es[1..], c);
      assert es == [es[0]] + es[1..];
    }
  }

  // ---------------------------------------------------------------------
  // What overlapping can do
  // ---------------------------------------------------------------------

  /** The rest of the run ends well: nobody in flight, and request 0 counted twice. */
  ghost predicate EndsTwice(s: State, es: seq<Event>) {
    Ends(s, es) && Exec(s, es).counted[0] == 2
  }

  lemma Before(s: State, e: Event, es: seq<Event>)
    requires Enabled(s, e) && !e.Crash? && !e.CountFails? && EndsTwice(Apply(s, e), es)
    ensures EndsTwice(s, [e] + es)
  {
    OneBefore(s, e, es);
  }

  lemma BothRecorded(t: State)
    requires t.items == map[0 := 0, 1 := 0] && t.counted == multiset{} && AllReceived(t.items, t.files, 0)
    requires t.calls == map[0 := Counting(0, 0), 1 := Counting(0, 1)]
    ensures EndsTwice(t, [Count(0)] + ([Count(1)] + []))
  {
    var t1 := Apply(t, Count(0));
    assert t1.calls == map[1 := Counting(0, 1)] && t1.counted == multiset{0};
    var t2 := Apply(t1, Count(1));
    assert t2.calls == map[] && t2.counted == multiset{0, 0};
    assert EndsTwice(t2, []);
    Before(t1, Count(1), []);
    Before(t, Count(0), [Count(1)] + []);
  }

  lemma BothCount(t: State)
    requires t.items == map[0 := 0, 1 := 0] && t.files == map[] && t.counted == multiset{}
    requires t.calls == map[0 := Upserting(0, 0, None, Key(0, 0, 0), false), 1 := Upserting(0, 1, None, Key(0, 1, 0), false)]
    ensures exists es :: EndsTwice(t, es)
  {
    var t1 := Apply(t, UpsertWrite(0));
    assert t1.calls == map[0 := Counting(0, 0), 1 := Upserting(0, 1, None, Key(0, 1, 0), false)];
    var t2 := Apply(t1, UpsertWrite(1));
    assert t2.calls == map[0 := Counting(0, 0), 1 := Counting(0, 1)];
    assert AllReceived(t2.items, t2.files, 0);
    var es := [Count(0)] + ([Count(1)] + []);
    BothRecorded(t2);
    Before(t1, UpsertWrite(1), es);
    Before(t, UpsertWrite(0), [UpsertWrite(1)] + es);
  }

  lemma OneReady(s: State, c: CallId, item: Id, es: seq<Event>)
    requires c !in s.calls && Owns(s.items, 0, item) && item !in s.files && Key(0, item, 0) !in s.used
    requires var t := s.(bucket := s.bucket + {Key(0, item, 0)}, used := s.used + {Key(0, item, 0)},
                         calls := s.calls[c := Upserting(0, item, None, Key(0, item, 0), false)]);
             EndsTwice(t, es)
    ensures exists more :: EndsTwice(s, more)
  {
    var key := Key(0, item, 0);
    var s1 := Become(s, c, Found(0, item, None));
    var s2 := Become(s, c, Stored(0, item, None, key)).(bucket := s.bucket + {key}, used := s.used + {key});
    var s3 := Become(s2, c, Upserting(0, item, None, key, false));
    assert Apply(s, Lookup(c, 0, item, true)) == s1;
    assert Apply(s1, Put(c, 0)) == s2;
    assert Apply(s2, UpsertRead(c)) == s3;
    assert s3.calls == s.calls[c := Upserting(0, item, None, key, false)];
    Before(s2, UpsertRead(c), es);
    Before(s1, Put(c, 0), [UpsertRead(c)] + es);
    Before(s, Lookup(c, 0, item, true), [Put(c, 0)] + ([UpsertRead(c)] + es));
  }

  /** Two first deposits that both record before either counts: the request is counted twice. */
  lemma OverlappingDepositsMayCountTwice(s: State)
    requires Starts(s) && s.items == map[0 := 0, 1 := 0] && s.files == map[] && s.counted == multiset{} && s.used == {}
    ensures exists es :: EndsTwice(s, es)
  {
    var k0, k1 := Key(0, 0, 0), Key(0, 1, 0);
    var t := s.(bucket := s.bucket + {k0}, used := s.used + {k0}, calls := s.calls[0 := Upserting(0, 0, None, k0, false)]);
    var u := t.(bucket := t.bucket + {k1}, used := t.used + {k1}, calls := t.calls[1 := Upserting(0, 1, None, k1, false)]);
    BothCount(u);
    var es :| EndsTwice(u, es);
    OneReady(t, 1, 1, es);
    var more :| EndsTwice(t, more);
    OneReady(s, 0, 0, more);
  }
}
