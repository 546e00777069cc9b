/** Which objects no row names: in every interleaving, exactly those that some step gave up. */
module DepositOrphans {
  import opened Options
  import opened Deposits
  import opened DepositProofs

  predicate Named(files: Files, k: Key) {
    k.item in files && files[k.item].key == k
  }

  function RowKeys(files: Files): set<Key> {
    set i | i in files :: files[i].key
  }

  lemma NamedByRows(s: State, k: Key)
    requires FilesOk(s)
    ensures Named(s.files, k) <==> k in RowKeys(s.files)
  {
  }

  /** The object a call still has to record or to erase. */
  function Spare(call: Call): Option<Key> {
    if call.Forgetting? then Some(call.former) else OwnKey(call)
  }

  ghost predicate Held(calls: map<CallId, Call>, k: Key) {
    exists c :: c in calls && Spare(calls[c]) == Some(k)
  }

  /**
   * The objects a step gives up: a deletion that is not confirmed, a process that dies with an object to record
   * or to erase, a row overwritten under a call that had looked before the row took that key.
   */
  function Leaves(s: State, e: Event): set<Key>
    requires Enabled(s, e)
  {
    match e
    case Undo(c, deleted) => if deleted then {} else {s.calls[c].key}
    case Forget(c, deleted) => if deleted then {} else {s.calls[c].former}
    case Crash(c) => if Spare(s.calls[c]).Some? then {Spare(s.calls[c]).value} else {}
    case UpsertWrite(c) => if Supersedes(s, c) then {s.files[s.calls[c].item].key} else {}
    case _ => {}
  }

  predicate Supersedes(s: State, c: CallId)
    requires c in s.calls && s.calls[c].Upserting?
  {
    var Upserting(_, item, previous, _, sawRow) := s.calls[c];
    WriteGoesThrough(s.files, item, sawRow) && item in s.files && previous != Some(s.files[item].key)
  }

  function LeftBehind(s: State, es: seq<Event>): set<Key>
    requires Runs(s, es)
    decreases |es|
  {
    if es == [] then {} else Leaves(s, es[0]) + LeftBehind(Apply(s, es[0]), es[1..])
  }

  // ---------------------------------------------------------------------
  // Every object is accounted for
  // ---------------------------------------------------------------------

  ghost predicate Accounted(s: State, left: set<Key>) {
    forall k | k in s.bucket :: Named(s.files, k) || Held(s.calls, k) || k in left
  }

  lemma HeldElsewhere(s: State, e: Event, k: Key)
    requires Enabled(s, e) && Held(s.calls, k)
    ensures Held(Apply(s, e).calls, k) || (!e.Lookup? && Spare(s.calls[e.call]) == Some(k))
  {
    var c :| c in s.calls && Spare(s.calls[c]) == Some(k);
    if e.Lookup? || c != e.call {
      assert c in Apply(s, e).calls && Apply(s, e).calls[c] == s.calls[c];
    }
  }

  /** What a call had in hand it still has, has recorded, has erased or gives up. */
  lemma OwnIsAccounted(s: State, e: Event)
    requires Inv(s) && Enabled(s, e) && !e.Lookup? && Spare(s.calls[e.call]).Some?
    ensures var t := Apply(s, e); var k := Spare(s.calls[e.call]).value;
            k in t.bucket ==> Named(t.files, k) || Held(t.calls, k) || k in Leaves(s, e)
  {
    var t := Apply(s, e);
    assert CallOk(s, s.calls[e.call]);
    if e.call in t.calls && Spare(t.calls[e.call]) == Spare(s.calls[e.call]) {
      assert Held(t.calls, Spare(s.calls[e.call]).value);
    }
  }

  /** The key of a row stays its row's, or is taken over by the call that replaces it, or is given up. */
  lemma NamedIsAccounted(s: State, e: Event, k: Key)
    requires Inv(s) && Enabled(s, e) && Named(s.files, k)
    ensures var t := Apply(s, e); Named(t.files, k) || Held(t.calls, k) || k in Leaves(s, e)
  {
    var t := Apply(s, e);
    if !Named(t.files, k) {
      var c := e.call;
      if s.calls[c].previous == Some(k) {
        assert Spare(t.calls[c]) == Some(k);
      }
    }
  }

  lemma NewIsHeld(s: State, e: Event, k: Key)
    requires Enabled(s, e) && k in Apply(s, e).bucket && k !in s.bucket
    ensures Held(Apply(s, e).calls, k)
  {
    assert Spare(Apply(s, e).calls[e.call]) == Some(k);
  }

  lemma AccountedStep(s: State, e: Event, left: set<Key>)
    requires Inv(s) && Accounted(s, left) && Enabled(s, e)
    ensures Accounted(Apply(s, e), left + Leaves(s, e))
  {
    var t := Apply(s, e);
    forall k | k in t.bucket ensures Named(t.files, k) || Held(t.calls, k) || k in left + Leaves(s, e) {
      if k !in s.bucket {
        NewIsHeld(s, e, k);
      } else if Named(s.files, k) {
        NamedIsAccounted(s, e, k);
      } else if Held(s.calls, k) {
        HeldElsewhere(s, e, k);
        if !e.Lookup? && Spare(s.calls[e.call]) == Some(k) {
          OwnIsAccounted(s, e);
        }
      }
    }
  }

  // ---------------------------------------------------------------------
  // What is given up is named never again
  // ---------------------------------------------------------------------

  ghost predicate GivenUp(s: State, k: Key) {
    k in s.used && !Named(s.files, k) && forall c | c in s.calls :: OwnKey(s.calls[c]) != Some(k)
  }

  lemma GivenUpStaysSo(s: State, e: Event, k: Key)
    requires Inv(s) && Enabled(s, e) && GivenUp(s, k)
    ensures GivenUp(Apply(s, e), k)
  {
  }

  lemma LeavingGivesUp(s: State, e: Event, k: Key)
    requires Inv(s) && Enabled(s, e) && k in Leaves(s, e)
    ensures GivenUp(Apply(s, e), k)
  {
    assert CallOk(s, s.calls[e.call]);
    forall c | c in Apply(s, e).calls ensures OwnKey(Apply(s, e).calls[c]) != Some(k) {
      if c in s.calls {
        assert CallOk(s, s.calls[c]);
      }
    }
  }

  lemma {:induction false} LeftRun(s: State, es: seq<Event>, left: set<Key>)
    requires Inv(s) && Runs(s, es) && Accounted(s, left) && forall k | k in left :: GivenUp(s, k)
    ensures Accounted(Exec(s, es), left + LeftBehind(s, es))
    ensures forall k | k in left + LeftBehind(s, es) :: GivenUp(Exec(s, es), k)
    decreases |es|
  {
    if es != [] {
      var t := Apply(s, es[0]);
      var more := left + Leaves(s, es[0]);
      StepKeepsInv(s, es[0]);
      AccountedStep(s, es[0], left);
      forall k | k in more ensures GivenUp(t, k) {
        if k in left {
          GivenUpStaysSo(s, es[0], k);
        } else {
          LeavingGivesUp(s, es[0], k);
        }
      }
      LeftRun(t, es[1..], more);
      assert left + LeftBehind(s, es) == more + LeftBehind(t, es[1..]);
    } else {
      assert left + LeftBehind(s, es) == left;
    }
  }

  /**
   * However deposits overlap and wherever they fail: at every moment an object is named by a row, held by a call,
   * or was given up by a step; and what was given up is neither named nor about to be.
   */
  lemma EveryObjectIsAccountedFor(s: State, es: seq<Event>)
    requires Starts(s) && s.bucket == RowKeys(s.files) && Runs(s, es)
    ensures Accounted(Exec(s, es), LeftBehind(s, es))
    ensures forall k | k in LeftBehind(s, es) :: GivenUp(Exec(s, es), k)
  {
    forall k | k in s.bucket ensures Named(s.files, k) {
      NamedByRows(s, k);
    }
    LeftRun(s, es, {});
    assert {} + LeftBehind(s, es) == LeftBehind(s, es);
  }

  // ---------------------------------------------------------------------
  // What a later call erases after all
  // ---------------------------------------------------------------------

  /** The object a step erases because its call had found it in the row it replaced, the deletion being confirmed. */
  function Forgotten(s: State, e: Event): set<Key>
    requires Enabled(s, e)
  {
    if e.Forget? && e.deleted then {s.calls[e.call].former} else {}
  }

  function EverForgotten(s: State, es: seq<Event>): set<Key>
    requires Runs(s, es)
    decreases |es|
  {
    if es == [] then {} else Forgotten(s, es[0]) + EverForgotten(Apply(s, es[0]), es[1..])
  }

  /** The objects of the bucket that some step gives up and no later step erases. */
  function Abandoned(s: State, es: seq<Event>): set<Key>
    requires Runs(s, es)
    decreases |es|
  {
    if es == [] then {}
    else
      var t := Apply(s, es[0]);
      (Leaves(s, es[0]) * t.bucket - EverForgotten(t, es[1..])) + Abandoned(t, es[1..])
  }

  lemma GivenUpStep(s: State, e: Event, k: Key)
    requires Inv(s) && Enabled(s, e) && GivenUp(s, k)
    ensures k in Apply(s, e).bucket <==> k in s.bucket && k !in Forgotten(s, e)
  {
  }

  /** Nothing but a confirmed deletion by a call that had found it takes away what was given up, and nothing brings it back. */
  lemma {:induction false} GivenUpRun(s: State, es: seq<Event>, k: Key)
    requires Inv(s) && Runs(s, es) && GivenUp(s, k)
    ensures k in Exec(s, es).bucket <==> k in s.bucket && k !in EverForgotten(s, es)
    decreases |es|
  {
    if es != [] {
      StepKeepsInv(s, es[0]);
      GivenUpStep(s, es[0], k);
      GivenUpStaysSo(s, es[0], k);
      GivenUpRun(Apply(s, es[0]), es[1..], k);
    }
  }

  lemma {:induction false} AbandonedIsThere(s: State, es: seq<Event>)
    requires Inv(s) && Runs(s, es)
    ensures Abandoned(s, es) == LeftBehind(s, es) * Exec(s, es).bucket
    decreases |es|
  {
    if es != [] {
      var t := Apply(s, es[0]);
      StepKeepsInv(s, es[0]);
      AbandonedIsThere(t, es[1..]);
      forall k | k in Leaves(s, es[0]) ensures k in Exec(t, es[1..]).bucket <==> k in t.bucket && k !in EverForgotten(t, es[1..]) {
        LeavingGivesUp(s, es[0], k);
        GivenUpRun(t, es[1..], k);
      }
    }
  }

  /**
   * Once all calls have ended, the orphans are exactly the objects of the bucket that some step gave up and no
   * later call erased; so the bucket is what the rows name if and only if each was erased.
   */
  lemma OrphansAreWhatWasLeft(s: State, es: seq<Event>)
    requires Starts(s) && s.bucket == RowKeys(s.files) && Runs(s, es) && Exec(s, es).calls == map[]
    ensures var t := Exec(s, es);
            && RowKeys(t.files) <= t.bucket
            && t.bucket - RowKeys(t.files) == Abandoned(s, es)
            && (t.bucket == RowKeys(t.files) <==> Abandoned(s, es) == {})
  {
    var t := Exec(s, es);
    EveryObjectIsAccountedFor(s, es);
    RunKeepsInv(s, es);
    AbandonedIsThere(s, es);
    forall k ensures Named(t.files, k) <==> k in RowKeys(t.files) {
      NamedByRows(t, k);
    }
    forall k | k in t.bucket ensures k in RowKeys(t.files) <==> k !in LeftBehind(s, es) {
      assert !Held(t.calls, k);
      assert k in LeftBehind(s, es) ==> GivenUp(t, k);
    }
  }

  // ---------------------------------------------------------------------
  // Deposits that do not overlap on a piece leave nothing
  // ---------------------------------------------------------------------

  /** No deposit starts on a piece while another is at it, every deletion is confirmed, and the process lives. */
  predicate OneAtATime(s: State, es: seq<Event>)
    requires Runs(s, es)
    decreases |es|
  {
    es == [] || (Orderly(s, es[0]) && OneAtATime(Apply(s, es[0]), es[1..]))
  }

  predicate Orderly(s: State, e: Event) {
    match e
    case Lookup(_, request, item, accepted) =>
      Owns(s.items, request, item) && accepted ==> forall c | c in s.calls :: s.calls[c].item != item
    case Undo(_, deleted) => deleted
    case Forget(_, deleted) => deleted
    case Crash(_) => false
    case _ => true
  }

  /** Nothing has changed under the call since it looked. */
  predicate UpToDate(files: Files, call: Call) {
    match call
    case Found(_, item, previous) => previous == KeyOf(files, item)
    case Stored(_, item, previous, _) => previous == KeyOf(files, item)
    case Upserting(_, item, previous, _, sawRow) => previous == KeyOf(files, item) && (sawRow <==> item in files)
    case _ => true
  }

  ghost predicate AloneOnItsPiece(s: State) {
    && (forall c, d | c in s.calls && d in s.calls && s.calls[c].item == s.calls[d].item :: c == d)
    && (forall c | c in s.calls :: UpToDate(s.files, s.calls[c]))
  }

  lemma AloneStep(s: State, e: Event)
    requires AloneOnItsPiece(s) && Enabled(s, e) && Orderly(s, e)
    ensures AloneOnItsPiece(Apply(s, e)) && Leaves(s, e) == {}
  {
    if !e.Lookup? {
      assert UpToDate(s.files, s.calls[e.call]);
    }
  }

  lemma {:induction false} AloneLeavesNothing(s: State, es: seq<Event>)
    requires AloneOnItsPiece(s) && Runs(s, es) && OneAtATime(s, es)
    ensures LeftBehind(s, es) == {}
    decreases |es|
  {
    if es != [] {
      AloneStep(s, es[0]);
      AloneLeavesNothing(Apply(s, es[0]), es[1..]);
    }
  }

  /**
   * When no two deposits overlap on one piece, whatever happens on the others, the bucket's keys are exactly the
   * keys the rows name once all calls have ended, through refusals, failed puts, failed upserts and replacements.
   */
  lemma NothingLostNothingLeft(s: State, es: seq<Event>)
    requires Starts(s) && s.bucket == RowKeys(s.files)
    requires Runs(s, es) && OneAtATime(s, es) && Exec(s, es).calls == map[]
    ensures Exec(s, es).bucket == RowKeys(Exec(s, es).files)
  {
    AloneLeavesNothing(s, es);
    RunKeepsInv(s, es);
    AbandonedIsThere(s, es);
    OrphansAreWhatWasLeft(s, es);
  }

  // ---------------------------------------------------------------------
  // Two replacements at once
  // ---------------------------------------------------------------------

  /** Nothing fails: every put and every write goes through and every deletion is confirmed. */
  predicate Flawless(es: seq<Event>) {
    forall e | e in es :: e.Lookup? || e.Put? || e.UpsertRead? || e.UpsertWrite? || (e.Forget? && e.deleted)
  }

  ghost predicate EndsWithOrphan(s: State, es: seq<Event>, k: Key) {
    Runs(s, es) && Flawless(es) && Exec(s, es).calls == map[] && k in Exec(s, es).bucket && k !in RowKeys(Exec(s, es).files)
  }

  lemma Before(s: State, e: Event, es: seq<Event>, k: Key)
    requires Enabled(s, e) && Flawless([e]) && EndsWithOrphan(Apply(s, e), es, k)
    ensures EndsWithOrphan(s, [e] + es, k)
  {
    OneMore(s, e, es);
    assert [e][0] == e;
  }

  const K0: Key := Key(0, 0, 0)
  const K1: Key := Key(0, 0, 1)
  const K2: Key := Key(0, 0, 2)

  lemma BothReplace(s: State) returns (es: seq<Event>)
    requires s.files == map[0 := FileRow(K0, Complete)] && s.bucket == {K0, K1, K2}
    requires s.calls == map[1 := Upserting(0, 0, Some(K0), K1, true), 2 := Upserting(0, 0, Some(K0), K2, true)]
    ensures EndsWithOrphan(s, es, K1)
  {
    var s1 := Apply(s, UpsertWrite(1));
    assert s1.calls == map[1 := Forgetting(0, 0, K0), 2 := Upserting(0, 0, Some(K0), K2, true)];
    var s2 := Apply(s1, UpsertWrite(2));
    assert s2.calls == map[1 := Forgetting(0, 0, K0), 2 := Forgetting(0, 0, K0)];
    assert s2.files == map[0 := FileRow(K2, Complete)];
    var s3 := Apply(s2, Forget(1, true));
    assert s3.calls == map[2 := Forgetting(0, 0, K0)];
    var s4 := Apply(s3, Forget(2, true));
    assert forall i | i in s4.files :: s4.files[i].key == K2;
    assert s4.calls == map[] && K1 in s4.bucket && K1 !in RowKeys(s4.files);
    assert EndsWithOrphan(s4, [], K1);
    Before(s3, Forget(2, true), [], K1);
    Before(s2, Forget(1, true), [Forget(2, true)] + [], K1);
    es := [Forget(1, true)] + ([Forget(2, true)] + []);
    Before(s1, UpsertWrite(2), es, K1);
    Before(s, UpsertWrite(1), [UpsertWrite(2)] + es, K1);
    es := [UpsertWrite(1)] + ([UpsertWrite(2)] + es);
  }

  lemma UpToTheWrite(s: State, c: CallId, draw: nat, rest: seq<Event>, k: Key) returns (es: seq<Event>)
    requires c !in s.calls && Owns(s.items, 0, 0) && 0 in s.files && Key(0, 0, draw) !in s.used
    requires var key := Key(0, 0, draw);
             EndsWithOrphan(s.(bucket := s.bucket + {key}, used := s.used + {key},
                               calls := s.calls[c := Upserting(0, 0, Some(s.files[0].key), key, true)]), rest, k)
    ensures EndsWithOrphan(s, es, k)
  {
    var key := Key(0, 0, draw);
    var s1 := Become(s, c, Found(0, 0, Some(s.files[0].key)));
    var s2 := Become(s, c, Stored(0, 0, Some(s.files[0].key), key)).(bucket := s.bucket + {key}, used := s.used + {key});
    var s3 := Become(s2, c, Upserting(0, 0, Some(s.files[0].key), key, true));
    assert Apply(s, Lookup(c, 0, 0, true)) == s1;
    assert Apply(s1, Put(c, draw)) == s2;
    assert Apply(s2, UpsertRead(c)) == s3;
    assert s3.calls == s.calls[c := Upserting(0, 0, Some(s.files[0].key), key, true)];
    Before(s2, UpsertRead(c), rest, k);
    Before(s1, Put(c, draw), [UpsertRead(c)] + rest, k);
    Before(s, Lookup(c, 0, 0, true), [Put(c, draw)] + ([UpsertRead(c)] + rest), k);
    es := [Lookup(c, 0, 0, true)] + ([Put(c, draw)] + ([UpsertRead(c)] + rest));
  }

  /** Two replacements that both find the same object leave the first successor behind, though nothing fails. */
  lemma OverlappingReplacementsLeaveAnOrphan(s: State) returns (es: seq<Event>)
    requires s.items == map[0 := 0] && s.files == map[0 := FileRow(K0, Complete)] && s.calls == map[]
    requires s.bucket == {K0} && s.used == {K0} && s.recorded == {K0}
    ensures Starts(s) && EndsWithOrphan(s, es, K1)
  {
    var t := s.(bucket := s.bucket + {K1}, used := s.used + {K1}, calls := s.calls[1 := Upserting(0, 0, Some(K0), K1, true)]);
    var u := t.(bucket := t.bucket + {K2}, used := t.used + {K2}, calls := t.calls[2 := Upserting(0, 0, Some(K0), K2, true)]);
    assert u.calls == map[1 := Upserting(0, 0, Some(K0), K1, true), 2 := Upserting(0, 0, Some(K0), K2, true)];
    es := BothReplace(u);
    es := UpToTheWrite(t, 2, 2, es, K1);
    es := UpToTheWrite(s, 1, 1, es, K1);
  }
}
