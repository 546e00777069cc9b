/** What every step of overlapping deposits keeps. */
module DepositProofs {
  import opened Options
  import opened Deposits

  // ---------------------------------------------------------------------
  // One step of any interleaving
  // ---------------------------------------------------------------------

  lemma OneMore(s: State, e: Event, es: seq<Event>)
    requires Enabled(s, e) && Runs(Apply(s, e), es)
    ensures Runs(s, [e] + es) && Exec(s, [e] + es) == Exec(Apply(s, e), es)
    ensures Answers(s, [e] + es) == AsList(Answer(s, e)) + Answers(Apply(s, e), es)
  {
    assert ([e] + es)[1..] == es;
  }

  lemma CallsFrame(s: State, t: State, c: CallId)
    requires c in s.calls && CallOk(s, s.calls[c])
    requires t.items == s.items && s.used <= t.used && s.recorded <= t.recorded
    requires forall i | i in s.files :: i in t.files && (t.files[i] == s.files[i] || t.files[i].key !in s.recorded)
    requires OwnKey(s.calls[c]).Some? ==>
               OwnKey(s.calls[c]).value !in t.recorded && (OwnKey(s.calls[c]).value in s.bucket ==> OwnKey(s.calls[c]).value in t.bucket)
    ensures CallOk(t, s.calls[c])
  {
  }

  lemma LookupKeepsInv(s: State, c: CallId, request: Id, item: Id, accepted: bool)
    requires Inv(s) && c !in s.calls
    ensures Inv(Apply(s, Lookup(c, request, item, accepted)))
  {
    var t := Apply(s, Lookup(c, request, item, accepted));
    forall d | d in t.calls ensures CallOk(t, t.calls[d]) {
      if d in s.calls {
        assert CallOk(s, s.calls[d]);
        CallsFrame(s, t, d);
      }
    }
  }

  /** Steps that end a call, or move it on, without writing anywhere. */
  lemma QuietKeepsInv(s: State, e: Event)
    requires Inv(s) && Enabled(s, e)
    requires e.PutFails? || e.UpsertRead? || e.UpsertFails? || e.Count? || e.CountFails? || e.Crash?
    ensures Inv(Apply(s, e))
  {
    var t := Apply(s, e);
    forall d | d in t.calls ensures CallOk(t, t.calls[d]) {
      assert CallOk(s, s.calls[d]);
      if d != e.call {
        CallsFrame(s, t, d);
      }
    }
  }

  lemma PutKeepsInv(s: State, c: CallId, draw: nat)
    requires Inv(s) && Enabled(s, Put(c, draw))
    ensures Inv(Apply(s, Put(c, draw)))
  {
    var t := Apply(s, Put(c, draw));
    forall d | d in t.calls ensures CallOk(t, t.calls[d]) {
      assert CallOk(s, s.calls[d]);
      if d != c {
        CallsFrame(s, t, d);
      }
    }
  }

  /** Recorded once and never rewritten: the key a row takes is new to every row, now and before. */
  lemma WriteKeepsInv(s: State, c: CallId)
    requires Inv(s) && Enabled(s, UpsertWrite(c))
    ensures Inv(Apply(s, UpsertWrite(c)))
  {
    var t := Apply(s, UpsertWrite(c));
    assert CallOk(s, s.calls[c]);
    forall d | d in t.calls ensures CallOk(t, t.calls[d]) {
      assert CallOk(s, s.calls[d]);
      if d != c {
        CallsFrame(s, t, d);
      }
    }
  }

  /** The object erased is one that no row names and that no call is about to record. */
  lemma ErasureKeepsInv(s: State, e: Event)
    requires Inv(s) && Enabled(s, e) && (e.Undo? || e.Forget?)
    ensures Inv(Apply(s, e))
  {
    var t := Apply(s, e);
    var c := e.call;
    assert CallOk(s, s.calls[c]);
    var erased := if e.Undo? then s.calls[c].key else s.calls[c].former;
    forall i | i in s.files ensures s.files[i].key != erased {
    }
    forall d | d in t.calls ensures CallOk(t, t.calls[d]) {
      assert CallOk(s, s.calls[d]);
      CallsFrame(s, t, d);
    }
  }

  lemma StepKeepsInv(s: State, e: Event)
    requires Inv(s) && Enabled(s, e)
    ensures Inv(Apply(s, e))
  {
    match e
    case Lookup(c, request, item, accepted) => LookupKeepsInv(s, c, request, item, accepted);
    case Put(c, draw) => PutKeepsInv(s, c, draw);
    case UpsertWrite(c) => WriteKeepsInv(s, c);
    case Undo(_, _) => ErasureKeepsInv(s, e);
    case Forget(_, _) => ErasureKeepsInv(s, e);
    case _ => QuietKeepsInv(s, e);
  }

  lemma {:induction false} RunKeepsInv(s: State, es: seq<Event>)
    requires Inv(s) && Runs(s, es)
    ensures Inv(Exec(s, es))
    decreases |es|
  {
    if es != [] {
      StepKeepsInv(s, es[0]);
      RunKeepsInv(Apply(s, es[0]), es[1..]);
    }
  }

  /** However deposits overlap and wherever they fail, every file row at every moment names an object that is there. */
  lemma EveryRowNamesAnObject(s: State, es: seq<Event>)
    requires Starts(s) && Runs(s, es)
    ensures RowsNameObjects(Exec(s, es))
  {
    RunKeepsInv(s, es);
  }

  /** In every interleaving a conflict is answered only where the piece has a file: somebody was faster. */
  lemma ConflictMeansAFile(s: State, es: seq<Event>, e: Event)
    requires Starts(s) && Runs(s, es) && Enabled(Exec(s, es), e) && Answer(Exec(s, es), e) == Some(Conflict)
    ensures e.Undo? && Exec(s, es).calls[e.call].item in Exec(s, es).files
  {
    RunKeepsInv(s, es);
    assert CallOk(Exec(s, es), Exec(s, es).calls[e.call]);
  }

  /**
   * In every interleaving a write goes through unless it would insert where another deposit has since inserted;
   * then the depositor is answered a conflict.
   */
  lemma OnlyLateInsertsAreRefused(s: State, es: seq<Event>, c: CallId, deleted: bool)
    requires Starts(s) && Runs(s, es) && Enabled(Exec(s, es), UpsertWrite(c))
    ensures var t := Exec(s, es); var u := Apply(t, UpsertWrite(c));
            if t.calls[c].item in t.files && !t.calls[c].sawRow then
              u.files == t.files && Enabled(u, Undo(c, deleted)) && Answer(u, Undo(c, deleted)) == Some(Conflict)
            else
              u.files == t.files[t.calls[c].item := FileRow(t.calls[c].key, Complete)]
  {
    RunKeepsInv(s, es);
    assert CallOk(Exec(s, es), Exec(s, es).calls[c]);
  }

  /** An upsert that fails of itself is no conflict. */
  lemma FailedUpsertsAreNoConflict(s: State, c: CallId, deleted: bool)
    requires Enabled(s, UpsertFails(c))
    ensures var u := Apply(s, UpsertFails(c)); u.files == s.files && Enabled(u, Undo(c, deleted)) && Answer(u, Undo(c, deleted)) == Some(UpsertError)
  {
  }

  /** What fails, reads or dies writes to neither store and counts nothing, and touches no call but its own. */
  lemma QuietStepsWriteNothing(s: State, e: Event)
    requires Enabled(s, e) && (e.Lookup? || e.PutFails? || e.UpsertRead? || e.UpsertFails? || e.CountFails? || e.Crash?)
    ensures var t := Apply(s, e);
            && t.bucket == s.bucket && t.files == s.files && t.counted == s.counted && t.items == s.items
            && forall c | c != e.call :: (c in t.calls <==> c in s.calls) && (c in s.calls ==> t.calls[c] == s.calls[c])
    ensures e.PutFails? || e.CountFails? || e.Crash? ==> e.call !in Apply(s, e).calls
  {
  }
}
