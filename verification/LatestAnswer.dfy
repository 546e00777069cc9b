/**
 * The hook that loads one endpoint: calls overlap, answers arrive in any order, and a generation counter decides
 * which of them is written.
 */
module LatestAnswer {
  import opened Options

  type CallId = nat

  /** How an awaited load ends; what is thrown may be null. */
  datatype Outcome<T, E> = Loaded(result: T) | Failed(caught: Option<E>)

  datatype View<T, E> = View(data: Option<T>, error: Option<E>, loading: bool)

  /** An error leaves the data shown before it in place. */
  function Write<T, E>(view: View<T, E>, outcome: Outcome<T, E>): View<T, E> {
    match outcome
    case Loaded(result) => View(Some(result), None, false)
    case Failed(caught) => View(view.data, caught, false)
  }

  class Resource<T, E> {
    var generation: nat
    var data: Option<T>
    var error: Option<E>
    var loading: bool

    function Shown(): View<T, E>
      reads this
    {
      View(data, error, loading)
    }

    constructor ()
      ensures generation == 0 && Shown() == View(None, None, true)
    {
      generation, data, error, loading := 0, None, None, true;
    }

    /** `run` up to its `await`: `mine` stays with the call. */
    method Start() returns (mine: nat)
      modifies this
      ensures mine == generation == old(generation) + 1
      ensures Shown() == old(Shown()).(loading := true)
    {
      generation := generation + 1;
      mine := generation;
      loading := true;
    }

    /** `run` from its `await` on. */
    method Settle(mine: nat, outcome: Outcome<T, E>)
      modifies this
      ensures generation == old(generation)
      ensures Shown() == if mine == generation then Write(old(Shown()), outcome) else old(Shown())
    {
      if generation == mine {
        match outcome {
          case Loaded(result) =>
            data := Some(result);
            error := None;
          case Failed(caught) =>
            error := caught;
        }
        loading := false;
      }
    }

    /** On unmount, and before the effect runs again. */
    method Cleanup()
      modifies this
      ensures generation == old(generation) + 1 && Shown() == old(Shown())
    {
      generation := generation + 1;
    }
  }

  // ---------------------------------------------------------------------
  // Every interleaving
  // ---------------------------------------------------------------------

  datatype Event<T, E> = Start(call: CallId) | Answer(call: CallId, outcome: Outcome<T, E>) | Cleanup

  /** `inFlight` holds the `mine` of each call that has not answered. */
  datatype State<T, E> = State(generation: nat, view: View<T, E>, inFlight: map<CallId, nat>, started: set<CallId>)

  function Init<T, E>(): State<T, E> {
    State(0, View(None, None, true), map[], {})
  }

  predicate Enabled<T, E>(s: State<T, E>, e: Event<T, E>) {
    match e
    case Start(c) => c !in s.started
    case Answer(c, _) => c in s.inFlight
    case Cleanup => true
  }

  function Apply<T, E>(s: State<T, E>, e: Event<T, E>): State<T, E>
    requires Enabled(s, e)
  {
    match e
    case Start(c) =>
      var mine := s.generation + 1;
      State(mine, s.view.(loading := true), s.inFlight[c := mine], s.started + {c})
    case Answer(c, outcome) =>
      State(s.generation, if s.inFlight[c] == s.generation then Write(s.view, outcome) else s.view, s.inFlight - {c}, s.started)
    case Cleanup => s.(generation := s.generation + 1)
  }

  function Front<X>(es: seq<X>): seq<X>
    requires es != []
  {
    es[..|es| - 1]
  }

  function Last<X>(es: seq<X>): X
    requires es != []
  {
    es[|es| - 1]
  }

  predicate Runs<T, E>(es: seq<Event<T, E>>)
    decreases |es|, 0
  {
    es == [] || (Runs(Front(es)) && Enabled(Exec(Front(es)), Last(es)))
  }

  function Exec<T, E>(es: seq<Event<T, E>>): State<T, E>
    requires Runs(es)
    decreases |es|, 1
  {
    if es == [] then Init() else Apply(Exec(Front(es)), Last(es))
  }

  // ---------------------------------------------------------------------
  // The serial run
  // ---------------------------------------------------------------------

  function UnguardedStep<T, E>(view: View<T, E>, e: Event<T, E>): View<T, E> {
    match e
    case Start(_) => view.(loading := true)
    case Answer(_, outcome) => Write(view, outcome)
    case Cleanup => view
  }

  /** The hook without its counter: every answer is written. */
  function Unguarded<T, E>(es: seq<Event<T, E>>): View<T, E> {
    if es == [] then View(None, None, true) else UnguardedStep(Unguarded(Front(es)), Last(es))
  }

  /** Something newer began, or the effect was cleaned up, after `c` started. */
  ghost predicate Superseded<T, E>(es: seq<Event<T, E>>, c: CallId) {
    exists j, k :: 0 <= j < k < |es| && es[j].Start? && es[j].call == c && !es[k].Answer?
  }

  ghost predicate TooLate<T, E>(es: seq<Event<T, E>>, i: nat)
    requires i < |es|
  {
    es[i].Answer? && Superseded(es[..i], es[i].call)
  }

  ghost predicate Heard<T, E>(es: seq<Event<T, E>>, i: nat) {
    i < |es| && es[i].Answer? && !Superseded(es[..i], es[i].call)
  }

  /** The same run, in which superseded calls never answered. */
  ghost function WithoutLateAnswers<T, E>(es: seq<Event<T, E>>): seq<Event<T, E>> {
    if es == [] then []
    else WithoutLateAnswers(Front(es)) + if TooLate(es, |es| - 1) then [] else [Last(es)]
  }

  lemma {:induction false} StartedHasAStart<T, E>(es: seq<Event<T, E>>, c: CallId)
    requires Runs(es)
    ensures c in Exec(es).started <==> exists j :: 0 <= j < |es| && es[j].Start? && es[j].call == c
  {
    if es != [] {
      StartedHasAStart(Front(es), c);
      if c in Exec(Front(es)).started {
        var j :| 0 <= j < |Front(es)| && Front(es)[j].Start? && Front(es)[j].call == c;
        assert es[j].Start? && es[j].call == c;
      }
      if j :| 0 <= j < |es| && es[j].Start? && es[j].call == c {
        assert j < |es| - 1 ==> Front(es)[j].Start? && Front(es)[j].call == c;
      }
    }
  }

  lemma SupersededOneLater<T, E>(es: seq<Event<T, E>>, c: CallId)
    requires Runs(es) && es != []
    ensures Superseded(es, c) <==> Superseded(Front(es), c) || (c in Exec(Front(es)).started && !Last(es).Answer?)
  {
    StartedHasAStart(Front(es), c);
    if j, k :| 0 <= j < k < |es| && es[j].Start? && es[j].call == c && !es[k].Answer? {
      assert Front(es)[j] == es[j];
      assert k < |es| - 1 ==> Front(es)[k] == es[k];
    }
    if j, k :| 0 <= j < k < |Front(es)| && Front(es)[j].Start? && Front(es)[j].call == c && !Front(es)[k].Answer? {
      assert es[j].Start? && es[j].call == c && !es[k].Answer?;
    }
    if !Last(es).Answer? {
      if j :| 0 <= j < |Front(es)| && Front(es)[j].Start? && Front(es)[j].call == c {
        assert es[j].Start? && es[j].call == c && !es[|es| - 1].Answer?;
      }
    }
  }

  /** A call in flight holds the current generation exactly when nothing superseded it. */
  lemma {:induction false} CounterTellsTheNewest<T, E>(es: seq<Event<T, E>>, c: CallId)
    requires Runs(es) && c in Exec(es).inFlight
    ensures c in Exec(es).started
    ensures Exec(es).inFlight[c] <= Exec(es).generation
    ensures Exec(es).inFlight[c] == Exec(es).generation <==> !Superseded(es, c)
  {
    SupersededOneLater(es, c);
    if c in Exec(Front(es)).inFlight {
      CounterTellsTheNewest(Front(es), c);
    } else {
      NeverStarted(Front(es), c);
    }
  }

  lemma NeverStarted<T, E>(es: seq<Event<T, E>>, c: CallId)
    requires Runs(es) && c !in Exec(es).started
    ensures !Superseded(es, c)
  {
    StartedHasAStart(es, c);
  }

  /** What is written, and what is dropped, without a word about the counter. */
  lemma AnswerIsWrittenIffHeard<T, E>(es: seq<Event<T, E>>)
    requires Runs(es) && es != [] && Last(es).Answer?
    ensures Exec(es).view == if Heard(es, |es| - 1) then Write(Exec(Front(es)).view, Last(es).outcome) else Exec(Front(es)).view
  {
    CounterTellsTheNewest(Front(es), Last(es).call);
  }

  ghost predicate NobodyIsLate<T, E>(es: seq<Event<T, E>>) {
    forall i | 0 <= i < |es| :: !TooLate(es, i)
  }

  lemma SnocStaysPrompt<T, E>(es: seq<Event<T, E>>, e: Event<T, E>)
    requires NobodyIsLate(es) && (e.Answer? ==> !Superseded(es, e.call))
    ensures NobodyIsLate(es + [e])
  {
    var all := es + [e];
    forall i | 0 <= i < |all| ensures !TooLate(all, i) {
      assert all[..i] == es[..i];
      assert i < |es| ==> !TooLate(es, i);
      assert es[..|es|] == es;
    }
  }

  /** `serial` reached what `es` reached, but for calls it still waits for. */
  ghost predicate Follows<T, E>(serial: seq<Event<T, E>>, es: seq<Event<T, E>>)
    requires Runs(es)
  {
    && Runs(serial)
    && Exec(serial).view == Exec(es).view == Unguarded(serial)
    && Exec(serial).generation == Exec(es).generation
    && Exec(serial).started == Exec(es).started
    && forall c | c in Exec(es).inFlight :: c in Exec(serial).inFlight && Exec(serial).inFlight[c] == Exec(es).inFlight[c]
  }

  lemma Snoc<T, E>(es: seq<Event<T, E>>, e: Event<T, E>)
    requires Runs(es) && Enabled(Exec(es), e)
    ensures Runs(es + [e]) && Exec(es + [e]) == Apply(Exec(es), e)
  {
    assert Front(es + [e]) == es;
  }

  lemma UnguardedSnoc<T, E>(es: seq<Event<T, E>>, e: Event<T, E>)
    ensures Unguarded(es + [e]) == UnguardedStep(Unguarded(es), e)
  {
    assert Front(es + [e]) == es;
  }

  lemma KeptStepFollows<T, E>(before: seq<Event<T, E>>, es: seq<Event<T, E>>)
    requires Runs(es) && es != [] && Follows(before, Front(es))
    requires Last(es).Answer? ==> Exec(Front(es)).inFlight[Last(es).call] == Exec(Front(es)).generation
    ensures Follows(before + [Last(es)], es)
  {
    Snoc(before, Last(es));
    UnguardedSnoc(before, Last(es));
  }

  lemma {:induction false} SerialRunFollows<T, E>(es: seq<Event<T, E>>)
    requires Runs(es)
    ensures Follows(WithoutLateAnswers(es), es) && NobodyIsLate(WithoutLateAnswers(es))
  {
    if es != [] {
      var before := WithoutLateAnswers(Front(es));
      SerialRunFollows(Front(es));
      var e := Last(es);
      assert es[..|es| - 1] == Front(es);
      if e.Answer? {
        AnswerIsWrittenIffHeard(es);
        CounterTellsTheNewest(Front(es), e.call);
        CounterTellsTheNewest(before, e.call);
      }
      if TooLate(es, |es| - 1) {
        assert WithoutLateAnswers(es) == before;
      } else {
        assert WithoutLateAnswers(es) == before + [e];
        KeptStepFollows(before, es);
        SnocStaysPrompt(before, e);
      }
    }
  }

  /**
   * Whatever the interleaving, data, error and loading are those of the hook without a counter, in the run where
   * superseded calls never answered; that run is possible too, and nobody in it is late.
   */
  lemma SameAsSerial<T, E>(es: seq<Event<T, E>>)
    requires Runs(es)
    ensures Exec(es).view == Unguarded(WithoutLateAnswers(es))
    ensures Runs(WithoutLateAnswers(es)) && NobodyIsLate(WithoutLateAnswers(es))
  {
    SerialRunFollows(es);
  }

  // ---------------------------------------------------------------------
  // What is shown, in closed form
  // ---------------------------------------------------------------------

  lemma HeardBefore<T, E>(es: seq<Event<T, E>>, i: nat)
    requires es != []
    ensures i < |es| - 1 ==> (Heard(es, i) <==> Heard(Front(es), i)) && es[i] == Front(es)[i]
  {
    if i < |es| - 1 {
      assert es[..i] == Front(es)[..i];
    }
  }

  ghost predicate HeardSinceLastStart<T, E>(es: seq<Event<T, E>>, i: nat) {
    Heard(es, i) && forall k | i < k < |es| :: !es[k].Start?
  }

  /** Not loading: an answer was heard, and nothing has started since. */
  lemma {:induction false} LoadingUntilHeard<T, E>(es: seq<Event<T, E>>)
    requires Runs(es)
    ensures !Exec(es).view.loading <==> exists i :: HeardSinceLastStart(es, i)
  {
    if es != [] {
      LoadingUntilHeard(Front(es));
      var n := |es| - 1;
      if Last(es).Answer? {
        AnswerIsWrittenIffHeard(es);
        assert Heard(es, n) ==> HeardSinceLastStart(es, n);
      }
      if i: nat :| HeardSinceLastStart(Front(es), i) && !Last(es).Start? {
        HeardBefore(es, i);
        assert HeardSinceLastStart(es, i);
      }
      if i: nat :| HeardSinceLastStart(es, i) && i < n {
        HeardBefore(es, i);
        assert forall k | i < k < n :: Front(es)[k] == es[k];
        assert HeardSinceLastStart(Front(es), i);
        assert !es[n].Start?;
      }
    }
  }

  ghost predicate LastHeard<T, E>(es: seq<Event<T, E>>, i: nat) {
    Heard(es, i) && forall k: nat | Heard(es, k) :: k <= i
  }

  ghost predicate LastLoaded<T, E>(es: seq<Event<T, E>>, i: nat) {
    Heard(es, i) && es[i].outcome.Loaded? && forall k: nat | Heard(es, k) && es[k].outcome.Loaded? :: k <= i
  }

  /** The error shown is the one of the last answer heard: none if it was a success. */
  lemma {:induction false} ErrorIsOfTheLastHeard<T, E>(es: seq<Event<T, E>>, i: nat)
    requires Runs(es) && LastHeard(es, i)
    ensures Exec(es).view.error == match es[i].outcome { case Loaded(_) => None case Failed(caught) => caught }
  {
    var n := |es| - 1;
    if Last(es).Answer? {
      AnswerIsWrittenIffHeard(es);
    }
    if i < n {
      HeardBefore(es, i);
      assert !Heard(es, n);
      forall k: nat | Heard(Front(es), k) ensures k <= i {
        HeardBefore(es, k);
      }
      ErrorIsOfTheLastHeard(Front(es), i);
    }
  }

  /** The data shown is the result of the last success heard, through any failures since. */
  lemma {:induction false} DataIsOfTheLastLoaded<T, E>(es: seq<Event<T, E>>, i: nat)
    requires Runs(es) && LastLoaded(es, i)
    ensures Exec(es).view.data == Some(es[i].outcome.result)
  {
    var n := |es| - 1;
    if Last(es).Answer? {
      AnswerIsWrittenIffHeard(es);
    }
    if i < n {
      HeardBefore(es, i);
      assert Heard(es, n) ==> es[n].outcome.Failed?;
      forall k: nat | Heard(Front(es), k) && Front(es)[k].outcome.Loaded? ensures k <= i {
        HeardBefore(es, k);
      }
      DataIsOfTheLastLoaded(Front(es), i);
    }
  }

  /** With nothing heard, nothing is shown. */
  lemma {:induction false} NothingShownBeforeAnAnswer<T, E>(es: seq<Event<T, E>>)
    requires Runs(es)
    ensures Exec(es).view.data.Some? ==> exists i: nat :: Heard(es, i) && es[i].outcome.Loaded?
    ensures Exec(es).view.error.Some? ==> exists i: nat :: Heard(es, i) && es[i].outcome.Failed?
  {
    if es != [] {
      NothingShownBeforeAnAnswer(Front(es));
      if i: nat :| Heard(Front(es), i) && Front(es)[i].outcome.Loaded? {
        HeardBefore(es, i);
        assert Heard(es, i) && es[i].outcome.Loaded?;
      }
      if i: nat :| Heard(Front(es), i) && Front(es)[i].outcome.Failed? {
        HeardBefore(es, i);
        assert Heard(es, i) && es[i].outcome.Failed?;
      }
      if Last(es).Answer? {
        AnswerIsWrittenIffHeard(es);
        assert Heard(es, |es| - 1) ==> es[|es| - 1].outcome.Loaded? || es[|es| - 1].outcome.Failed?;
      }
    }
  }

  // ---------------------------------------------------------------------
  // The newest call
  // ---------------------------------------------------------------------

  /** `l` is the last start, and nothing but answers follows it. */
  ghost predicate NewestSince<T, E>(es: seq<Event<T, E>>, l: nat) {
    l < |es| && es[l].Start? && forall k | l < k < |es| :: es[k].Answer?
  }

  lemma {:induction false} OthersAreDropped<T, E>(es: seq<Event<T, E>>, l: nat)
    requires Runs(es) && NewestSince(es, l)
    requires forall k | l < k < |es| :: es[k].call != es[l].call
    ensures Runs(es[..l]) && Exec(es).view == Exec(es[..l]).view.(loading := true)
    ensures es[l].call in Exec(es).inFlight
  {
    if l == |es| - 1 {
      assert es[..l] == Front(es);
    } else {
      var c := Last(es).call;
      assert Front(es)[..l] == es[..l];
      OthersAreDropped(Front(es), l);
      AnswerIsWrittenIffHeard(es);
      CounterTellsTheNewest(Front(es), c);
      CounterTellsTheNewest(Front(es), es[l].call);
      StartedHasAStart(Front(es), c);
      var j :| 0 <= j < |Front(es)| && Front(es)[j].Start? && Front(es)[j].call == c;
      assert j < l && Front(es)[l].Start?;
    }
  }

  lemma {:induction false} AnsweredIsOver<T, E>(es: seq<Event<T, E>>, c: CallId, a: nat)
    requires Runs(es) && a < |es| && es[a].Answer? && es[a].call == c
    ensures c in Exec(es).started && c !in Exec(es).inFlight
  {
    if a < |es| - 1 {
      AnsweredIsOver(Front(es), c, a);
    } else {
      CounterTellsTheNewest(Front(es), c);
    }
  }

  /** Once the newest call has answered, its answer is what is shown, whoever else answers before or after it. */
  lemma {:induction false} NewestWins<T, E>(es: seq<Event<T, E>>, l: nat, a: nat)
    requires Runs(es) && NewestSince(es, l) && l < a < |es| && es[a].call == es[l].call
    ensures Runs(es[..l]) && Exec(es).view == Write(Exec(es[..l]).view, es[a].outcome)
  {
    assert Front(es)[..l] == es[..l];
    if a < |es| - 1 {
      NewestWins(Front(es), l, a);
      var c := Last(es).call;
      AnsweredIsOver(Front(es), es[l].call, a);
      AnswerIsWrittenIffHeard(es);
      StartedHasAStart(Front(es), c);
      CounterTellsTheNewest(Front(es), c);
      var j :| 0 <= j < |Front(es)| && Front(es)[j].Start? && Front(es)[j].call == c;
      assert j < l && Front(es)[l].Start?;
    } else {
      forall k | l < k < |Front(es)| ensures Front(es)[k].call != es[l].call {
        if Front(es)[k].call == es[l].call {
          AnsweredIsOver(Front(es), es[l].call, k);
        }
      }
      OthersAreDropped(Front(es), l);
      AnswerIsWrittenIffHeard(es);
      CounterTellsTheNewest(Front(es), es[l].call);
      NewestIsNotSuperseded(Front(es), l);
    }
  }

  lemma {:induction false} StartsOnce<T, E>(es: seq<Event<T, E>>, i: nat, j: nat)
    requires Runs(es) && i < j < |es| && es[i].Start? && es[j].Start?
    ensures es[i].call != es[j].call
  {
    if j == |es| - 1 {
      StartedHasAStart(Front(es), es[i].call);
      assert Front(es)[i] == es[i];
    } else {
      StartsOnce(Front(es), i, j);
    }
  }

  lemma NewestIsNotSuperseded<T, E>(es: seq<Event<T, E>>, l: nat)
    requires Runs(es) && NewestSince(es, l)
    ensures !Superseded(es, es[l].call)
  {
    if j, k :| 0 <= j < k < |es| && es[j].Start? && es[j].call == es[l].call && !es[k].Answer? {
      assert k <= l;
      StartsOnce(es, j, l);
    }
  }
}
