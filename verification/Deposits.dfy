/**
 * A deposit writes to two stores with no transaction across them: an object in the bucket, then a row that
 * names it, then the object the row used to name is erased. Any step may fail, and any number of deposits
 * may be between any two steps.
 *
 * A key is the request and the piece it is built for and the random draw that makes it fresh; how it is
 * spelled is the business of `StorageKeys`. A failed put has written nothing, a failed upsert no row.
 */
module Deposits {
  import opened Options

  type Id = nat
  type CallId = nat

  datatype Key = Key(request: Id, item: Id, draw: nat)

  datatype Status = Pending | Complete | Failed

  datatype FileRow = FileRow(key: Key, status: Status)

  type Files = map<Id, FileRow>

  /** A deposit in flight, at its current `await`. */
  datatype Call =
    | Found(request: Id, item: Id, previous: Option<Key>)                               // the piece is the caller's, the bytes are accepted
    | Stored(request: Id, item: Id, previous: Option<Key>, key: Key)                    // the object is in the bucket
    | Upserting(request: Id, item: Id, previous: Option<Key>, key: Key, sawRow: bool)   // the read half of the upsert is done
    | Undoing(request: Id, item: Id, key: Key, conflict: bool)                          // no row will ever name the object
    | Counting(request: Id, item: Id)                                                   // the first file of a piece is recorded
    | Forgetting(request: Id, item: Id, former: Key)                                    // a file was replaced

  /**
   * `items` says which request a piece belongs to. `counted` holds one element for each time a request was
   * counted as completed. `used` and `recorded` are history: keys ever built, keys ever named by a row.
   */
  datatype State = State(
    items: map<Id, Id>,
    bucket: set<Key>,
    files: Files,
    counted: multiset<Id>,
    calls: map<CallId, Call>,
    used: set<Key>,
    recorded: set<Key>)

  datatype Event =
    | Lookup(call: CallId, request: Id, item: Id, accepted: bool)
    | Put(call: CallId, draw: nat)
    | PutFails(call: CallId)
    | UpsertRead(call: CallId)
    | UpsertWrite(call: CallId)
    | UpsertFails(call: CallId)
    | Undo(call: CallId, deleted: bool)
    | Count(call: CallId)
    | CountFails(call: CallId)
    | Forget(call: CallId, deleted: bool)
    | Crash(call: CallId)

  predicate Owns(items: map<Id, Id>, request: Id, item: Id) {
    item in items && items[item] == request
  }

  /** What `isReceived` means to both the count and the dashboard. */
  predicate IsReceived(files: Files, item: Id) {
    item in files && files[item].status == Complete
  }

  predicate AllReceived(items: map<Id, Id>, files: Files, request: Id) {
    forall i | i in items && items[i] == request :: IsReceived(files, i)
  }

  function KeyOf(files: Files, item: Id): Option<Key> {
    if item in files then Some(files[item].key) else None
  }

  predicate Enabled(s: State, e: Event) {
    match e
    case Lookup(c, _, _, _) => c !in s.calls
    case Put(c, draw) =>
      c in s.calls && s.calls[c].Found? && Key(s.calls[c].request, s.calls[c].item, draw) !in s.used
    case PutFails(c) => c in s.calls && s.calls[c].Found?
    case UpsertRead(c) => c in s.calls && s.calls[c].Stored?
    case UpsertWrite(c) => c in s.calls && s.calls[c].Upserting?
    case UpsertFails(c) => c in s.calls && (s.calls[c].Stored? || s.calls[c].Upserting?)
    case Undo(c, _) => c in s.calls && s.calls[c].Undoing?
    case Count(c) => c in s.calls && s.calls[c].Counting?
    case CountFails(c) => c in s.calls && s.calls[c].Counting?
    case Forget(c, _) => c in s.calls && s.calls[c].Forgetting?
    case Crash(c) => c in s.calls
  }

  function Finish(s: State, c: CallId): State {
    s.(calls := s.calls - {c})
  }

  function Become(s: State, c: CallId, call: Call): State {
    s.(calls := s.calls[c := call])
  }

  /** An insert meets the unique index, an update its row: either may refuse what was read before. */
  predicate WriteGoesThrough(files: Files, item: Id, sawRow: bool) {
    sawRow <==> item in files
  }

  function ApplyWrite(s: State, c: CallId): State
    requires c in s.calls && s.calls[c].Upserting?
  {
    var Upserting(request, item, previous, key, sawRow) := s.calls[c];
    if !WriteGoesThrough(s.files, item, sawRow) then
      Become(s, c, Undoing(request, item, key, !sawRow))
    else
      var recorded := s.(files := s.files[item := FileRow(key, Complete)], recorded := s.recorded + {key});
      match previous
      case None => Become(recorded, c, Counting(request, item))
      case Some(former) => Become(recorded, c, Forgetting(request, item, former))
  }

  function Apply(s: State, e: Event): State
    requires Enabled(s, e)
  {
    match e
    case Lookup(c, request, item, accepted) =>
      if Owns(s.items, request, item) && accepted
      then Become(s, c, Found(request, item, KeyOf(s.files, item))) else s
    case Put(c, draw) =>
      var Found(request, item, previous) := s.calls[c];
      var key := Key(request, item, draw);
      Become(s, c, Stored(request, item, previous, key)).(bucket := s.bucket + {key}, used := s.used + {key})
    case PutFails(c) => Finish(s, c)
    case UpsertRead(c) =>
      var Stored(request, item, previous, key) := s.calls[c];
      Become(s, c, Upserting(request, item, previous, key, item in s.files))
    case UpsertWrite(c) => ApplyWrite(s, c)
    case UpsertFails(c) => Become(s, c, Undoing(s.calls[c].request, s.calls[c].item, s.calls[c].key, false))
    case Undo(c, deleted) => Finish(s, c).(bucket := if deleted then s.bucket - {s.calls[c].key} else s.bucket)
    case Count(c) =>
      var r := s.calls[c].request;
      Finish(s, c).(counted := if AllReceived(s.items, s.files, r) then s.counted + multiset{r} else s.counted)
    case CountFails(c) => Finish(s, c)
    case Forget(c, deleted) => Finish(s, c).(bucket := if deleted then s.bucket - {s.calls[c].former} else s.bucket)
    case Crash(c) => Finish(s, c)
  }

  datatype Reply = Accepted | NotFound | UnsupportedType | PutError | Conflict | UpsertError

  /** What the step answers to the depositor, if it is the last of its call; a call whose process dies answers nothing. */
  function Answer(s: State, e: Event): Option<Reply>
    requires Enabled(s, e)
  {
    match e
    case Lookup(_, request, item, accepted) =>
      if !Owns(s.items, request, item) then Some(NotFound) else if !accepted then Some(UnsupportedType) else None
    case PutFails(_) => Some(PutError)
    case Undo(c, _) => Some(if s.calls[c].conflict then Conflict else UpsertError)
    case Count(_) => Some(Accepted)
    case CountFails(_) => Some(Accepted)
    case Forget(_, _) => Some(Accepted)
    case _ => None
  }

  predicate Runs(s: State, es: seq<Event>)
    decreases |es|
  {
    es == [] || (Enabled(s, es[0]) && Runs(Apply(s, es[0]), es[1..]))
  }

  function Exec(s: State, es: seq<Event>): State
    requires Runs(s, es)
    decreases |es|
  {
    if es == [] then s else Exec(Apply(s, es[0]), es[1..])
  }

  function AsList(o: Option<Reply>): seq<Reply> {
    match o
    case None => []
    case Some(reply) => [reply]
  }

  /** Everything a run answers, in order. */
  function Answers(s: State, es: seq<Event>): seq<Reply>
    requires Runs(s, es)
    decreases |es|
  {
    if es == [] then [] else AsList(Answer(s, es[0])) + Answers(Apply(s, es[0]), es[1..])
  }

  // ---------------------------------------------------------------------
  // The invariant
  // ---------------------------------------------------------------------

  /** Every file row names an object that is there. */
  predicate RowsNameObjects(s: State) {
    forall i | i in s.files :: s.files[i].key in s.bucket
  }

  ghost predicate FilesOk(s: State) {
    forall i | i in s.files ::
      s.files[i].key.item == i && Owns(s.items, s.files[i].key.request, i) && s.files[i].key in s.recorded
  }

  function OwnKey(call: Call): Option<Key> {
    match call
    case Stored(_, _, _, key) => Some(key)
    case Upserting(_, _, _, key, _) => Some(key)
    case Undoing(_, _, key, _) => Some(key)
    case _ => None
  }

  /** What a call knew to be the row's key when it looked: still recorded, and its piece still has a row. */
  ghost predicate WasKey(files: Files, recorded: set<Key>, item: Id, previous: Option<Key>) {
    previous.Some? ==> item in files && previous.value in recorded && previous.value.item == item
  }

  ghost predicate CallOk(s: State, call: Call) {
    && Owns(s.items, call.request, call.item)
    && (OwnKey(call).Some? ==>
          var key := OwnKey(call).value; key in s.used && key !in s.recorded && key.request == call.request && key.item == call.item)
    && match call
       case Found(_, item, previous) => WasKey(s.files, s.recorded, item, previous)
       case Stored(_, item, previous, key) => WasKey(s.files, s.recorded, item, previous) && key in s.bucket
       case Upserting(_, item, previous, key, sawRow) =>
         WasKey(s.files, s.recorded, item, previous) && key in s.bucket && (sawRow ==> item in s.files)
       case Undoing(_, item, _, conflict) => conflict ==> item in s.files
       case Counting(_, item) => item in s.files
       case Forgetting(_, item, former) =>
         item in s.files && former in s.recorded && former.item == item && s.files[item].key != former
  }

  ghost predicate OwnKeysDiffer(s: State) {
    forall c, d | c in s.calls && d in s.calls && c != d && OwnKey(s.calls[c]).Some? :: OwnKey(s.calls[c]) != OwnKey(s.calls[d])
  }

  ghost predicate Inv(s: State) {
    && RowsNameObjects(s)
    && FilesOk(s)
    && s.recorded <= s.used && s.bucket <= s.used
    && (forall k | k in s.bucket :: Owns(s.items, k.request, k.item))
    && (forall c | c in s.calls :: CallOk(s, s.calls[c]))
    && OwnKeysDiffer(s)
  }

  /** Where a run may start: nobody is depositing, and what is there is consistent. */
  ghost predicate Starts(s: State) {
    && s.calls == map[] && RowsNameObjects(s) && FilesOk(s)
    && s.recorded <= s.used && s.bucket <= s.used
    && forall k | k in s.bucket :: Owns(s.items, k.request, k.item)
  }
}
