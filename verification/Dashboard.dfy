/** What the lawyer's dashboard shows of a request, and how it agrees with what its links let in. */
module Dashboard {
  import opened Options
  import opened PublicLinks
  import opened PublicLinkProofs
  import Deposits

  /** The source's pending, complete and expired. */
  datatype RequestStatus = Waiting | Done | PastDeadline

  datatype LinkState = ActiveLink | RevokedLink

  datatype Summary = Summary(status: RequestStatus, expectedCount: nat, receivedCount: nat, state: LinkState, expiresAt: int)

  // ---------------------------------------------------------------------
  // Views
  // ---------------------------------------------------------------------

  predicate IsReceived(file: Option<Deposits.Status>) {
    file == Some(Deposits.Complete)
  }

  function CountReceived(files: seq<Option<Deposits.Status>>): nat {
    if files == [] then 0
    else (if IsReceived(files[0]) then 1 else 0) + CountReceived(files[1..])
  }

  function DeriveStatus(expiresAt: int, expected: nat, received: nat, now: int): RequestStatus {
    if expected > 0 && received >= expected then Done
    else if IsExpired(expiresAt, now) then PastDeadline
    else Waiting
  }

  /** Built from the link the query put first, whichever request it is of. */
  function ToSummary(latest: Link, files: seq<Option<Deposits.Status>>, now: int): Summary {
    Summary(
      DeriveStatus(latest.expiresAt, |files|, CountReceived(files), now),
      |files|,
      CountReceived(files),
      if latest.revokedAt.None? then ActiveLink else RevokedLink,
      latest.expiresAt)
  }

  /** LAST_LINK's order: revokedAt descending with nulls first, then createdAt descending. */
  predicate Ahead(a: Link, b: Link) {
    match (a.revokedAt, b.revokedAt)
    case (None, Some(_)) => true
    case (Some(_), None) => false
    case (None, None) => a.createdAt > b.createdAt
    case (Some(x), Some(y)) => x > y || (x == y && a.createdAt > b.createdAt)
  }

  /** A link the query may return: of the request, with none of the request ahead of it. */
  ghost predicate MayBeLast(links: Links, request: Id, i: nat) {
    && i < |links| && links[i].request == request
    && forall j | 0 <= j < |links| && links[j].request == request :: !Ahead(links[j], links[i])
  }

  // ---------------------------------------------------------------------
  // Status
  // ---------------------------------------------------------------------

  lemma {:induction false} CountsUpToAll(files: seq<Option<Deposits.Status>>)
    ensures CountReceived(files) <= |files|
    ensures CountReceived(files) == |files| <==> forall f | f in files :: IsReceived(f)
  {
    if files != [] {
      CountsUpToAll(files[1..]);
      assert files[0] in files && forall f | f in files[1..] :: f in files;
      assert forall f | f in files :: f == files[0] || f in files[1..];
    }
  }

  /** The places of the pieces whose file is complete. */
  function Received(files: seq<Option<Deposits.Status>>, n: nat): set<nat>
    requires n <= |files|
  {
    set i: nat | i < n && files[i] == Some(Deposits.Complete)
  }

  lemma CountOneMore(files: seq<Option<Deposits.Status>>, file: Option<Deposits.Status>)
    ensures CountReceived(files + [file]) == CountReceived(files) + if IsReceived(file) then 1 else 0
  {
    if files != [] {
      assert (files + [file])[1..] == files[1..] + [file];
      CountOneMore(files[1..], file);
    }
  }

  /** The count is the number of pieces that have a complete file. */
  lemma {:induction false} CountsTheReceived(files: seq<Option<Deposits.Status>>, n: nat)
    requires n <= |files|
    ensures CountReceived(files[..n]) == |Received(files, n)|
  {
    if n == 0 {
      assert Received(files, 0) == {};
    } else {
      CountsTheReceived(files, n - 1);
      CountOneMore(files[..n - 1], files[n - 1]);
      assert files[..n] == files[..n - 1] + [files[n - 1]];
      assert Received(files, n) == Received(files, n - 1) + if files[n - 1] == Some(Deposits.Complete) then {n - 1} else {};
    }
  }

  /** Done is having something to expect and all of it, whatever the clock says; short of that the last link's deadline decides. */
  lemma DoneIsEverythingReceived(latest: Link, files: seq<Option<Deposits.Status>>, now: int)
    ensures ToSummary(latest, files, now).status == Done <==> files != [] && forall f | f in files :: IsReceived(f)
    ensures ToSummary(latest, files, now).status == PastDeadline <==>
              !(files != [] && forall f | f in files :: IsReceived(f)) && now > latest.expiresAt
    ensures ToSummary(latest, files, now).expectedCount == |files| && ToSummary(latest, files, now).expiresAt == latest.expiresAt
    ensures ToSummary(latest, files, now).receivedCount == |Received(files, |files|)|
    ensures ToSummary(latest, files, now).state == ActiveLink <==> latest.revokedAt.None?
  {
    CountsUpToAll(files);
    CountsTheReceived(files, |files|);
    assert files[..|files|] == files;
  }

  // ---------------------------------------------------------------------
  // The dashboard and the completion counter
  // ---------------------------------------------------------------------

  function FileOf(files: Deposits.Files, item: Id): Option<Deposits.Status> {
    if item in files then Some(files[item].status) else None
  }

  /** The pieces of a request, each with the status of its file, as the dashboard's query selects them. */
  function FilesOf(files: Deposits.Files, pieces: seq<Id>): (shown: seq<Option<Deposits.Status>>)
    ensures |shown| == |pieces|
  {
    seq(|pieces|, i requires 0 <= i < |pieces| => FileOf(files, pieces[i]))
  }

  ghost predicate ListsPieces(items: map<Id, Id>, request: Id, pieces: seq<Id>) {
    forall i :: i in pieces <==> Deposits.Owns(items, request, i)
  }

  /** Waiting means one thing: a request with pieces is shown as done exactly when the counter finds nothing missing. */
  lemma DoneIffNothingMissing(s: Deposits.State, request: Id, pieces: seq<Id>, latest: Link, now: int)
    requires ListsPieces(s.items, request, pieces) && pieces != []
    ensures ToSummary(latest, FilesOf(s.files, pieces), now).status == Done <==> Deposits.AllReceived(s.items, s.files, request)
  {
    var shown := FilesOf(s.files, pieces);
    DoneIsEverythingReceived(latest, shown, now);
    if forall f | f in shown :: IsReceived(f) {
      forall i | i in s.items && s.items[i] == request ensures Deposits.IsReceived(s.files, i) {
        assert i in pieces;
        var k :| 0 <= k < |pieces| && pieces[k] == i;
        assert shown[k] in shown;
      }
    }
    if Deposits.AllReceived(s.items, s.files, request) {
      forall f | f in shown ensures IsReceived(f) {
        var k :| 0 <= k < |shown| && shown[k] == f;
        assert pieces[k] in pieces;
      }
    }
  }

  /** So a count adds one exactly when the request it is of is then shown as done. */
  lemma CountedIffShownDone(s: Deposits.State, c: Deposits.CallId, pieces: seq<Id>, latest: Link, now: int)
    requires Deposits.Enabled(s, Deposits.Count(c)) && ListsPieces(s.items, s.calls[c].request, pieces) && pieces != []
    ensures var r := s.calls[c].request;
            Deposits.Apply(s, Deposits.Count(c)).counted[r] == s.counted[r] + 1
            <==> ToSummary(latest, FilesOf(s.files, pieces), now).status == Done
  {
    DoneIffNothingMissing(s, s.calls[c].request, pieces, latest, now);
  }

  // ---------------------------------------------------------------------
  // The link shown, in any interleaving
  // ---------------------------------------------------------------------

  lemma AheadIsAnOrder(a: Link, b: Link, c: Link)
    ensures !Ahead(a, a)
    ensures !Ahead(a, b) && !Ahead(b, c) ==> !Ahead(a, c)
  {
  }

  lemma {:induction false} OneIsLast(links: Links, request: Id, n: nat) returns (i: nat)
    requires n <= |links| && exists k :: 0 <= k < n && links[k].request == request
    ensures i < n && links[i].request == request
    ensures forall j | 0 <= j < n && links[j].request == request :: !Ahead(links[j], links[i])
  {
    if exists k :: 0 <= k < n - 1 && links[k].request == request {
      i := OneIsLast(links, request, n - 1);
      if links[n - 1].request == request {
        forall j | 0 <= j < n && links[j].request == request ensures !Ahead(links[n - 1], links[i]) || !Ahead(links[j], links[n - 1]) {
          AheadIsAnOrder(links[j], links[i], links[n - 1]);
          AheadIsAnOrder(links[n - 1], links[n - 1], links[n - 1]);
          assert Ahead(links[n - 1], links[i]) ==> !Ahead(links[i], links[n - 1]);
        }
        if Ahead(links[n - 1], links[i]) {
          i := n - 1;
        }
      }
    } else {
      i := n - 1;
      AheadIsAnOrder(links[i], links[i], links[i]);
    }
  }

  /** In every reachable state every request has a link to show: the view never finds none. */
  lemma EveryRequestShowsALink(clock: int, es: seq<Event>, request: Id) returns (i: nat)
    requires Runs(Init(clock), es) && request in Exec(Init(clock), es).owners
    ensures MayBeLast(Exec(Init(clock), es).links, request, i)
  {
    var t := Exec(Init(clock), es);
    LinkSafety(clock, es);
    i := OneIsLast(t.links, request, |t.links|);
  }

  /** In any run, the link shown is the unrevoked one if there is one, and 'active' is shown exactly then. */
  lemma ActiveIsShownIffSomeLinkIsUnrevoked(links: Links, request: Id, i: nat)
    requires AtMostOneActive(links) && MayBeLast(links, request, i)
    ensures links[i].revokedAt.None? <==> exists a: nat :: Active(links, request, a)
    ensures forall a: nat | Active(links, request, a) :: a == i
  {
    if a: nat :| Active(links, request, a) {
      assert !Ahead(links[a], links[i]);
      assert Active(links, request, i);
    } else if links[i].revokedAt.None? {
      assert Active(links, request, i);
    }
  }

  /**
   * In every reachable state, for a request with an active link and a missing piece: 'pending' at exactly the
   * instants its token resolves to 'ok', 'expired' at exactly those it resolves to 'expired'.
   */
  lemma DashboardAgreesWithAccess(clock: int, es: seq<Event>, request: Id, a: nat, i: nat, files: seq<Option<Deposits.Status>>, now: int)
    requires Runs(Init(clock), es)
    requires var links := Exec(Init(clock), es).links; Active(links, request, a) && MayBeLast(links, request, i)
    requires exists f :: f in files && !IsReceived(f)
    ensures var links := Exec(Init(clock), es).links; var shown := ToSummary(links[i], files, now);
            && shown.state == ActiveLink
            && (shown.status == Waiting <==> Resolve(links, links[a].token, now) == Ok(a))
            && (shown.status == PastDeadline <==> Resolve(links, links[a].token, now) == Expired)
  {
    var links := Exec(Init(clock), es).links;
    LinkSafety(clock, es);
    ActiveIsShownIffSomeLinkIsUnrevoked(links, request, i);
    DoneIsEverythingReceived(links[i], files, now);
    FindsTheOne(links, a);
  }

  /** And when it shows 'revoked' no token of the request gets in. */
  lemma RevokedShownMeansNobodyGetsIn(clock: int, es: seq<Event>, request: Id, i: nat, k: nat, files: seq<Option<Deposits.Status>>, now: int)
    requires Runs(Init(clock), es)
    requires var links := Exec(Init(clock), es).links; MayBeLast(links, request, i) && k < |links| && links[k].request == request
    requires ToSummary(Exec(Init(clock), es).links[i], files, now).state == RevokedLink
    ensures var links := Exec(Init(clock), es).links; Resolve(links, links[k].token, now) == Revoked
  {
    var links := Exec(Init(clock), es).links;
    LinkSafety(clock, es);
    ActiveIsShownIffSomeLinkIsUnrevoked(links, request, i);
    FindsTheOne(links, k);
    assert !Active(links, request, k);
  }
}
