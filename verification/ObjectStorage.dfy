/**
 * The paginated deletion by prefix, against a bucket that lists its keys in order, at most a batch at a time,
 * and resumes strictly after the last key listed.
 */
module ObjectStorage {
  import opened Options

  type Key = string

  /** DELETE_BATCH_SIZE */
  const BATCH: nat := 1000

  /** The order of a listing: by code point, a prefix before what it prefixes. */
  predicate Less(a: Key, b: Key) {
    b != "" && (a == "" || a[0] < b[0] || (a[0] == b[0] && Less(a[1..], b[1..])))
  }

  lemma {:induction false} NotLessThanItself(a: Key)
    ensures !Less(a, a)
  {
    if a != "" {
      NotLessThanItself(a[1..]);
    }
  }

  ghost predicate Ordered(keys: seq<Key>) {
    forall i, j | 0 <= i < j < |keys| :: Less(keys[i], keys[j])
  }

  // ---------------------------------------------------------------------
  // What a bucket answers
  // ---------------------------------------------------------------------

  predicate Under(prefix: string, k: Key) {
    prefix <= k
  }

  function Matching(keys: seq<Key>, prefix: string): seq<Key> {
    if keys == [] then []
    else (if Under(prefix, keys[0]) then [keys[0]] else []) + Matching(keys[1..], prefix)
  }

  function Others(keys: seq<Key>, prefix: string): seq<Key> {
    if keys == [] then []
    else (if Under(prefix, keys[0]) then [] else [keys[0]]) + Others(keys[1..], prefix)
  }

  function After(keys: seq<Key>, token: Option<Key>): seq<Key> {
    if keys == [] then []
    else (if token.None? || Less(token.value, keys[0]) then [keys[0]] else []) + After(keys[1..], token)
  }

  function Remove(keys: seq<Key>, gone: set<Key>): seq<Key> {
    if keys == [] then []
    else (if keys[0] in gone then [] else [keys[0]]) + Remove(keys[1..], gone)
  }

  datatype Page = Page(keys: seq<Key>, next: Option<Key>)

  /** ListObjectsV2: at most BATCH keys under the prefix after the token, and where to resume if there are more. */
  function List(keys: seq<Key>, prefix: string, token: Option<Key>): Page {
    var found := After(Matching(keys, prefix), token);
    if |found| <= BATCH then Page(found, None) else Page(found[..BATCH], Some(found[BATCH - 1]))
  }

  function KeySet(keys: seq<Key>): set<Key> {
    set k | k in keys
  }

  /**
   * How the bucket answers one page: the listing fails, the deletion fails, or some keys are refused. Its list of
   * deleted keys may be missing, or pass over some of them.
   */
  datatype Answer = ListFails | DeleteFails | Deletes(refused: set<Key>, passedOver: Option<nat>)

  predicate Confirms(a: Answer) {
    a.Deletes? && a.refused == {}
  }

  /** The deleted keys are listed one by one, or not at all. */
  predicate ListsThemAll(a: Answer) {
    a.Deletes? ==> a.passedOver.None? || a.passedOver.value == 0
  }

  /** `result.Deleted?.length ?? keys.length` */
  function Reported(sent: nat, passedOver: Option<nat>): (n: nat)
    ensures n <= sent && (passedOver.None? || passedOver.value == 0 ==> n == sent)
  {
    match passedOver
    case None => sent
    case Some(p) => if p <= sent then sent - p else 0
  }

  datatype Result = Deleted(count: nat) | Failed

  // ---------------------------------------------------------------------
  // Facts about listings
  // ---------------------------------------------------------------------

  lemma {:induction false} MembersOfMatching(keys: seq<Key>, prefix: string, k: Key)
    ensures k in Matching(keys, prefix) <==> k in keys && Under(prefix, k)
  {
    if keys != [] {
      MembersOfMatching(keys[1..], prefix, k);
    }
  }

  lemma {:induction false} MembersOfOthers(keys: seq<Key>, prefix: string, k: Key)
    ensures k in Others(keys, prefix) <==> k in keys && !Under(prefix, k)
  {
    if keys != [] {
      MembersOfOthers(keys[1..], prefix, k);
    }
  }

  lemma {:induction false} MembersOfRemove(keys: seq<Key>, gone: set<Key>, k: Key)
    ensures k in Remove(keys, gone) <==> k in keys && k !in gone
  {
    if keys != [] {
      MembersOfRemove(keys[1..], gone, k);
    }
  }

  lemma OrderedTail(keys: seq<Key>)
    requires keys != [] && Ordered(keys)
    ensures Ordered(keys[1..]) && forall k | k in keys[1..] :: Less(keys[0], k)
  {
    forall k | k in keys[1..] ensures Less(keys[0], k) {
      var i :| 0 <= i < |keys[1..]| && keys[1..][i] == k;
      assert keys[i + 1] == k;
    }
  }

  lemma OrderedCons(k: Key, rest: seq<Key>)
    requires Ordered(rest) && forall x | x in rest :: Less(k, x)
    ensures Ordered([k] + rest)
  {
    var s := [k] + rest;
    forall i, j | 0 <= i < j < |s| ensures Less(s[i], s[j]) {
      assert s[j] == rest[j - 1] && rest[j - 1] in rest;
      if i > 0 {
        assert s[i] == rest[i - 1];
      }
    }
  }

  lemma {:induction false} RemoveKeepsOrder(keys: seq<Key>, gone: set<Key>)
    requires Ordered(keys)
    ensures Ordered(Remove(keys, gone))
  {
    if keys != [] {
      OrderedTail(keys);
      RemoveKeepsOrder(keys[1..], gone);
      forall k | k in Remove(keys[1..], gone) ensures Less(keys[0], k) {
        MembersOfRemove(keys[1..], gone, k);
      }
      OrderedCons(keys[0], Remove(keys[1..], gone));
    }
  }

  lemma {:induction false} MatchingKeepsOrder(keys: seq<Key>, prefix: string)
    requires Ordered(keys)
    ensures Ordered(Matching(keys, prefix))
  {
    if keys != [] {
      OrderedTail(keys);
      MatchingKeepsOrder(keys[1..], prefix);
      forall k | k in Matching(keys[1..], prefix) ensures Less(keys[0], k) {
        MembersOfMatching(keys[1..], prefix, k);
      }
      OrderedCons(keys[0], Matching(keys[1..], prefix));
    }
  }

  lemma RemoveCons(k: Key, rest: seq<Key>, gone: set<Key>)
    ensures Remove([k] + rest, gone) == (if k in gone then [] else [k]) + Remove(rest, gone)
  {
    assert ([k] + rest)[1..] == rest;
  }

  lemma ListingCons(k: Key, rest: seq<Key>, prefix: string)
    ensures Matching([k] + rest, prefix) == (if Under(prefix, k) then [k] else []) + Matching(rest, prefix)
    ensures Others([k] + rest, prefix) == (if Under(prefix, k) then [] else [k]) + Others(rest, prefix)
  {
    assert ([k] + rest)[1..] == rest;
  }

  lemma {:induction false} RemovalsCommute(keys: seq<Key>, prefix: string, gone: set<Key>)
    requires forall k | k in gone :: Under(prefix, k)
    ensures Matching(Remove(keys, gone), prefix) == Remove(Matching(keys, prefix), gone)
    ensures Others(Remove(keys, gone), prefix) == Others(keys, prefix)
  {
    if keys != [] {
      RemovalsCommute(keys[1..], prefix, gone);
      ListingCons(keys[0], Remove(keys[1..], gone), prefix);
      RemoveCons(keys[0], Matching(keys[1..], prefix), gone);
      assert [] + Matching(keys[1..], prefix) == Matching(keys[1..], prefix);
      assert [] + Remove(keys[1..], gone) == Remove(keys[1..], gone);
    }
  }

  lemma OrderedIsDistinct(keys: seq<Key>)
    requires Ordered(keys)
    ensures forall i, j | 0 <= i < j < |keys| :: keys[i] != keys[j]
  {
    forall i, j | 0 <= i < j < |keys| ensures keys[i] != keys[j] {
      NotLessThanItself(keys[i]);
    }
  }

  /** Removing the first n of an ordered listing leaves exactly the rest of it. */
  lemma RemoveFront(keys: seq<Key>, n: nat)
    requires Ordered(keys) && n <= |keys|
    ensures Remove(keys, KeySet(keys[..n])) == keys[n..]
  {
    OrderedIsDistinct(keys);
    RemoveFrontOf(keys, KeySet(keys[..n]), n);
  }

  lemma {:induction false} RemoveFrontOf(keys: seq<Key>, gone: set<Key>, n: nat)
    requires n <= |keys|
    requires forall i | 0 <= i < |keys| :: keys[i] in gone <==> i < n
    ensures Remove(keys, gone) == keys[n..]
    decreases |keys|
  {
    if keys != [] {
      RemoveFrontOf(keys[1..], gone, if n > 0 then n - 1 else 0);
    }
  }

  /** When everything left lies after the token, the listing shows all of it. */
  lemma {:induction false} AfterShowsAll(keys: seq<Key>, token: Option<Key>)
    requires token.Some? ==> forall k | k in keys :: Less(token.value, k)
    ensures After(keys, token) == keys
  {
    if keys != [] {
      assert keys[0] in keys && forall k | k in keys[1..] :: k in keys;
      AfterShowsAll(keys[1..], token);
      assert [keys[0]] + keys[1..] == keys;
    }
  }

  lemma MatchingIsUnder(keys: seq<Key>, prefix: string)
    ensures forall k | k in Matching(keys, prefix) :: Under(prefix, k)
  {
    forall k | k in Matching(keys, prefix) ensures Under(prefix, k) {
      MembersOfMatching(keys, prefix, k);
    }
  }

  /** One page deleted: what is under the prefix loses the page, the rest of the bucket does not move. */
  lemma PageDeleted(keys: seq<Key>, prefix: string, n: nat)
    requires Ordered(keys) && n <= |Matching(keys, prefix)|
    ensures var left := Remove(keys, KeySet(Matching(keys, prefix)[..n]));
            && Ordered(left) && Others(left, prefix) == Others(keys, prefix)
            && Matching(left, prefix) == Matching(keys, prefix)[n..]
  {
    var page := Matching(keys, prefix)[..n];
    MatchingIsUnder(keys, prefix);
    assert forall k | k in page :: k in Matching(keys, prefix);
    RemoveKeepsOrder(keys, KeySet(page));
    RemovalsCommute(keys, prefix, KeySet(page));
    MatchingKeepsOrder(keys, prefix);
    RemoveFront(Matching(keys, prefix), n);
  }

  /** The page a listing shows when everything left lies after the token it resumes from. */
  lemma PageListed(keys: seq<Key>, prefix: string, token: Option<Key>)
    requires Ordered(keys) && (token.Some? ==> forall k | k in Matching(keys, prefix) :: Less(token.value, k))
    ensures var m := Matching(keys, prefix); var page := List(keys, prefix, token); var n := |page.keys|;
            && n <= |m| && page.keys == m[..n]
            && n == (if |m| <= BATCH then |m| else BATCH)
            && (page.next.None? <==> |m| <= BATCH)
            && (page.next.Some? ==> n > 0 && forall k | k in m[n..] :: Less(page.next.value, k))
  {
    var m := Matching(keys, prefix);
    AfterShowsAll(m, token);
    MatchingKeepsOrder(keys, prefix);
    if |m| > BATCH {
      forall k | k in m[BATCH..] ensures Less(m[BATCH - 1], k) {
        var i :| 0 <= i < |m[BATCH..]| && m[BATCH..][i] == k;
        assert m[BATCH + i] == k;
      }
    } else {
      assert m[..|m|] == m;
    }
  }

  /** What is refused stays; nothing outside the prefix ever goes. */
  lemma PartlyDeleted(keys: seq<Key>, prefix: string, gone: set<Key>)
    requires Ordered(keys) && gone <= KeySet(Matching(keys, prefix))
    ensures Ordered(Remove(keys, gone)) && Others(Remove(keys, gone), prefix) == Others(keys, prefix)
    ensures forall k | k in Remove(keys, gone) :: k in keys
  {
    MatchingIsUnder(keys, prefix);
    RemoveKeepsOrder(keys, gone);
    RemovalsCommute(keys, prefix, gone);
    forall k | k in Remove(keys, gone) ensures k in keys {
      MembersOfRemove(keys, gone, k);
    }
  }

  // ---------------------------------------------------------------------
  // Pages, and the first that fails
  // ---------------------------------------------------------------------

  /** How many listings `m` keys take: one for none, or one for each thousand begun. */
  function Pages(m: nat): nat {
    if m == 0 then 1 else (m + 999) / 1000
  }

  /** Page `i` is asked for: the first always, another if there are keys for it. */
  predicate AskedFor(m: nat, i: nat) {
    i == 0 || 1000 * i < m
  }

  lemma PagesAreAskedFor(m: nat, i: nat)
    ensures AskedFor(m, i) <==> i < Pages(m)
  {
  }

  /** The answer to the i-th page; past those given, the bucket confirms. */
  function At(answers: seq<Answer>, i: nat): Answer {
    if i < |answers| then answers[i] else Deletes({}, None)
  }

  /** The key at `x` is on page `i`. */
  predicate OnPage(all: seq<Key>, i: nat, x: int) {
    0 <= x < |all| && 1000 * i <= x < 1000 * (i + 1)
  }

  /** The listing fails; or there is something to delete and the deletion fails, or refuses one of the page's keys. */
  ghost predicate PageFails(all: seq<Key>, answers: seq<Answer>, i: nat) {
    var answer := At(answers, i);
    || answer.ListFails?
    || (1000 * i < |all| && answer.DeleteFails?)
    || (answer.Deletes? && exists x :: OnPage(all, i, x) && all[x] in answer.refused)
  }

  ghost predicate NoneFails(all: seq<Key>, answers: seq<Answer>, n: nat) {
    n == 0 || (NoneFails(all, answers, n - 1) && !PageFails(all, answers, n - 1))
  }

  lemma {:induction false} NoneOfThemFails(all: seq<Key>, answers: seq<Answer>, n: nat, i: nat)
    requires NoneFails(all, answers, n) && i < n
    ensures !PageFails(all, answers, i)
    decreases n
  {
    if i < n - 1 {
      NoneOfThemFails(all, answers, n - 1, i);
    }
  }

  /** Page `i` is the first to fail. */
  ghost predicate FirstFailure(all: seq<Key>, answers: seq<Answer>, i: nat) {
    PageFails(all, answers, i) && NoneFails(all, answers, i)
  }

  /** What `PageListed` says of the listing of page `i`: the keys of that page. */
  ghost predicate IsPage(all: seq<Key>, i: nat, page: seq<Key>) {
    && |page| <= 1000 && 1000 * i + |page| <= |all| && page == all[1000 * i..1000 * i + |page|]
    && (|page| == 1000 || 1000 * i + |page| == |all|)
  }

  lemma ListedIsPage(all: seq<Key>, i: nat, n: nat)
    requires 1000 * i <= |all| && n == if |all| - 1000 * i <= BATCH then |all| - 1000 * i else BATCH
    ensures IsPage(all, i, all[1000 * i..][..n])
    ensures all[1000 * i..][n..] == all[1000 * i + n..]
  {
    assert all[1000 * i..][..n] == all[1000 * i..1000 * i + n];
  }

  /** What is under the prefix is `all` short of its first `gone`, and lies after the token. */
  ghost predicate Resumes(keys: seq<Key>, prefix: string, all: seq<Key>, gone: nat, token: Option<Key>) {
    && gone <= |all| && Matching(keys, prefix) == all[gone..]
    && (token.Some? ==> forall k | k in Matching(keys, prefix) :: Less(token.value, k))
  }

  /** The bucket, but for some of what is under the prefix. */
  ghost predicate Spares(before: seq<Key>, prefix: string, keys: seq<Key>) {
    Ordered(keys) && Others(keys, prefix) == Others(before, prefix) && forall k | k in keys :: k in before
  }

  lemma SparesOnwards(before: seq<Key>, prefix: string, middle: seq<Key>, after: seq<Key>)
    requires Spares(before, prefix, middle) && Spares(middle, prefix, after)
    ensures Spares(before, prefix, after)
  {
  }

  /** The head of the loop: `page` pages have gone, and there are more or there are not. */
  ghost predicate AtPage(m: nat, page: nat, gone: nat, more: bool) {
    if more then gone == 1000 * page && AskedFor(m, page) else gone == m && 0 < page && m <= 1000 * page
  }

  lemma NextPage(m: nat, page: nat, gone: nat, listed: nat, more: bool)
    requires AtPage(m, page, gone, true) && gone <= m && listed == (if m - gone <= 1000 then m - gone else 1000)
    requires more <==> m - gone > 1000
    ensures AtPage(m, page + 1, gone + listed, more) && gone + listed <= m && (more ==> listed > 0)
  {
  }

  /** With nothing on the page there is nothing but its listing that can fail. */
  lemma EmptyPage(all: seq<Key>, answers: seq<Answer>, i: nat)
    requires |all| <= 1000 * i && !At(answers, i).ListFails?
    ensures !PageFails(all, answers, i)
  {
  }

  /** The pages before `i` are gone; of page `i` what its answer refused is left, or all of it if it deleted nothing; the rest is left. */
  ghost predicate StoppedAt(all: seq<Key>, answers: seq<Answer>, i: nat, keys: seq<Key>) {
    forall x | 0 <= x < |all| ::
      all[x] in keys <==>
        || x >= 1000 * (i + 1)
        || (x >= 1000 * i && (At(answers, i).Deletes? ==> all[x] in At(answers, i).refused))
  }

  /** Nothing of page `i` was deleted. */
  lemma StoppedBeforeDeleting(all: seq<Key>, answers: seq<Answer>, i: nat, keys: seq<Key>, prefix: string)
    requires Ordered(all) && 1000 * i <= |all| && Matching(keys, prefix) == all[1000 * i..]
    requires !At(answers, i).Deletes? && forall k | k in all :: Under(prefix, k)
    ensures StoppedAt(all, answers, i, keys)
  {
    OrderedIsDistinct(all);
    forall x | 0 <= x < |all| ensures all[x] in keys <==> x >= 1000 * i {
      MembersOfMatching(keys, prefix, all[x]);
      InSlice(all, 1000 * i, |all|, x);
      assert all[1000 * i..|all|] == all[1000 * i..];
    }
  }

  /** The listing of page `i`, some of which is refused. */
  lemma StoppedWhileDeleting(all: seq<Key>, answers: seq<Answer>, i: nat, was: seq<Key>, page: seq<Key>, keys: seq<Key>, prefix: string)
    requires Ordered(all) && 1000 * i <= |all| && Matching(was, prefix) == all[1000 * i..]
    requires forall k | k in all :: Under(prefix, k)
    requires IsPage(all, i, page)
    requires At(answers, i).Deletes? && keys == Remove(was, KeySet(page) - KeySet(page) * At(answers, i).refused)
    ensures StoppedAt(all, answers, i, keys)
  {
    var refused := At(answers, i).refused;
    OrderedIsDistinct(all);
    forall x | 0 <= x < |all| ensures all[x] in keys <==> x >= 1000 * (i + 1) || (x >= 1000 * i && all[x] in refused) {
      MembersOfRemove(was, KeySet(page) - KeySet(page) * refused, all[x]);
      MembersOfMatching(was, prefix, all[x]);
      InSlice(all, 1000 * i, 1000 * i + |page|, x);
      InSlice(all, 1000 * i, |all|, x);
      assert all[1000 * i..|all|] == all[1000 * i..];
    }
  }

  lemma InSlice(all: seq<Key>, from: nat, to: nat, x: nat)
    requires from <= to <= |all| && x < |all| && forall i, j | 0 <= i < j < |all| :: all[i] != all[j]
    ensures all[x] in all[from..to] <==> from <= x < to
  {
    if from <= x < to {
      assert all[from..to][x - from] == all[x];
    }
    if all[x] in all[from..to] {
      var y :| 0 <= y < |all[from..to]| && all[from..to][y] == all[x];
      assert all[from + y] == all[x];
    }
  }

  /** The page's keys are refused by its answer exactly when the page fails. */
  lemma RefusedOnPage(all: seq<Key>, answers: seq<Answer>, i: nat, page: seq<Key>)
    requires IsPage(all, i, page)
    requires At(answers, i).Deletes?
    ensures KeySet(page) * At(answers, i).refused != {} <==> PageFails(all, answers, i)
  {
    var refused := At(answers, i).refused;
    if x :| OnPage(all, i, x) && all[x] in refused {
      assert page[x - 1000 * i] == all[x];
      assert all[x] in KeySet(page) * refused;
    }
    if k :| k in KeySet(page) * refused {
      var y :| 0 <= y < |page| && page[y] == k;
      assert OnPage(all, i, 1000 * i + y) && all[1000 * i + y] == k;
    }
  }

  /** Every page that is asked for is listed and deleted whole. */
  ghost predicate AllPagesGo(all: seq<Key>, answers: seq<Answer>) {
    forall i: nat | AskedFor(|all|, i) :: !PageFails(all, answers, i)
  }

  /** What a failed call leaves: it stopped at the first page that failed. */
  ghost predicate StoppedAtTheFirst(all: seq<Key>, answers: seq<Answer>, keys: seq<Key>) {
    exists i: nat :: AskedFor(|all|, i) && FirstFailure(all, answers, i) && StoppedAt(all, answers, i, keys)
  }

  lemma StopsThere(all: seq<Key>, answers: seq<Answer>, i: nat, keys: seq<Key>)
    requires AskedFor(|all|, i) && NoneFails(all, answers, i) && PageFails(all, answers, i) && StoppedAt(all, answers, i, keys)
    ensures !AllPagesGo(all, answers) && StoppedAtTheFirst(all, answers, keys)
  {
    assert FirstFailure(all, answers, i);
  }

  lemma AllHaveGone(all: seq<Key>, answers: seq<Answer>, n: nat)
    requires NoneFails(all, answers, n) && 0 < n && |all| <= 1000 * n
    ensures AllPagesGo(all, answers)
  {
    forall i: nat | AskedFor(|all|, i) ensures !PageFails(all, answers, i) {
      NoneOfThemFails(all, answers, n, i);
    }
  }

  /** A bucket that confirms everything makes no page fail. */
  lemma ConfirmedNeverFails(all: seq<Key>, answers: seq<Answer>, i: nat)
    requires forall j | 0 <= j < |answers| :: Confirms(answers[j])
    ensures !PageFails(all, answers, i)
  {
  }

  // ---------------------------------------------------------------------
  // The service
  // ---------------------------------------------------------------------

  class Storage {
    var keys: seq<Key>

    constructor (keys: seq<Key>)
      ensures this.keys == keys
    {
      this.keys := keys;
    }

    /** The key is gone, every other key stays, and so does their order; the empty key is refused. */
    method DeleteObject(key: Key) returns (ok: bool)
      modifies this
      ensures ok <==> key != ""
      ensures !ok ==> keys == old(keys)
      ensures ok ==> forall k :: k in keys <==> k in old(keys) && k != key
      ensures Ordered(old(keys)) ==> Ordered(keys)
    {
      if key == "" {
        return false;
      }
      ghost var was := keys;
      keys := Remove(keys, {key});
      forall k ensures k in keys <==> k in was && k != key {
        MembersOfRemove(was, {key}, k);
      }
      if Ordered(was) {
        RemoveKeepsOrder(was, {key});
      }
      ok := true;
    }

    /** One turn of the loop, on page `i`: list it, delete it, and say whether both went through. */
    method DeletePage(prefix: string, token: Option<Key>, answer: Answer, ghost all: seq<Key>, ghost gone: nat, ghost answers: seq<Answer>, ghost i: nat)
      returns (ok: bool, listed: nat, next: Option<Key>)
      requires Ordered(all) && (forall k | k in all :: Under(prefix, k)) && answer == At(answers, i)
      requires Ordered(keys) && gone == 1000 * i && Resumes(keys, prefix, all, gone, token)
      modifies this
      ensures Spares(old(keys), prefix, keys)
      ensures ok <==> !PageFails(all, answers, i)
      ensures !ok ==> StoppedAt(all, answers, i, keys)
      ensures ok ==>
                && listed == (if |all| - gone <= 1000 then |all| - gone else 1000)
                && Resumes(keys, prefix, all, gone + listed, next)
                && (next.None? <==> |all| - gone <= 1000)
    {
      listed, next := 0, None;
      if answer.ListFails? {
        StoppedBeforeDeleting(all, answers, i, keys, prefix);
        return false, listed, next;
      }
      PageListed(keys, prefix, token);
      var page := List(keys, prefix, token);
      ListedIsPage(all, i, |page.keys|);
      if |page.keys| > 0 {
        if answer.DeleteFails? {
          StoppedBeforeDeleting(all, answers, i, keys, prefix);
          return false, listed, next;
        }
        ghost var was := keys;
        var errors := KeySet(page.keys) * answer.refused;
        RefusedOnPage(all, answers, i, page.keys);
        keys := Remove(keys, KeySet(page.keys) - errors);
        assert KeySet(page.keys) <= KeySet(Matching(was, prefix));
        PartlyDeleted(was, prefix, KeySet(page.keys) - errors);
        if errors != {} {
          StoppedWhileDeleting(all, answers, i, was, page.keys, keys, prefix);
          return false, listed, next;
        }
        assert KeySet(page.keys) - errors == KeySet(page.keys);
        PageDeleted(was, prefix, |page.keys|);
      } else {
        EmptyPage(all, answers, i);
      }
      return true, |page.keys|, page.next;
    }

    /**
     * `answers[i]` is how the bucket takes the i-th page; beyond them, it confirms. A normal return has erased
     * every key under the prefix and no other, and its number is theirs if the bucket lists what it deletes. It
     * fails exactly when a page does, at the first that does.
     */
    method DeleteByPrefix(prefix: string, answers: seq<Answer>) returns (result: Result)
      requires Ordered(keys)
      modifies this
      ensures Spares(old(keys), prefix, keys)
      ensures prefix == "" ==> result == Failed && keys == old(keys)
      ensures result.Deleted? <==> prefix != "" && AllPagesGo(Matching(old(keys), prefix), answers)
      ensures result.Deleted? ==> Matching(keys, prefix) == [] && result.count <= |Matching(old(keys), prefix)|
      ensures result.Deleted? && (forall i | 0 <= i < |answers| :: ListsThemAll(answers[i])) ==>
                result.count == |Matching(old(keys), prefix)|
      ensures prefix != "" && result.Failed? ==> StoppedAtTheFirst(Matching(old(keys), prefix), answers, keys)
    {
      if prefix == "" {
        return Failed;
      }
      var deleted := 0;
      var token: Option<Key> := None;
      var more := true;
      var page := 0;
      ghost var all := Matching(keys, prefix);
      ghost var gone := 0;
      ghost var frank := forall i | 0 <= i < |answers| :: ListsThemAll(answers[i]);
      MatchingKeepsOrder(keys, prefix);
      MatchingIsUnder(keys, prefix);
      while more
        invariant Spares(old(keys), prefix, keys) && Resumes(keys, prefix, all, gone, token)
        invariant 0 <= deleted <= gone && (frank ==> deleted == gone)
        invariant AtPage(|all|, page, gone, more)
        invariant NoneFails(all, answers, page)
        decreases |all| - gone, more
      {
        var answer := if page < |answers| then answers[page] else Deletes({}, None);
        ghost var was := keys;
        var ok, listed, next := DeletePage(prefix, token, answer, all, gone, answers, page);
        SparesOnwards(old(keys), prefix, was, keys);
        if !ok {
          StopsThere(all, answers, page, keys);
          return Failed;
        }
        NextPage(|all|, page, gone, listed, next.Some?);
        if answer.Deletes? {
          deleted := deleted + Reported(listed, answer.passedOver);
        }
        gone := gone + listed;
        page := page + 1;
        token := next;
        more := token.Some?;
      }
      result := Deleted(deleted);
      AllHaveGone(all, answers, page);
    }
  }
}
