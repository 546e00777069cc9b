/** Deposits, key spelling and deletion by prefix together: erasing a request takes its objects, orphans included, and no other's. */
module RequestErasure {
  import opened StorageKeys
  import Deposits
  import DepositProofs
  import ObjectStorage

  /** How ids, draws and names are written: uuids for ids, sixteen hex digits for draws, any name at all. */
  datatype Spelling = Spelling(id: nat -> string, nonce: nat -> string, name: Deposits.Key -> seq<CodeUnit>)

  ghost predicate Proper(sp: Spelling) {
    && (forall i :: SlashFree(sp.id(i)))
    && (forall i, j :: sp.id(i) == sp.id(j) ==> i == j)
  }

  function Spelled(sp: Spelling, k: Deposits.Key): string {
    BuildStorageKey(sp.id(k.request), sp.id(k.item), sp.nonce(k.draw), sp.name(k))
  }

  /** The listing shows the objects of the bucket under their names. */
  ghost predicate ShowsBucket(sp: Spelling, keys: seq<string>, bucket: set<Deposits.Key>) {
    && (forall k | k in bucket :: Spelled(sp, k) in keys)
    && (forall x | x in keys :: exists k :: k in bucket && Spelled(sp, k) == x)
  }

  lemma {:induction false} NothingUnderLeavesOthers(keys: seq<string>, prefix: string)
    requires ObjectStorage.Matching(keys, prefix) == []
    ensures ObjectStorage.Others(keys, prefix) == keys
  {
    if keys != [] {
      NothingUnderLeavesOthers(keys[1..], prefix);
    }
  }

  lemma OwnPrefixOnly(sp: Spelling, k: Deposits.Key, r: nat)
    requires Proper(sp)
    ensures RequestPrefix(sp.id(r)) <= Spelled(sp, k) <==> k.request == r
  {
    PrefixCatchesItsOwn(sp.id(r), sp.id(k.request), sp.id(k.item), sp.nonce(k.draw), sp.name(k));
  }

  /**
   * `before` lists the bucket of any run of overlapping, failing deposits; `after` is what a normal return of
   * `deleteByPrefix` leaves. The objects left are exactly those of the other requests, and every row of
   * another request still names one of them.
   */
  lemma ErasureTakesOneRequest(sp: Spelling, s: Deposits.State, es: seq<Deposits.Event>, before: seq<string>, after: seq<string>, r: nat)
    requires Proper(sp) && Deposits.Starts(s) && Deposits.Runs(s, es)
    requires ShowsBucket(sp, before, Deposits.Exec(s, es).bucket)
    requires ObjectStorage.Others(after, RequestPrefix(sp.id(r))) == ObjectStorage.Others(before, RequestPrefix(sp.id(r)))
    requires ObjectStorage.Matching(after, RequestPrefix(sp.id(r))) == []
    ensures ShowsBucket(sp, after, set k | k in Deposits.Exec(s, es).bucket && k.request != r)
    ensures var t := Deposits.Exec(s, es);
            forall i | i in t.files && i in t.items && t.items[i] != r :: Spelled(sp, t.files[i].key) in after
  {
    var t := Deposits.Exec(s, es);
    var prefix := RequestPrefix(sp.id(r));
    NothingUnderLeavesOthers(after, prefix);
    OthersAreLeft(sp, s, es, before, after, r);
    forall x | x in after ensures exists k :: k in t.bucket && k.request != r && Spelled(sp, k) == x {
      ObjectStorage.MembersOfOthers(before, prefix, x);
      var k :| k in t.bucket && Spelled(sp, k) == x;
      OwnPrefixOnly(sp, k, r);
    }
  }

  /**
   * Deletion by the prefix of a request, on a storage that lists the bucket of any run of overlapping, failing
   * deposits. A normal return leaves exactly the objects of the other requests; a failure, none but objects
   * that were there, and all of the other requests.
   */
  method EraseRequest(storage: ObjectStorage.Storage, prefix: string, answers: seq<ObjectStorage.Answer>,
                      ghost sp: Spelling, ghost s: Deposits.State, ghost es: seq<Deposits.Event>, ghost r: nat)
    returns (result: ObjectStorage.Result)
    requires Proper(sp) && Deposits.Starts(s) && Deposits.Runs(s, es) && prefix == RequestPrefix(sp.id(r))
    requires ObjectStorage.Ordered(storage.keys) && ShowsBucket(sp, storage.keys, Deposits.Exec(s, es).bucket)
    modifies storage
    ensures result.Deleted? ==>
              ShowsBucket(sp, storage.keys, set k | k in Deposits.Exec(s, es).bucket && k.request != r)
    ensures (forall i | 0 <= i < |answers| :: ObjectStorage.Confirms(answers[i])) ==> result.Deleted?
    ensures forall k | k in Deposits.Exec(s, es).bucket && k.request != r :: Spelled(sp, k) in storage.keys
    ensures forall x | x in storage.keys :: x in old(storage.keys)
    ensures var t := Deposits.Exec(s, es);
            forall i | i in t.files && i in t.items && t.items[i] != r :: Spelled(sp, t.files[i].key) in storage.keys
  {
    ghost var before := storage.keys;
    result := storage.DeleteByPrefix(prefix, answers);
    ghost var all := ObjectStorage.Matching(before, prefix);
    if forall i | 0 <= i < |answers| :: ObjectStorage.Confirms(answers[i]) {
      forall i: nat ensures !ObjectStorage.PageFails(all, answers, i) {
        ObjectStorage.ConfirmedNeverFails(all, answers, i);
      }
    }
    OthersAreLeft(sp, s, es, before, storage.keys, r);
    if result.Deleted? {
      ErasureTakesOneRequest(sp, s, es, before, storage.keys, r);
      NothingUnderLeavesOthers(storage.keys, prefix);
      forall x | x in storage.keys ensures x in before {
        ObjectStorage.MembersOfOthers(before, prefix, x);
      }
    }
  }

  /** What lies outside the prefix is all there, whether or not the deletion went through. */
  lemma OthersAreLeft(sp: Spelling, s: Deposits.State, es: seq<Deposits.Event>, before: seq<string>, after: seq<string>, r: nat)
    requires Proper(sp) && Deposits.Starts(s) && Deposits.Runs(s, es)
    requires ShowsBucket(sp, before, Deposits.Exec(s, es).bucket)
    requires ObjectStorage.Others(after, RequestPrefix(sp.id(r))) == ObjectStorage.Others(before, RequestPrefix(sp.id(r)))
    ensures forall k | k in Deposits.Exec(s, es).bucket && k.request != r :: Spelled(sp, k) in after
    ensures var t := Deposits.Exec(s, es);
            forall i | i in t.files && i in t.items && t.items[i] != r :: Spelled(sp, t.files[i].key) in after
  {
    var t := Deposits.Exec(s, es);
    var prefix := RequestPrefix(sp.id(r));
    DepositProofs.RunKeepsInv(s, es);
    forall k | k in t.bucket && k.request != r ensures Spelled(sp, k) in after {
      OwnPrefixOnly(sp, k, r);
      ObjectStorage.MembersOfOthers(before, prefix, Spelled(sp, k));
      ObjectStorage.MembersOfOthers(after, prefix, Spelled(sp, k));
    }
  }
}
