/** The service as a class over its two stores, one deposit at a time, and the same deposit as steps of the machine. */
module DepositService {
  import opened Options
  import opened Deposits
  import opened DepositProofs

  /** Which of the awaits fails. */
  datatype Faults = Faults(put: bool, upsert: bool, undo: bool, count: bool, forget: bool)

  datatype Stores = Stores(bucket: set<Key>, files: Files, counted: multiset<Id>)

  /** One deposit with nothing around it. */
  function DepositAlone(items: map<Id, Id>, st: Stores, request: Id, item: Id, accepted: bool, draw: nat, faults: Faults): (Stores, Reply) {
    var key := Key(request, item, draw);
    if !Owns(items, request, item) then (st, NotFound)
    else if !accepted then (st, UnsupportedType)
    else if faults.put then (st, PutError)
    else if faults.upsert then (st.(bucket := if faults.undo then st.bucket + {key} else st.bucket + {key} - {key}), UpsertError)
    else
      var files := st.files[item := FileRow(key, Complete)];
      var counts := item !in st.files && !faults.count && AllReceived(items, files, request);
      var bucket := st.bucket + {key};
      (Stores(if item in st.files && st.files[item].key != key && !faults.forget then bucket - {st.files[item].key} else bucket,
              files,
              if counts then st.counted + multiset{request} else st.counted), Accepted)
  }

  /** A deposit that completes its request is counted if and only if its piece had no file, of any status, before. */
  lemma CompletionIsCountedIffFirstFile(items: map<Id, Id>, st: Stores, request: Id, item: Id, draw: nat, faults: Faults)
    requires Owns(items, request, item) && !faults.put && !faults.upsert && !faults.count
    requires !AllReceived(items, st.files, request)
    requires AllReceived(items, DepositAlone(items, st, request, item, true, draw, faults).0.files, request)
    ensures DepositAlone(items, st, request, item, true, draw, faults).0.counted[request] == st.counted[request] + 1
            <==> item !in st.files
  {
  }

  /** So a request completed by replacing a file that was not `complete` is never counted, whatever its other pieces hold. */
  lemma ReplacingAFailedFileIsNotCounted(items: map<Id, Id>, st: Stores, request: Id, item: Id, draw: nat, faults: Faults)
    requires Owns(items, request, item) && item in st.files && st.files[item].status != Complete && !faults.put && !faults.upsert
    requires forall i | i in items && items[i] == request && i != item :: IsReceived(st.files, i)
    ensures var (after, reply) := DepositAlone(items, st, request, item, true, draw, faults);
            && reply == Accepted && !AllReceived(items, st.files, request) && AllReceived(items, after.files, request)
            && after.counted == st.counted
  {
    assert !IsReceived(st.files, item);
  }

  class Service {
    const items: map<Id, Id>
    var bucket: set<Key>
    var files: Files
    var counted: multiset<Id>

    constructor (items: map<Id, Id>)
      ensures this.items == items && Both() == Stores({}, map[], multiset{})
    {
      this.items := items;
      bucket, files, counted := {}, map[], multiset{};
    }

    function Both(): Stores
      reads this
    {
      Stores(bucket, files, counted)
    }

    method Deposit(request: Id, item: Id, accepted: bool, draw: nat, faults: Faults) returns (reply: Reply)
      modifies this
      ensures (Both(), reply) == DepositAlone(items, old(Both()), request, item, accepted, draw, faults)
      ensures reply == NotFound <==> !(item in items && items[item] == request)
      ensures reply == UnsupportedType <==> item in items && items[item] == request && !accepted
      ensures reply == PutError <==> item in items && items[item] == request && accepted && faults.put
      ensures reply == UpsertError <==> item in items && items[item] == request && accepted && !faults.put && faults.upsert
      ensures reply == Accepted <==> item in items && items[item] == request && accepted && !faults.put && !faults.upsert
      ensures reply != Accepted ==> files == old(files) && counted == old(counted)
      ensures reply != Accepted && reply != UpsertError ==> bucket == old(bucket)
      ensures reply == UpsertError ==>
                forall k :: k in bucket <==> if k == Key(request, item, draw) then faults.undo else k in old(bucket)
      ensures reply == Accepted ==> files == old(files)[item := FileRow(Key(request, item, draw), Complete)]
      ensures reply == Accepted ==>
                forall k :: k in bucket <==>
                              || k == Key(request, item, draw)
                              || (k in old(bucket) && (item in old(files) && k == old(files)[item].key ==> faults.forget))
      ensures reply == Accepted ==>
                if item !in old(files) && !faults.count
                   && forall i | i in items && items[i] == request && i != item :: i in old(files) && old(files)[i].status == Complete
                then counted == old(counted) + multiset{request} else counted == old(counted)
    {
      if item !in items || items[item] != request {
        return NotFound;
      }
      if !accepted {
        return UnsupportedType;
      }
      var key := Key(request, item, draw);
      var previous := if item in files then Some(files[item].key) else None;
      if faults.put {
        return PutError;
      }
      bucket := bucket + {key};
      var recorded := Record(item, key, previous.Some?, faults);
      if recorded != Accepted {
        return recorded;
      }
      if previous.None? {
        CountIfCompleted(request, faults);
      }
      if previous.Some? && previous.value != key {
        ghost var was := bucket;
        Forget(previous.value, faults.forget);
        assert bucket == if faults.forget then was else was - {previous.value};
      }
      return Accepted;
    }

    /**
     * The write half of the upsert. On failure the new object goes, while its key is still known; only an
     * insertion that meets the unique index is a conflict the client may retry.
     */
    method Record(item: Id, key: Key, sawRow: bool, faults: Faults) returns (reply: Reply)
      modifies this
      ensures reply == if !faults.upsert && WriteGoesThrough(old(files), item, sawRow) then Accepted
                       else if !faults.upsert && !sawRow then Conflict else UpsertError
      ensures counted == old(counted)
      ensures if reply == Accepted then
                files == old(files)[item := FileRow(key, Complete)] && bucket == old(bucket)
              else
                files == old(files) && bucket == if faults.undo then old(bucket) else old(bucket) - {key}
    {
      if faults.upsert || (sawRow != (item in files)) {
        Forget(key, faults.undo);
        return if !faults.upsert && !sawRow then Conflict else UpsertError;
      }
      files := files[item := FileRow(key, Complete)];
      return Accepted;
    }

    method CountIfCompleted(request: Id, faults: Faults)
      modifies this`counted
      ensures counted == if !faults.count && AllReceived(items, files, request) then old(counted) + multiset{request} else old(counted)
    {
      if !faults.count {
        var missing := set i | i in items && items[i] == request && !(i in files && files[i].status == Complete);
        assert AllReceived(items, files, request) <==> missing == {} by {
          if missing == {} {
            forall i | i in items && items[i] == request ensures IsReceived(files, i) {
              assert i !in missing;
            }
          }
        }
        if missing == {} {
          counted := counted + multiset{request};
        }
      }
    }

    /**
     * Logged and swallowed: a failed deletion leaves an orphan and nothing else. Every other object stays, so
     * rows that name other objects still name something.
     */
    method Forget(key: Key, fails: bool)
      modifies this`bucket
      ensures forall k :: k in bucket <==> k in old(bucket) && (k == key ==> fails)
      ensures forall i | i in files && files[i].key != key && files[i].key in old(bucket) :: files[i].key in bucket
    {
      if !fails {
        bucket := bucket - {key};
      }
    }
  }

  // ---------------------------------------------------------------------
  // The same deposit, as a run
  // ---------------------------------------------------------------------

  function StoresOf(s: State): Stores {
    Stores(s.bucket, s.files, s.counted)
  }

  function RunAlone(s: State, c: CallId, request: Id, item: Id, accepted: bool, draw: nat, faults: Faults): seq<Event> {
    var looks := [Lookup(c, request, item, accepted)];
    if !Owns(s.items, request, item) || !accepted then looks
    else if faults.put then looks + [PutFails(c)]
    else if faults.upsert then looks + [Put(c, draw), UpsertRead(c), UpsertFails(c), Undo(c, !faults.undo)]
    else
      looks + [Put(c, draw), UpsertRead(c), UpsertWrite(c),
               if item in s.files then Forget(c, !faults.forget) else if faults.count then CountFails(c) else Count(c)]
  }

  lemma Two(s: State, a: Event, b: Event)
    requires Enabled(s, a) && Enabled(Apply(s, a), b)
    ensures Runs(s, [a] + ([b] + [])) && Exec(s, [a] + ([b] + [])) == Apply(Apply(s, a), b)
    ensures Answers(s, [a] + ([b] + [])) == AsList(Answer(s, a)) + AsList(Answer(Apply(s, a), b))
  {
    OneMore(Apply(s, a), b, []);
    OneMore(s, a, [b] + []);
    assert AsList(Answer(Apply(s, a), b)) + [] == AsList(Answer(Apply(s, a), b));
  }

  /** Three steps that answer nothing, then two. */
  lemma Five(s: State, a: Event, b: Event, c: Event, d: Event, e: Event)
    requires Enabled(s, a) && Enabled(Apply(s, a), b) && Enabled(Apply(Apply(s, a), b), c)
    requires Answer(s, a).None? && Answer(Apply(s, a), b).None? && Answer(Apply(Apply(s, a), b), c).None?
    requires var t := Apply(Apply(Apply(s, a), b), c); Enabled(t, d) && Enabled(Apply(t, d), e)
    ensures var run := [a] + ([b] + ([c] + ([d] + ([e] + [])))); var t := Apply(Apply(Apply(s, a), b), c);
            && Runs(s, run) && Exec(s, run) == Apply(Apply(t, d), e)
            && Answers(s, run) == AsList(Answer(t, d)) + AsList(Answer(Apply(t, d), e))
  {
    var t := Apply(Apply(Apply(s, a), b), c);
    Two(t, d, e);
    OneMore(Apply(Apply(s, a), b), c, [d] + ([e] + []));
    OneMore(Apply(s, a), b, [c] + ([d] + ([e] + [])));
    OneMore(s, a, [b] + ([c] + ([d] + ([e] + []))));
  }

  /** The steps of a deposit that nothing disturbs do to the stores what the service does, and answer what it replies. */
  lemma UndisturbedDeposit(s: State, c: CallId, request: Id, item: Id, accepted: bool, draw: nat, faults: Faults)
    requires c !in s.calls && Key(request, item, draw) !in s.used && KeyOf(s.files, item) != Some(Key(request, item, draw))
    ensures var run := RunAlone(s, c, request, item, accepted, draw, faults);
            var (stores, reply) := DepositAlone(s.items, StoresOf(s), request, item, accepted, draw, faults);
            && Runs(s, run) && StoresOf(Exec(s, run)) == stores && Answers(s, run) == [reply]
            && Exec(s, run).calls == s.calls
  {
    var look := Lookup(c, request, item, accepted);
    if !Owns(s.items, request, item) || !accepted {
      OneMore(s, look, []);
      assert [look] + [] == [look];
    } else if faults.put {
      Two(s, look, PutFails(c));
      assert [look] + [PutFails(c)] == [look] + ([PutFails(c)] + []);
    } else {
      UndisturbedWrite(s, c, request, item, draw, faults);
    }
  }

  /** The last two steps, from where the upsert has read. */
  lemma TheWrite(s: State, c: CallId, request: Id, item: Id, draw: nat, faults: Faults)
    requires c !in s.calls && Key(request, item, draw) !in s.used && KeyOf(s.files, item) != Some(Key(request, item, draw))
    requires Owns(s.items, request, item) && !faults.put
    ensures var key := Key(request, item, draw);
            var t := s.(bucket := s.bucket + {key}, used := s.used + {key},
                        calls := s.calls[c := Upserting(request, item, KeyOf(s.files, item), key, item in s.files)]);
            var run := RunAlone(s, c, request, item, true, draw, faults);
            var (stores, reply) := DepositAlone(s.items, StoresOf(s), request, item, true, draw, faults);
            && |run| == 5 && Enabled(t, run[3]) && Enabled(Apply(t, run[3]), run[4])
            && Apply(Apply(t, run[3]), run[4]).calls == s.calls
            && StoresOf(Apply(Apply(t, run[3]), run[4])) == stores
            && AsList(Answer(t, run[3])) + AsList(Answer(Apply(t, run[3]), run[4])) == [reply]
  {
    var key := Key(request, item, draw);
    var run := RunAlone(s, c, request, item, true, draw, faults);
    var t := s.(bucket := s.bucket + {key}, used := s.used + {key},
                calls := s.calls[c := Upserting(request, item, KeyOf(s.files, item), key, item in s.files)]);
    assert Apply(t, run[3]).calls - {c} == s.calls;
  }

  lemma UndisturbedWrite(s: State, c: CallId, request: Id, item: Id, draw: nat, faults: Faults)
    requires c !in s.calls && Key(request, item, draw) !in s.used && KeyOf(s.files, item) != Some(Key(request, item, draw))
    requires Owns(s.items, request, item) && !faults.put
    ensures var run := RunAlone(s, c, request, item, true, draw, faults);
            var (stores, reply) := DepositAlone(s.items, StoresOf(s), request, item, true, draw, faults);
            && Runs(s, run) && StoresOf(Exec(s, run)) == stores && Answers(s, run) == [reply]
            && Exec(s, run).calls == s.calls
  {
    var run := RunAlone(s, c, request, item, true, draw, faults);
    UpToTheWrite(s, c, request, item, draw);
    TheWrite(s, c, request, item, draw, faults);
    Five(s, run[0], run[1], run[2], run[3], run[4]);
    assert run == [run[0]] + ([run[1]] + ([run[2]] + ([run[3]] + ([run[4]] + []))));
  }

  lemma UpToTheWrite(s: State, c: CallId, request: Id, item: Id, draw: nat)
    requires c !in s.calls && Key(request, item, draw) !in s.used && Owns(s.items, request, item)
    ensures Enabled(s, Lookup(c, request, item, true))
    ensures var s1 := Apply(s, Lookup(c, request, item, true));
            && Enabled(s1, Put(c, draw))
            && Enabled(Apply(s1, Put(c, draw)), UpsertRead(c))
            && Apply(Apply(s1, Put(c, draw)), UpsertRead(c))
               == s.(bucket := s.bucket + {Key(request, item, draw)}, used := s.used + {Key(request, item, draw)},
                     calls := s.calls[c := Upserting(request, item, KeyOf(s.files, item), Key(request, item, draw), item in s.files)])
  {
    var key := Key(request, item, draw);
    var s1 := Become(s, c, Found(request, item, KeyOf(s.files, item)));
    var s2 := Become(s, c, Stored(request, item, KeyOf(s.files, item), key)).(bucket := s.bucket + {key}, used := s.used + {key});
    assert Apply(s, Lookup(c, request, item, true)) == s1;
    assert Apply(s1, Put(c, draw)) == s2;
  }
}
