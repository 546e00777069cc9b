/** Object keys: `requests/<request>/items/<item>/<16 hex digits>-<sanitised name>`. */
module StorageKeys {
  /** Names are JavaScript strings: sequences of 16-bit units, of which one character may take two. */
  type CodeUnit = x: int | 0 <= x < 0x1_0000

  const NAME_LIMIT: nat := 100

  predicate Allowed(c: char) {
    'A' <= c <= 'Z' || 'a' <= c <= 'z' || '0' <= c <= '9' || c == '.' || c == '_' || c == '-'
  }

  predicate Plain(s: string) {
    forall c | c in s :: Allowed(c)
  }

  predicate SlashFree(s: string) {
    '/' !in s
  }

  // ---------------------------------------------------------------------
  // The chain of replacements
  // ---------------------------------------------------------------------

  /** Unit by unit: what is not allowed in a key gives way to a dash. */
  function Dashed(name: seq<CodeUnit>): (s: string)
    ensures |s| == |name|
  {
    seq(|name|, i requires 0 <= i < |name| =>
      if name[i] < 128 && Allowed(name[i] as char) then name[i] as char else '-')
  }

  /** Runs of dots become one dot. */
  function OneDot(s: string): string {
    if |s| < 2 then s
    else if s[0] == '.' && s[1] == '.' then OneDot(s[1..])
    else [s[0]] + OneDot(s[1..])
  }

  function NoLead(s: string): string {
    if s != "" && (s[0] == '.' || s[0] == '-') then NoLead(s[1..]) else s
  }

  function Cut(s: string): string {
    if |s| <= NAME_LIMIT then s else s[..NAME_LIMIT]
  }

  /** Applied to the name once NFKD has normalised it, whatever that gives. */
  function SafeName(normalised: seq<CodeUnit>): string {
    var s := Cut(NoLead(OneDot(Dashed(normalised))));
    if s == "" then "file" else s
  }

  function BuildStorageKey(requestId: string, itemId: string, nonce: string, normalised: seq<CodeUnit>): string {
    "requests/" + requestId + "/items/" + itemId + "/" + nonce + "-" + SafeName(normalised)
  }

  predicate IsNonce(s: string) {
    |s| == 16 && forall c | c in s :: '0' <= c <= '9' || 'a' <= c <= 'f'
  }

  // ---------------------------------------------------------------------
  // What a safe name is
  // ---------------------------------------------------------------------

  predicate NoDotDot(s: string) {
    forall i | 0 <= i < |s| - 1 :: !(s[i] == '.' && s[i + 1] == '.')
  }

  /** A path segment: not empty, bounded, never hidden, never climbing. */
  predicate IsSafe(s: string) {
    && 0 < |s| <= NAME_LIMIT && Plain(s) && NoDotDot(s)
    && s[0] != '.' && s[0] != '-'
  }

  lemma TailStaysGood(s: string)
    requires s != ""
    ensures Plain(s) ==> Plain(s[1..])
    ensures NoDotDot(s) ==> NoDotDot(s[1..])
  {
    assert forall c | c in s[1..] :: c in s;
    if NoDotDot(s) {
      forall i | 0 <= i < |s[1..]| - 1 ensures !(s[1..][i] == '.' && s[1..][i + 1] == '.') {
        assert !(s[i + 1] == '.' && s[i + 2] == '.');
      }
    }
  }

  lemma ConsStaysGood(c: char, rest: string)
    requires Allowed(c) && Plain(rest) && NoDotDot(rest) && (rest != "" && c == '.' ==> rest[0] != '.')
    ensures Plain([c] + rest) && NoDotDot([c] + rest)
  {
    var r := [c] + rest;
    forall i | 0 <= i < |r| - 1 ensures !(r[i] == '.' && r[i + 1] == '.') {
      if i > 0 {
        assert r[i] == rest[i - 1] && r[i + 1] == rest[i];
      }
    }
  }

  lemma {:induction false} OneDotWorks(s: string)
    requires Plain(s)
    ensures Plain(OneDot(s)) && NoDotDot(OneDot(s))
    ensures s != "" ==> OneDot(s) != "" && OneDot(s)[0] == s[0]
  {
    if |s| >= 2 {
      TailStaysGood(s);
      OneDotWorks(s[1..]);
      if !(s[0] == '.' && s[1] == '.') {
        assert s[0] in s;
        ConsStaysGood(s[0], OneDot(s[1..]));
      }
    }
  }

  lemma {:induction false} OneDotKeeps(s: string)
    requires NoDotDot(s)
    ensures OneDot(s) == s
  {
    if |s| >= 2 {
      TailStaysGood(s);
      OneDotKeeps(s[1..]);
      assert s == [s[0]] + s[1..];
    }
  }

  lemma {:induction false} NoLeadWorks(s: string)
    requires Plain(s) && NoDotDot(s)
    ensures Plain(NoLead(s)) && NoDotDot(NoLead(s))
    ensures NoLead(s) != "" ==> NoLead(s)[0] != '.' && NoLead(s)[0] != '-'
  {
    if s != "" && (s[0] == '.' || s[0] == '-') {
      TailStaysGood(s);
      NoLeadWorks(s[1..]);
    }
  }

  lemma CutWorks(s: string)
    requires Plain(s) && NoDotDot(s)
    ensures Plain(Cut(s)) && NoDotDot(Cut(s)) && |Cut(s)| <= NAME_LIMIT
  {
    if |s| > NAME_LIMIT {
      assert forall c | c in s[..NAME_LIMIT] :: c in s;
    }
  }

  lemma DashedIsPlain(name: seq<CodeUnit>)
    ensures Plain(Dashed(name))
  {
    forall c | c in Dashed(name) ensures Allowed(c) {
      var i :| 0 <= i < |name| && Dashed(name)[i] == c;
    }
  }

  /** Whatever the client called its file, the name that enters the key is safe. */
  lemma SafeNameIsSafe(normalised: seq<CodeUnit>)
    ensures IsSafe(SafeName(normalised))
  {
    var s := Dashed(normalised);
    DashedIsPlain(normalised);
    OneDotWorks(s);
    NoLeadWorks(OneDot(s));
    CutWorks(NoLead(OneDot(s)));
  }

  // ---------------------------------------------------------------------
  // Which units survive
  // ---------------------------------------------------------------------

  /** Letters, digits, dot, underscore and dash stand for themselves; anything else is told as a dash. */
  function Told(u: CodeUnit): char {
    if 48 <= u <= 57 || 65 <= u <= 90 || 97 <= u <= 122 || u == 45 || u == 46 || u == 95 then u as char else '-'
  }

  predicate Leads(name: seq<CodeUnit>, i: int)
    requires 0 <= i < |name|
  {
    Told(name[i]) == '.' || Told(name[i]) == '-'
  }

  /** A dot that another dot follows. */
  predicate Doubled(name: seq<CodeUnit>, i: int)
    requires 0 <= i < |name|
  {
    i + 1 < |name| && name[i] == 46 && name[i + 1] == 46
  }

  predicate Increasing(at: seq<nat>) {
    forall j, k | 0 <= j < k < |at| :: at[j] < at[k]
  }

  /** `s` is told by the units of `name` at the places `at`, in their order. */
  predicate Tells(name: seq<CodeUnit>, at: seq<nat>, s: string) {
    && Increasing(at) && |at| == |s|
    && forall j | 0 <= j < |at| :: at[j] < |name| && s[j] == Told(name[at[j]])
  }

  lemma DashedTells(name: seq<CodeUnit>)
    ensures forall i | 0 <= i < |name| :: Dashed(name)[i] == Told(name[i])
  {
  }

  lemma ConsTells(name: seq<CodeUnit>, from: nat, at: seq<nat>, rest: string)
    requires from < |name| && Tells(name, at, rest) && forall j | 0 <= j < |at| :: from < at[j]
    ensures Tells(name, [from] + at, [Told(name[from])] + rest)
  {
  }

  lemma CollapseOne(name: seq<CodeUnit>, from: nat)
    requires from < |name|
    ensures var s := Dashed(name)[from..]; var rest := Dashed(name)[from + 1..];
            OneDot(s) == if Doubled(name, from) then OneDot(rest) else [Told(name[from])] + OneDot(rest)
  {
    var s := Dashed(name)[from..];
    DashedTells(name);
    assert s[1..] == Dashed(name)[from + 1..];
    if |s| == 1 {
      assert s == [Told(name[from])];
    }
  }

  /** The places kept from `from` on: exactly those of no doubled dot. */
  ghost predicate KeptFrom(name: seq<CodeUnit>, from: nat, at: seq<nat>) {
    && (forall j | 0 <= j < |at| :: from <= at[j] < |name| && !Doubled(name, at[j]))
    && (forall i | from <= i < |name| && !Doubled(name, i) :: i in at)
  }

  lemma KeptOneMore(name: seq<CodeUnit>, from: nat, at: seq<nat>)
    requires from < |name| && KeptFrom(name, from + 1, at)
    ensures KeptFrom(name, from, if Doubled(name, from) then at else [from] + at)
  {
    if !Doubled(name, from) {
      var all := [from] + at;
      forall i | from <= i < |name| && !Doubled(name, i) ensures i in all {
        assert i == from || i in at;
      }
    }
  }

  /** Collapsing leaves out exactly the dots that another dot follows. */
  lemma {:induction false} CollapseTells(name: seq<CodeUnit>, from: nat) returns (at: seq<nat>)
    requires from <= |name|
    ensures Tells(name, at, OneDot(Dashed(name)[from..])) && KeptFrom(name, from, at)
    decreases |name| - from
  {
    if from == |name| {
      at := [];
    } else {
      at := CollapseTells(name, from + 1);
      CollapseOne(name, from);
      KeptOneMore(name, from, at);
      if !Doubled(name, from) {
        ConsTells(name, from, at, OneDot(Dashed(name)[from + 1..]));
        at := [from] + at;
      }
    }
  }

  /** The leading dots and dashes go: `NoLead` starts at the first that is neither. */
  lemma {:induction false} LeadGoes(s: string) returns (n: nat)
    ensures n <= |s| && NoLead(s) == s[n..]
    ensures forall j | 0 <= j < n :: s[j] == '.' || s[j] == '-'
    ensures n < |s| ==> s[n] != '.' && s[n] != '-'
  {
    if s != "" && (s[0] == '.' || s[0] == '-') {
      var m := LeadGoes(s[1..]);
      n := m + 1;
      assert s[1..][m..] == s[n..];
      assert forall j | 0 < j < n :: s[j] == s[1..][j - 1];
    } else {
      n := 0;
    }
  }

  lemma SliceTells(name: seq<CodeUnit>, at: seq<nat>, s: string, n: nat, m: nat)
    requires Tells(name, at, s) && n <= m <= |s|
    ensures Tells(name, at[n..m], s[n..m])
  {
  }

  /** From the first unit that is neither told as a dot nor as a dash, the first hundred that no other dot follows. */
  ghost predicate Survivors(name: seq<CodeUnit>, at: seq<nat>) {
    && 0 < |at| <= 100 && (forall j | 0 <= j < |at| :: at[j] < |name| && !Doubled(name, at[j]))
    && !Leads(name, at[0]) && (forall i | 0 <= i < at[0] :: Leads(name, i))
    && forall i | at[0] <= i < |name| && !Doubled(name, i) :: i in at || (|at| == 100 && i > at[99])
  }

  lemma CollapsedAll(name: seq<CodeUnit>) returns (at: seq<nat>)
    ensures Tells(name, at, OneDot(Dashed(name)))
    ensures forall j | 0 <= j < |at| :: at[j] < |name| && !Doubled(name, at[j])
    ensures forall i | 0 <= i < |name| && !Doubled(name, i) :: i in at
  {
    at := CollapseTells(name, 0);
    assert Dashed(name)[0..] == Dashed(name);
  }

  lemma CutIsASlice(s: string, n: nat)
    requires n <= |s|
    ensures Cut(s[n..]) == s[n..if |s| - n <= 100 then |s| else n + 100]
  {
  }

  /**
   * The safe name of any name tells, in their order, its units from the first that is neither a dot nor a dash,
   * short of the dots that another dot follows, and the first hundred of those; it is "file" only if there are
   * none.
   */
  lemma WhatSurvives(name: seq<CodeUnit>) returns (at: seq<nat>)
    ensures if forall i | 0 <= i < |name| :: Leads(name, i) then SafeName(name) == "file"
            else Survivors(name, at) && Tells(name, at, SafeName(name))
  {
    var all := CollapsedAll(name);
    var s := OneDot(Dashed(name));
    var n := LeadGoes(s);
    LeadPlaces(name, all, s, n);
    CutIsASlice(s, n);
    if n == |s| {
      at := [];
    } else {
      var m := if |s| - n <= 100 then |s| else n + 100;
      at := all[n..m];
      SliceTells(name, all, s, n, m);
      CutPlaces(name, all, n, at);
      SurvivorsNotDoubled(name, all, n, m);
      assert Tells(name, at, SafeName(name));
    }
  }

  lemma SurvivorsNotDoubled(name: seq<CodeUnit>, all: seq<nat>, n: nat, m: nat)
    requires n <= m <= |all| && forall j | 0 <= j < |all| :: all[j] < |name| && !Doubled(name, all[j])
    ensures forall j | 0 <= j < m - n :: all[n..m][j] < |name| && !Doubled(name, all[n..m][j])
  {
  }

  /** The units before the first survivor are told as dots and dashes, and so are all if there is none. */
  lemma LeadPlaces(name: seq<CodeUnit>, all: seq<nat>, s: string, n: nat)
    requires Tells(name, all, s) && n <= |s| && forall i | 0 <= i < |name| && !Doubled(name, i) :: i in all
    requires forall j | 0 <= j < n :: s[j] == '.' || s[j] == '-'
    requires n < |s| ==> s[n] != '.' && s[n] != '-'
    ensures n < |s| ==> !Leads(name, all[n]) && forall i | 0 <= i < all[n] :: Leads(name, i)
    ensures n == |s| ==> forall i | 0 <= i < |name| :: Leads(name, i)
  {
    forall i | 0 <= i < |name| && (n < |s| ==> i < all[n]) ensures Leads(name, i) {
      if !Doubled(name, i) {
        var j :| 0 <= j < |all| && all[j] == i;
        assert j < n;
        assert s[j] == Told(name[all[j]]);
      }
    }
  }

  lemma CutPlaces(name: seq<CodeUnit>, all: seq<nat>, n: nat, at: seq<nat>)
    requires Increasing(all) && n < |all| && forall i | 0 <= i < |name| && !Doubled(name, i) :: i in all
    requires at == all[n..if |all| - n <= 100 then |all| else n + 100]
    ensures at != [] && at[0] == all[n]
    ensures forall i | at[0] <= i < |name| && !Doubled(name, i) :: i in at || (|at| == 100 && i > at[99])
  {
    forall i | at[0] <= i < |name| && !Doubled(name, i) ensures i in at || (|at| == 100 && i > at[99]) {
      var j :| 0 <= j < |all| && all[j] == i;
      assert n <= j;
      if j - n < |at| {
        assert at[j - n] == i;
      }
    }
  }

  predicate Ascii(s: string) {
    forall i | 0 <= i < |s| :: s[i] < 128 as char
  }

  function Units(s: string): seq<CodeUnit>
    requires Ascii(s)
  {
    seq<CodeUnit>(|s|, i requires 0 <= i < |s| => s[i] as CodeUnit)
  }

  /** Sanitising changes exactly the names that are not safe already. */
  lemma SafeNamesAreKept(s: string)
    requires Ascii(s)
    ensures SafeName(Units(s)) == s <==> IsSafe(s)
  {
    SafeNameIsSafe(Units(s));
    if IsSafe(s) {
      forall i | 0 <= i < |s| ensures Dashed(Units(s))[i] == s[i] {
        assert s[i] in s;
      }
      assert Dashed(Units(s)) == s;
      OneDotKeeps(s);
    }
  }

  // ---------------------------------------------------------------------
  // Segments, prefixes, and who owns a key
  // ---------------------------------------------------------------------

  /** `s.split('/')` */
  function Segments(s: string): (parts: seq<string>)
    ensures parts != []
  {
    if s == "" then [""]
    else
      var rest := Segments(s[1..]);
      if s[0] == '/' then [""] + rest else [[s[0]] + rest[0]] + rest[1..]
  }

  lemma {:induction false} SegmentThenRest(a: string, b: string)
    requires SlashFree(a)
    ensures Segments(a + "/" + b) == [a] + Segments(b)
  {
    var s := a + "/" + b;
    if a == "" {
      assert s[1..] == b;
    } else {
      assert a == [a[0]] + a[1..];
      assert s[1..] == a[1..] + "/" + b;
      assert SlashFree(a[1..]);
      assert a[0] in a;
      SegmentThenRest(a[1..], b);
    }
  }

  lemma {:induction false} OneSegment(a: string)
    requires SlashFree(a)
    ensures Segments(a) == [a]
  {
    if a != "" {
      assert a[0] in a && SlashFree(a[1..]);
      assert a == [a[0]] + a[1..];
      OneSegment(a[1..]);
    }
  }

  function FileSegment(nonce: string, normalised: seq<CodeUnit>): string {
    nonce + "-" + SafeName(normalised)
  }

  lemma FileSegmentIsPlain(nonce: string, normalised: seq<CodeUnit>)
    requires IsNonce(nonce)
    ensures var last := FileSegment(nonce, normalised);
            SlashFree(last) && last != "" && NoDotDot(last) && last[0] != '.'
  {
    var name := SafeName(normalised);
    var last := FileSegment(nonce, normalised);
    SafeNameIsSafe(normalised);
    forall c | c in last ensures c != '/' {
      assert c in nonce || c == '-' || c in name;
    }
    forall i | 0 <= i < |last| - 1 ensures !(last[i] == '.' && last[i + 1] == '.') {
      if i < 16 {
        assert last[i] == nonce[i] && nonce[i] in nonce;
      } else if i > 16 {
        assert last[i] == name[i - 17] && last[i + 1] == name[i - 16];
      }
    }
    assert last[0] == nonce[0] && nonce[0] in nonce;
  }

  lemma FourThenLast(a: string, b: string, c: string, d: string, last: string)
    requires SlashFree(a) && SlashFree(b) && SlashFree(c) && SlashFree(d) && SlashFree(last)
    ensures Segments(a + "/" + (b + "/" + (c + "/" + (d + "/" + last)))) == [a, b, c, d, last]
  {
    OneSegment(last);
    SegmentThenRest(d, last);
    SegmentThenRest(c, d + "/" + last);
    SegmentThenRest(b, c + "/" + (d + "/" + last));
    SegmentThenRest(a, b + "/" + (c + "/" + (d + "/" + last)));
  }

  lemma KeyShape(requestId: string, itemId: string, nonce: string, normalised: seq<CodeUnit>)
    ensures BuildStorageKey(requestId, itemId, nonce, normalised)
            == "requests" + "/" + (requestId + "/" + ("items" + "/" + (itemId + "/" + FileSegment(nonce, normalised))))
  {
    var last := FileSegment(nonce, normalised);
    var item := itemId + "/" + last;
    var key := BuildStorageKey(requestId, itemId, nonce, normalised);
    assert "/items/" == "/" + ("items" + "/") && "requests/" == "requests" + "/";
    assert key == ("requests/" + requestId + "/items/") + (itemId + "/" + nonce + "-" + SafeName(normalised));
    assert itemId + "/" + nonce + "-" + SafeName(normalised) == item;
    assert "requests/" + requestId + "/items/" == "requests" + "/" + (requestId + "/" + ("items" + "/"));
  }

  /** Five segments, and the last one is neither empty, hidden nor climbing. */
  lemma FiveSegments(requestId: string, itemId: string, nonce: string, normalised: seq<CodeUnit>)
    requires SlashFree(requestId) && SlashFree(itemId) && IsNonce(nonce)
    ensures var last := FileSegment(nonce, normalised);
            && Segments(BuildStorageKey(requestId, itemId, nonce, normalised)) == ["requests", requestId, "items", itemId, last]
            && last == nonce + "-" + SafeName(normalised)
            && last != "" && NoDotDot(last) && last[0] != '.'
  {
    FileSegmentIsPlain(nonce, normalised);
    KeyShape(requestId, itemId, nonce, normalised);
    FourThenLast("requests", requestId, "items", itemId, FileSegment(nonce, normalised));
  }

  /** What a deletion by prefix is given for a request. */
  function RequestPrefix(requestId: string): string {
    "requests/" + requestId + "/"
  }

  lemma SameFirstSegment(a: string, b: string, x: string, y: string)
    requires SlashFree(a) && SlashFree(b) && a + "/" + x == b + "/" + y
    ensures a == b
  {
    SegmentThenRest(a, x);
    SegmentThenRest(b, y);
    assert ([a] + Segments(x))[0] == ([b] + Segments(y))[0];
  }

  /** The prefix of a request catches the keys of that request and no other's. */
  lemma PrefixCatchesItsOwn(r: string, requestId: string, itemId: string, nonce: string, normalised: seq<CodeUnit>)
    requires SlashFree(r) && SlashFree(requestId)
    ensures RequestPrefix(r) <= BuildStorageKey(requestId, itemId, nonce, normalised) <==> r == requestId
  {
    var key := BuildStorageKey(requestId, itemId, nonce, normalised);
    var rest := "items" + "/" + (itemId + "/" + FileSegment(nonce, normalised));
    KeyShape(requestId, itemId, nonce, normalised);
    assert key == "requests/" + (requestId + "/" + rest);
    if RequestPrefix(r) <= key {
      var tail := key[|RequestPrefix(r)|..];
      assert key == "requests/" + (r + "/" + tail);
      assert key[9..] == r + "/" + tail && key[9..] == requestId + "/" + rest;
      SameFirstSegment(r, requestId, tail, rest);
    }
    if r == requestId {
      assert key == RequestPrefix(r) + rest;
    }
  }

  /** A key names its piece: keys of different pieces never collide, whatever the draws and the names. */
  lemma KeysNameTheirPiece(r1: string, i1: string, n1: string, u1: seq<CodeUnit>, r2: string, i2: string, n2: string, u2: seq<CodeUnit>)
    requires SlashFree(r1) && SlashFree(i1) && IsNonce(n1) && SlashFree(r2) && SlashFree(i2) && IsNonce(n2)
    requires BuildStorageKey(r1, i1, n1, u1) == BuildStorageKey(r2, i2, n2, u2)
    ensures r1 == r2 && i1 == i2 && n1 == n2 && SafeName(u1) == SafeName(u2)
  {
    FiveSegments(r1, i1, n1, u1);
    FiveSegments(r2, i2, n2, u2);
    var a, b := Segments(BuildStorageKey(r1, i1, n1, u1)), Segments(BuildStorageKey(r2, i2, n2, u2));
    assert a[1] == b[1] && a[3] == b[3] && a[4] == b[4];
    assert a[4][..16] == n1 && b[4][..16] == n2;
    assert a[4][17..] == SafeName(u1) && b[4][17..] == SafeName(u2);
  }
}
