/** The batched prune of terminal records, and what repeating it reaches. */
module BrokerPrune {
  import opened Basics
  import opened OrderedMap
  import opened BrokerModel
  import opened BrokerInvariant

  // ---- the sort -------------------------------------------------------

  predicate Sorted(xs: seq<Aged>) {
    forall i, j :: 0 <= i < j < |xs| ==> xs[i].time <= xs[j].time
  }

  /** The elements of one time, in order. */
  function AtTime(xs: seq<Aged>, time: int): seq<Aged> {
    if xs == [] then []
    else AtTime(xs[..|xs| - 1], time) + if xs[|xs| - 1].time == time then [xs[|xs| - 1]] else []
  }

  lemma InsertSnoc(xs: seq<Aged>, z: Aged, x: Aged)
    ensures Insert(xs + [z], x) == if z.time <= x.time then xs + [z, x] else Insert(xs, x) + [z]
  {
    assert (xs + [z])[..|xs|] == xs;
  }

  lemma {:induction false} InsertMembers(xs: seq<Aged>, x: Aged)
    ensures multiset(Insert(xs, x)) == multiset(xs) + multiset{x}
    ensures forall y :: y in Insert(xs, x) <==> y == x || y in xs
  {
    if xs != [] {
      var front, z := xs[..|xs| - 1], xs[|xs| - 1];
      assert xs == front + [z];
      InsertMembers(front, x);
    }
  }

  lemma {:induction false} InsertSorted(xs: seq<Aged>, x: Aged)
    requires Sorted(xs)
    ensures Sorted(Insert(xs, x))
  {
    if xs != [] && xs[|xs| - 1].time > x.time {
      var front, z := xs[..|xs| - 1], xs[|xs| - 1];
      InsertSorted(front, x);
      InsertMembers(front, x);
      var w := Insert(front, x);
      forall i | 0 <= i < |w| ensures w[i].time <= z.time {
        assert w[i] in w;
      }
    }
  }

  lemma AtTimeSnoc(xs: seq<Aged>, z: Aged, time: int)
    ensures AtTime(xs + [z], time) == AtTime(xs, time) + if z.time == time then [z] else []
  {
    assert (xs + [z])[..|xs|] == xs;
  }

  lemma {:induction false} InsertStable(xs: seq<Aged>, x: Aged, time: int)
    ensures AtTime(Insert(xs, x), time) == AtTime(xs, time) + if x.time == time then [x] else []
  {
    if xs == [] || xs[|xs| - 1].time <= x.time {
      AtTimeSnoc(xs, x, time);
    } else {
      var front, z := xs[..|xs| - 1], xs[|xs| - 1];
      InsertStable(front, x, time);
      AtTimeSnoc(Insert(front, x), z, time);
    }
  }

  /** The sort orders by time, keeps the elements, and keeps the order of equals. */
  lemma {:induction false} SortSorts(xs: seq<Aged>)
    ensures Sorted(SortByTime(xs))
    ensures multiset(SortByTime(xs)) == multiset(xs)
    ensures forall time :: AtTime(SortByTime(xs), time) == AtTime(xs, time)
  {
    if xs != [] {
      var front, z := xs[..|xs| - 1], xs[|xs| - 1];
      assert xs == front + [z];
      SortSorts(front);
      InsertSorted(SortByTime(front), z);
      InsertMembers(SortByTime(front), z);
      forall time ensures AtTime(SortByTime(xs), time) == AtTime(xs, time) {
        InsertStable(SortByTime(front), z, time);
      }
    }
  }

  lemma SortMembers(xs: seq<Aged>)
    ensures |SortByTime(xs)| == |xs|
    ensures forall x :: x in SortByTime(xs) <==> x in xs
  {
    SortSorts(xs);
    forall x ensures x in SortByTime(xs) <==> x in xs {
      assert x in SortByTime(xs) <==> x in multiset(SortByTime(xs));
      assert x in xs <==> x in multiset(xs);
    }
    assert |multiset(SortByTime(xs))| == |multiset(xs)|;
  }

  /** The elements whose id is not in `gone`, in order. */
  function Spare(xs: seq<Aged>, gone: set<RequestId>): seq<Aged> {
    if xs == [] then []
    else
      var rest := Spare(xs[..|xs| - 1], gone);
      if xs[|xs| - 1].id in gone then rest else rest + [xs[|xs| - 1]]
  }

  lemma {:induction false} SpareMember(xs: seq<Aged>, gone: set<RequestId>, x: Aged)
    ensures x in Spare(xs, gone) <==> x in xs && x.id !in gone
  {
    if xs != [] {
      assert xs == xs[..|xs| - 1] + [xs[|xs| - 1]];
      SpareMember(xs[..|xs| - 1], gone, x);
    }
  }

  lemma SpareSnoc(xs: seq<Aged>, z: Aged, gone: set<RequestId>)
    ensures Spare(xs + [z], gone) == if z.id in gone then Spare(xs, gone) else Spare(xs, gone) + [z]
  {
    assert (xs + [z])[..|xs|] == xs;
  }

  lemma InsertLast(xs: seq<Aged>, x: Aged)
    requires forall i :: 0 <= i < |xs| ==> xs[i].time <= x.time
    ensures Insert(xs, x) == xs + [x]
  {
  }

  lemma {:induction false} SpareInsert(xs: seq<Aged>, x: Aged, gone: set<RequestId>)
    requires Sorted(xs)
    ensures Spare(Insert(xs, x), gone) == if x.id in gone then Spare(xs, gone) else Insert(Spare(xs, gone), x)
  {
    if xs == [] || xs[|xs| - 1].time <= x.time {
      SpareSnoc(xs, x, gone);
      var s := Spare(xs, gone);
      forall i | 0 <= i < |s| ensures s[i].time <= x.time {
        SpareMember(xs, gone, s[i]);
      }
      InsertLast(s, x);
    } else {
      var front, z := xs[..|xs| - 1], xs[|xs| - 1];
      SpareInsert(front, x, gone);
      SpareSnoc(Insert(front, x), z, gone);
      InsertSnoc(Spare(front, gone), z, x);
    }
  }

  lemma SortSnoc(xs: seq<Aged>, z: Aged)
    ensures SortByTime(xs + [z]) == Insert(SortByTime(xs), z)
  {
    assert (xs + [z])[..|xs|] == xs;
  }

  /** Removing elements and sorting can be done in either order. */
  lemma {:induction false} SpareSort(xs: seq<Aged>, gone: set<RequestId>)
    ensures Spare(SortByTime(xs), gone) == SortByTime(Spare(xs, gone))
  {
    if xs != [] {
      var front, z := xs[..|xs| - 1], xs[|xs| - 1];
      SpareSort(front, gone);
      SortSorts(front);
      SpareInsert(SortByTime(front), z, gone);
      SortSnoc(Spare(front, gone), z);
    }
  }

  // ---- what is terminal -----------------------------------------------

  /** The entry behind a terminal element. */
  predicate Stands(x: Aged, p: (RequestId, nat), entries: seq<Entry>) {
    && p.1 < |entries| && entries[p.1].status != Pending
    && x == Aged(p.0, entries[p.1].recordId, RecordTime(entries[p.1]))
  }

  lemma {:induction false} TerminalsStand(pending: seq<(RequestId, nat)>, entries: seq<Entry>, x: Aged)
    ensures x in Terminals(pending, entries) <==> exists i :: 0 <= i < |pending| && Stands(x, pending[i], entries)
  {
    if pending != [] {
      var front, p := pending[..|pending| - 1], pending[|pending| - 1];
      TerminalsStand(front, entries, x);
      if i :| 0 <= i < |front| && Stands(x, front[i], entries) { assert Stands(x, pending[i], entries); }
      if i :| 0 <= i < |pending| && Stands(x, pending[i], entries) {
        if i < |front| { assert Stands(x, front[i], entries); }
      }
    }
  }

  predicate DistinctIds(xs: seq<Aged>) {
    forall i, j :: 0 <= i < j < |xs| ==> xs[i].id != xs[j].id
  }

  lemma {:induction false} TerminalsDistinct(pending: seq<(RequestId, nat)>, entries: seq<Entry>)
    requires Distinct(pending)
    ensures DistinctIds(Terminals(pending, entries))
  {
    if pending != [] {
      var front, p := pending[..|pending| - 1], pending[|pending| - 1];
      TerminalsDistinct(front, entries);
      var w := Terminals(front, entries);
      forall i | 0 <= i < |w| ensures w[i].id != p.0 {
        TerminalsStand(front, entries, w[i]);
        var k :| 0 <= k < |front| && Stands(w[i], front[k], entries);
        assert pending[k].0 != pending[|pending| - 1].0;
      }
    }
  }

  lemma {:induction false} InsertDistinct(xs: seq<Aged>, x: Aged)
    requires DistinctIds(xs) && forall i :: 0 <= i < |xs| ==> xs[i].id != x.id
    ensures DistinctIds(Insert(xs, x))
  {
    if xs == [] || xs[|xs| - 1].time <= x.time {
    } else {
      var front, z := xs[..|xs| - 1], xs[|xs| - 1];
      assert xs == front + [z];
      InsertDistinct(front, x);
      InsertMembers(front, x);
      var w := Insert(front, x);
      forall i | 0 <= i < |w| ensures w[i].id != z.id {
        assert w[i] in w;
      }
    }
  }

  lemma {:induction false} SortDistinct(xs: seq<Aged>)
    requires DistinctIds(xs)
    ensures DistinctIds(SortByTime(xs))
  {
    if xs != [] {
      var front, z := xs[..|xs| - 1], xs[|xs| - 1];
      SortDistinct(front);
      SortMembers(front);
      var w := SortByTime(front);
      forall i | 0 <= i < |w| ensures w[i].id != z.id {
        assert w[i] in front;
      }
      InsertDistinct(w, z);
    }
  }

  /** What one listed pair adds to the terminal list. */
  function TerminalOf(p: (RequestId, nat), entries: seq<Entry>): seq<Aged> {
    if p.1 < |entries| && entries[p.1].status != Pending
    then [Aged(p.0, entries[p.1].recordId, RecordTime(entries[p.1]))] else []
  }

  lemma TerminalsSnoc(pending: seq<(RequestId, nat)>, p: (RequestId, nat), entries: seq<Entry>)
    ensures Terminals(pending + [p], entries) == Terminals(pending, entries) + TerminalOf(p, entries)
  {
    var w: seq<(RequestId, nat)> := pending + [p];
    assert w[..|w| - 1] == pending;
  }

  lemma {:induction false} TerminalsWithout(pending: seq<(RequestId, nat)>, entries: seq<Entry>, gone: set<RequestId>)
    ensures Terminals(Without<RequestId, nat>(pending, gone), entries) == Spare(Terminals(pending, entries), gone)
  {
    if pending != [] {
      var front, p := pending[..|pending| - 1], pending[|pending| - 1];
      TerminalsWithout(front, entries, gone);
      TerminalsSnoc(Without<RequestId, nat>(front, gone), p, entries);
      assert pending == front + [p];
      TerminalsSnoc(front, p, entries);
      var t, w := TerminalOf(p, entries), Without<RequestId, nat>(front, gone);
      if t == [] {
        assert Terminals(front, entries) + [] == Terminals(front, entries);
        assert Terminals(w, entries) + [] == Terminals(w, entries);
      } else {
        SpareSnoc(Terminals(front, entries), t[0], gone);
      }
    }
  }

  lemma {:induction false} SpareAll(xs: seq<Aged>, gone: set<RequestId>)
    requires forall i :: 0 <= i < |xs| ==> xs[i].id in gone
    ensures Spare(xs, gone) == []
  {
    if xs != [] { SpareAll(xs[..|xs| - 1], gone); }
  }

  lemma {:induction false} SparePrefix(xs: seq<Aged>, n: nat, m: nat)
    requires n <= m <= |xs| && DistinctIds(xs)
    ensures Spare(xs[..m], Ids(xs[..n])) == xs[n..m]
  {
    hide Ids, DistinctIds;
    IdsOfFirst(xs, n, m);
    if m == n {
      SpareAll(xs[..n], Ids(xs[..n]));
    } else {
      SparePrefix(xs, n, m - 1);
      assert xs[..m][..m - 1] == xs[..m - 1] && xs[n..m] == xs[n..m - 1] + [xs[m - 1]];
    }
  }

  lemma IdsOfFirst(xs: seq<Aged>, n: nat, m: nat)
    requires n <= m <= |xs| && DistinctIds(xs)
    ensures forall i :: 0 <= i < n ==> xs[..n][i].id in Ids(xs[..n])
    ensures n < m ==> xs[m - 1].id !in Ids(xs[..n])
  {
    forall i | 0 <= i < n ensures xs[..n][i].id in Ids(xs[..n]) { assert xs[..n][i] in xs[..n]; }
  }

  // ---- the oldest go first --------------------------------------------

  /** In a sorted list the records past the age limit come first. */
  lemma {:induction false} OldComeFirst(xs: seq<Aged>, now: int, maxAge: int)
    requires Sorted(xs)
    ensures CountOld(xs, now, maxAge) <= |xs|
    ensures forall i :: 0 <= i < |xs| ==> (TooOld(xs[i], now, maxAge) <==> i < CountOld(xs, now, maxAge))
  {
    if xs != [] { OldComeFirst(xs[..|xs| - 1], now, maxAge); }
  }

  lemma {:induction false} CountOldTail(xs: seq<Aged>, n: nat, now: int, maxAge: int)
    requires n <= |xs|
    ensures CountOld(xs, now, maxAge) == CountOld(xs[..n], now, maxAge) + CountOld(xs[n..], now, maxAge)
  {
    if n == |xs| {
      assert xs[..n] == xs && xs[n..] == [];
    } else {
      var front := xs[..|xs| - 1];
      CountOldTail(front, n, now, maxAge);
      assert front[..n] == xs[..n] && xs[n..][..|xs| - n - 1] == front[n..];
    }
  }

  lemma {:induction false} CountOldTake(xs: seq<Aged>, n: nat, c: nat, now: int, maxAge: int)
    requires n <= |xs| && forall i :: 0 <= i < |xs| ==> (TooOld(xs[i], now, maxAge) <==> i < c)
    ensures CountOld(xs[..n], now, maxAge) == Min(n, c)
  {
    if n > 0 {
      CountOldTake(xs, n - 1, c, now, maxAge);
      assert xs[..n][..n - 1] == xs[..n - 1];
    }
  }

  lemma ExcessAfter(xs: seq<Aged>, n: nat, now: int, maxAge: int, maxCount: nat)
    requires Sorted(xs) && n <= Excess(xs, now, maxAge, maxCount)
    ensures n <= |xs|
    ensures Excess(xs[n..], now, maxAge, maxCount) == Excess(xs, now, maxAge, maxCount) - n
  {
    OldComeFirst(xs, now, maxAge);
    CountOldTail(xs, n, now, maxAge);
    CountOldTake(xs, n, CountOld(xs, now, maxAge), now, maxAge);
  }

  function Old(s: State): seq<Aged> { SortByTime(Terminals(s.pending, s.entries)) }

  function Cut(s: State, now: int, maxAge: int, maxCount: nat, batch: nat): nat {
    Min(batch, Excess(Old(s), now, maxAge, maxCount))
  }

  lemma ExcessBound(s: State, now: int, maxAge: int, maxCount: nat)
    ensures Excess(Old(s), now, maxAge, maxCount) <= |Old(s)|
  {
    SortSorts(Terminals(s.pending, s.entries));
    OldComeFirst(Old(s), now, maxAge);
  }

  lemma PruneChoice(s: State, n: nat)
    requires Inv(s) && n <= |Old(s)|
    ensures var gone := Old(s)[..n];
      && SameChoice(s.entries, s.pending, Ids(gone), RecordIds(gone))
      && (forall h :: 0 <= h < |s.entries| && s.entries[h].status == Pending ==> s.entries[h].id !in Ids(gone))
  {
    var gone := Old(s)[..n];
    forall x | x in gone ensures Origin(s, x) { OldOrigin(s, x); }
    forall h | 0 <= h < |s.entries| && Listed(h, s.entries, s.pending)
      ensures s.entries[h].id in Ids(gone) <==> s.entries[h].recordId in RecordIds(gone)
    {
      if s.entries[h].id in Ids(gone) {
        var x :| x in gone && x.id == s.entries[h].id;
        assert Origin(s, x);
        SameEntry(s, x, h);
      }
      if s.entries[h].recordId in RecordIds(gone) {
        var x :| x in gone && x.recordId == s.entries[h].recordId;
        assert Origin(s, x);
        SameEntry(s, x, h);
      }
    }
    forall h | 0 <= h < |s.entries| && s.entries[h].status == Pending ensures s.entries[h].id !in Ids(gone) {
      if s.entries[h].id in Ids(gone) {
        var x :| x in gone && x.id == s.entries[h].id;
        assert Origin(s, x);
        SameEntry(s, x, h);
      }
    }
  }

  /** A sorted element speaks for one terminal entry. */
  predicate Origin(s: State, x: Aged) {
    exists h :: 0 <= h < |s.entries| && IsOrigin(s.entries[h], x)
  }

  predicate IsOrigin(e: Entry, x: Aged) {
    e.id == x.id && e.recordId == x.recordId && e.status != Pending && RecordTime(e) == x.time
  }

  lemma OldOrigin(s: State, x: Aged)
    requires Inv(s) && x in Old(s)
    ensures Origin(s, x)
  {
    SortMembers(Terminals(s.pending, s.entries));
    TerminalsStand(s.pending, s.entries, x);
    var i :| 0 <= i < |s.pending| && Stands(x, s.pending[i], s.entries);
    assert s.pending[i] in s.pending && PairOk(s.pending[i], s.byId, s.entries);
    assert IsOrigin(s.entries[s.pending[i].1], x);
  }

  lemma SameEntry(s: State, x: Aged, h: nat)
    requires Inv(s) && Origin(s, x) && h < |s.entries|
    requires s.entries[h].id == x.id || s.entries[h].recordId == x.recordId
    ensures IsOrigin(s.entries[h], x)
  {
    var g :| 0 <= g < |s.entries| && IsOrigin(s.entries[g], x);
    forall a, b | 0 <= a < b < |s.entries|
      ensures s.entries[a].id != s.entries[b].id && s.entries[a].recordId != s.entries[b].recordId
    {
      assert Differ(s.entries[a], s.entries[b]);
    }
    assert g == h;
  }

  lemma PruneKeeps(s: State, now: int, maxAge: int, maxCount: nat, batch: nat)
    requires Inv(s)
    ensures var t := Prune(s, now, maxAge, maxCount, batch).0; Inv(t) && Forward(s, t) && t.entries == s.entries
  {
    var (t, n) := Prune(s, now, maxAge, maxCount, batch);
    PruneChoice(s, n);
    var gone := Old(s)[..n];
    forall h | 0 <= h < |s.entries| && !s.entries[h].settled ensures s.entries[h].id !in Ids(gone) {
      assert EntryOk(s.entries[h], s.ttl);
    }
    RemoveKeeps(s, Ids(gone), RecordIds(gone), t);
  }

  /** One sweep removes exactly the `Cut` oldest terminal records, in stable time
      order and from all three maps, and never a pending one. */
  lemma PruneClosedForm(s: State, now: int, maxAge: int, maxCount: nat, batch: nat)
    requires Inv(s)
    ensures var (t, n) := Prune(s, now, maxAge, maxCount, batch);
      && n == Min(batch, Max(CountOld(Old(s), now, maxAge), Max(|Old(s)| - maxCount, 0)))
      && n <= |Old(s)| && Old(t) == Old(s)[n..]
      && (forall p :: p in t.pending <==> p in s.pending && p.0 !in Ids(Old(s)[..n]))
      && (forall k :: k in t.byId <==> k in s.byId && k !in RecordIds(Old(s)[..n]))
      && (forall k :: k in t.policies <==> k in s.policies && k !in RecordIds(Old(s)[..n]))
      && (forall p :: p in s.pending && p.1 < |s.entries| && s.entries[p.1].status == Pending ==> p in t.pending)
      && (forall x, y :: x in Old(s)[..n] && y in Old(t) ==> x.time <= y.time)
  {
    var (t, n) := Prune(s, now, maxAge, maxCount, batch);
    PruneIsRemove(s, now, maxAge, maxCount, batch);
    hide Prune, Inv, Old, Ids, RecordIds, Remove, CountOld;
    RemovedMaps(s, Old(s)[..n]);
    PendingStays(s, n);
    OldAfter(s, n);
    OldestFirst(s, n);
  }

  lemma PruneIsRemove(s: State, now: int, maxAge: int, maxCount: nat, batch: nat)
    ensures var (t, n) := Prune(s, now, maxAge, maxCount, batch);
      n <= |Old(s)| && t == Remove(s, Old(s)[..n])
      && n == Min(batch, Max(CountOld(Old(s), now, maxAge), Max(|Old(s)| - maxCount, 0)))
  {
    ExcessBound(s, now, maxAge, maxCount);
    hide SortByTime, Terminals, CountOld, Remove;
  }

  lemma RemovedMaps(s: State, gone: seq<Aged>)
    ensures var t := Remove(s, gone);
      && (forall p :: p in t.pending <==> p in s.pending && p.0 !in Ids(gone))
      && (forall k :: k in t.byId <==> k in s.byId && k !in RecordIds(gone))
      && (forall k :: k in t.policies <==> k in s.policies && k !in RecordIds(gone))
  {
    hide Ids, RecordIds;
    forall p: (RequestId, nat) ensures p in Remove(s, gone).pending <==> p in s.pending && p.0 !in Ids(gone) {
      WithoutMember<RequestId, nat>(s.pending, Ids(gone), p);
    }
  }

  lemma PendingStays(s: State, n: nat)
    requires Inv(s) && n <= |Old(s)|
    ensures forall p :: p in s.pending && p.1 < |s.entries| && s.entries[p.1].status == Pending ==>
      p in Remove(s, Old(s)[..n]).pending
  {
    PruneChoice(s, n);
    RemovedMaps(s, Old(s)[..n]);
    forall p | p in s.pending ensures p.1 < |s.entries| && s.entries[p.1].id == p.0 {
      assert PairOk(p, s.byId, s.entries);
    }
    hide Inv, Old, Ids, RecordIds, Remove;
  }

  lemma OldAfter(s: State, n: nat)
    requires Inv(s) && n <= |Old(s)|
    ensures Old(Remove(s, Old(s)[..n])) == Old(s)[n..]
  {
    var old_ := Old(s);
    var gone := old_[..n];
    TerminalsWithout(s.pending, s.entries, Ids(gone));
    SpareSort(Terminals(s.pending, s.entries), Ids(gone));
    TerminalsDistinct(s.pending, s.entries);
    SortDistinct(Terminals(s.pending, s.entries));
    SparePrefix(old_, n, |old_|);
    assert old_[..|old_|] == old_;
  }

  lemma OldSorted(s: State)
    ensures Sorted(Old(s))
  {
    SortSorts(Terminals(s.pending, s.entries));
  }

  lemma OldestFirst(s: State, n: nat)
    requires n <= |Old(s)|
    ensures forall x, y :: x in Old(s)[..n] && y in Old(s)[n..] ==> x.time <= y.time
  {
    OldSorted(s);
    hide Old;
  }

  function Sweeps(s: State, k: nat, now: int, maxAge: int, maxCount: nat, batch: nat): State
    decreases k
  {
    if k == 0 then s else Sweeps(Prune(s, now, maxAge, maxCount, batch).0, k - 1, now, maxAge, maxCount, batch)
  }

  function ExcessAt(s: State, now: int, maxAge: int, maxCount: nat): nat { Excess(Old(s), now, maxAge, maxCount) }

  lemma PruneShrinks(s: State, now: int, maxAge: int, maxCount: nat, batch: nat)
    requires Inv(s)
    ensures var t := Prune(s, now, maxAge, maxCount, batch).0;
      ExcessAt(t, now, maxAge, maxCount) == Max(ExcessAt(s, now, maxAge, maxCount) - batch, 0)
  {
    hide Prune, Inv, Old, Sorted, CountOld, Ids, RecordIds;
    PruneClosedForm(s, now, maxAge, maxCount, batch);
    OldSorted(s);
    ExcessAfter(Old(s), Cut(s, now, maxAge, maxCount, batch), now, maxAge, maxCount);
  }

  /** What `k` batches take off an excess. */
  function LeftAfter(excess: nat, k: nat, batch: nat): nat {
    if k == 0 then excess else LeftAfter(Max(excess - batch, 0), k - 1, batch)
  }

  lemma {:induction false} LeftAfterIs(excess: nat, k: nat, batch: nat)
    ensures LeftAfter(excess, k, batch) == Max(excess - k * batch, 0)
    decreases k
  {
    if k > 0 {
      LeftAfterIs(Max(excess - batch, 0), k - 1, batch);
      assert k * batch == (k - 1) * batch + batch;
    }
  }

  /** Each sweep takes its batch off the excess, until there is none. */
  lemma {:induction false} SweepsShrink(s: State, k: nat, now: int, maxAge: int, maxCount: nat, batch: nat)
    requires Inv(s)
    ensures var t := Sweeps(s, k, now, maxAge, maxCount, batch);
      && Inv(t) && t.entries == s.entries
      && ExcessAt(t, now, maxAge, maxCount) == LeftAfter(ExcessAt(s, now, maxAge, maxCount), k, batch)
    decreases k
  {
    hide Inv, ExcessAt, Prune;
    if k > 0 {
      var t := Prune(s, now, maxAge, maxCount, batch).0;
      PruneKeeps(s, now, maxAge, maxCount, batch);
      PruneShrinks(s, now, maxAge, maxCount, batch);
      SweepsShrink(t, k - 1, now, maxAge, maxCount, batch);
    }
  }

  /** Enough sweeps with nothing new leave at most `maxCount` terminal records, none too old. */
  lemma SweepsReachLimits(s: State, k: nat, now: int, maxAge: int, maxCount: nat, batch: nat)
    requires Inv(s) && Excess(Old(s), now, maxAge, maxCount) <= k * batch
    ensures var left := Terminals(Sweeps(s, k, now, maxAge, maxCount, batch).pending, s.entries);
      |left| <= maxCount && forall x :: x in left ==> !TooOld(x, now, maxAge)
  {
    SweepsShrink(s, k, now, maxAge, maxCount, batch);
    LeftAfterIs(ExcessAt(s, now, maxAge, maxCount), k, batch);
    var t := Sweeps(s, k, now, maxAge, maxCount, batch);
    SortMembers(Terminals(t.pending, t.entries));
    SortSorts(Terminals(t.pending, t.entries));
    OldComeFirst(Old(t), now, maxAge);
    forall x | x in Terminals(t.pending, t.entries) ensures !TooOld(x, now, maxAge) {
      assert x in Old(t);
      var i :| 0 <= i < |Old(t)| && Old(t)[i] == x;
    }
  }
}
