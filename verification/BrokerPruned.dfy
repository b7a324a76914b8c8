/** What a prune does, told by the records themselves. */
module BrokerPruned {
  import opened Basics
  import opened OrderedMap
  import opened BrokerModel
  import opened BrokerInvariant
  import opened BrokerPrune
  import opened BrokerRuns
  import opened BrokerEffects

  /** A listed record that is decided. */
  predicate IsTerminal(s: State, h: nat) {
    h < |s.entries| && Listed(h, s.entries, s.pending) && s.entries[h].status != Pending && s.entries[h].decidedAt.Some?
  }

  predicate IsAged(s: State, h: nat, now: int, maxAge: int) {
    IsTerminal(s, h) && now - s.entries[h].decidedAt.value >= maxAge
  }

  function TerminalRecords(s: State): set<nat> { set h: nat | h < |s.entries| && IsTerminal(s, h) }

  function AgedRecords(s: State, now: int, maxAge: int): set<nat> {
    set h: nat | h < |s.entries| && IsAged(s, h, now, maxAge)
  }

  /** The records that are on the list of `s` and off that of `t`. */
  function Pruned(s: State, t: State): set<nat> {
    set h: nat | h < |s.entries| && h < |t.entries| && Listed(h, s.entries, s.pending) && !Listed(h, t.entries, t.pending)
  }

  // ---- counting -------------------------------------------------------

  /** `among` singles out the terminal ones of the listed records. */
  predicate Terminates(pending: seq<(RequestId, nat)>, entries: seq<Entry>, among: set<nat>) {
    forall i :: 0 <= i < |pending| ==>
      (pending[i].1 in among <==> pending[i].1 < |entries| && entries[pending[i].1].status != Pending)
  }

  lemma {:induction false} CountsTerminals(pending: seq<(RequestId, nat)>, entries: seq<Entry>, among: set<nat>)
    requires DistinctHandles(pending) && Terminates(pending, entries, among)
    ensures |Terminals(pending, entries)| == |Handles(pending, among)|
  {
    if pending != [] {
      var front, p := pending[..|pending| - 1], pending[|pending| - 1];
      assert pending == front + [p];
      OneMoreHandle(front, p, among);
      TerminalsSnoc(front, p, entries);
      assert p.1 in among <==> TerminalOf(p, entries) != [];
      hide DistinctHandles, Handles, Terminals;
      CountsTerminals(front, entries, among);
    }
  }

  /** `among` singles out the terminal ones past the age limit. */
  predicate TerminatesOld(pending: seq<(RequestId, nat)>, entries: seq<Entry>, among: set<nat>, now: int, maxAge: int) {
    forall i :: 0 <= i < |pending| ==>
      (pending[i].1 in among <==>
        && pending[i].1 < |entries| && entries[pending[i].1].status != Pending
        && now - RecordTime(entries[pending[i].1]) >= maxAge)
  }

  lemma CountOldSnoc(xs: seq<Aged>, x: Aged, now: int, maxAge: int)
    ensures CountOld(xs + [x], now, maxAge) == CountOld(xs, now, maxAge) + if now - x.time >= maxAge then 1 else 0
  {
    assert (xs + [x])[..|xs|] == xs;
  }

  lemma CountOldOf(xs: seq<Aged>, p: (RequestId, nat), entries: seq<Entry>, now: int, maxAge: int)
    ensures CountOld(xs + TerminalOf(p, entries), now, maxAge) == CountOld(xs, now, maxAge) +
      if p.1 < |entries| && entries[p.1].status != Pending && now - RecordTime(entries[p.1]) >= maxAge then 1 else 0
  {
    assert xs + [] == xs;
    if TerminalOf(p, entries) != [] { CountOldSnoc(xs, TerminalOf(p, entries)[0], now, maxAge); }
  }

  lemma {:induction false} CountsAged(pending: seq<(RequestId, nat)>, entries: seq<Entry>, among: set<nat>, now: int, maxAge: int)
    requires DistinctHandles(pending) && TerminatesOld(pending, entries, among, now, maxAge)
    ensures CountOld(Terminals(pending, entries), now, maxAge) == |Handles(pending, among)|
  {
    if pending != [] {
      var front, p := pending[..|pending| - 1], pending[|pending| - 1];
      assert pending == front + [p];
      OneMoreHandle(front, p, among);
      TerminalsSnoc(front, p, entries);
      CountOldOf(Terminals(front, entries), p, entries, now, maxAge);
      hide DistinctHandles, Handles, Terminals, CountOld, RecordTime, TerminalOf;
      CountsAged(front, entries, among, now, maxAge);
    }
  }

  lemma {:induction false} CountOldInsert(xs: seq<Aged>, x: Aged, now: int, maxAge: int)
    ensures CountOld(Insert(xs, x), now, maxAge) == CountOld(xs, now, maxAge) + if now - x.time >= maxAge then 1 else 0
  {
    if xs == [] || xs[|xs| - 1].time <= x.time {
      CountOldSnoc(xs, x, now, maxAge);
    } else {
      var front, z := xs[..|xs| - 1], xs[|xs| - 1];
      CountOldInsert(front, x, now, maxAge);
      CountOldSnoc(Insert(front, x), z, now, maxAge);
    }
  }

  lemma {:induction false} CountOldSort(xs: seq<Aged>, now: int, maxAge: int)
    ensures CountOld(SortByTime(xs), now, maxAge) == CountOld(xs, now, maxAge)
  {
    if xs != [] {
      CountOldSort(xs[..|xs| - 1], now, maxAge);
      CountOldInsert(SortByTime(xs[..|xs| - 1]), xs[|xs| - 1], now, maxAge);
    }
  }

  // ---- records and sorted elements ------------------------------------

  lemma DecidedHasTime(s: State, h: nat)
    requires Inv(s) && h < |s.entries| && s.entries[h].status != Pending
    ensures s.entries[h].decidedAt == Some(RecordTime(s.entries[h]))
  {
    assert EntryOk(s.entries[h], s.ttl);
    assert RecordOk(s.entries[h]);
  }

  lemma DecidedHaveTimes(s: State)
    requires Inv(s)
    ensures forall h :: 0 <= h < |s.entries| && s.entries[h].status != Pending ==>
      s.entries[h].decidedAt == Some(RecordTime(s.entries[h]))
  {
    forall h | 0 <= h < |s.entries| && s.entries[h].status != Pending
      ensures s.entries[h].decidedAt == Some(RecordTime(s.entries[h]))
    {
      DecidedHasTime(s, h);
    }
  }

  lemma CountsAllRecords(s: State)
    requires Inv(s)
    ensures |Old(s)| == |TerminalRecords(s)|
  {
    hide Inv, Listed, RecordTime;
    HandlesDistinct(s);
    DecidedHaveTimes(s);
    var all := TerminalRecords(s);
    HandlesAre(s, all);
    assert Terminates(s.pending, s.entries, all);
    hide TerminalRecords, Terminates, Handles;
    CountsTerminals(s.pending, s.entries, all);
    SortMembers(Terminals(s.pending, s.entries));
  }

  lemma CountsAgedRecords(s: State, now: int, maxAge: int)
    requires Inv(s)
    ensures CountOld(Old(s), now, maxAge) == |AgedRecords(s, now, maxAge)|
  {
    hide Inv, Listed, RecordTime, CountOld;
    HandlesDistinct(s);
    DecidedHaveTimes(s);
    var aged := AgedRecords(s, now, maxAge);
    HandlesAre(s, aged);
    assert TerminatesOld(s.pending, s.entries, aged, now, maxAge);
    hide AgedRecords, TerminatesOld, Handles;
    CountsAged(s.pending, s.entries, aged, now, maxAge);
    CountOldSort(Terminals(s.pending, s.entries), now, maxAge);
  }

  function AgedOf(e: Entry): Aged { Aged(e.id, e.recordId, RecordTime(e)) }

  /** The pair that a sorted element stands for is the record's own. */
  lemma StandsForOwn(s: State, h: nat, i: nat)
    requires Inv(s) && h < |s.entries| && i < |s.pending| && Stands(AgedOf(s.entries[h]), s.pending[i], s.entries)
    ensures s.pending[i] == (s.entries[h].id, h)
  {
    assert s.pending[i] in s.pending && PairOk(s.pending[i], s.byId, s.entries);
    IdsTell(s.entries, s.pending[i].1, h);
  }

  lemma OldMember(s: State, x: Aged)
    ensures x in Old(s) <==> exists i :: 0 <= i < |s.pending| && Stands(x, s.pending[i], s.entries)
  {
    SortMembers(Terminals(s.pending, s.entries));
    TerminalsStand(s.pending, s.entries, x);
    hide Terminals, SortByTime, Stands;
  }

  lemma StandsForRecord(s: State, h: nat, i: nat)
    requires h < |s.entries| && s.entries[h].status != Pending && i < |s.pending| && s.pending[i] == (s.entries[h].id, h)
    ensures Stands(AgedOf(s.entries[h]), s.pending[i], s.entries)
  {
  }

  /** A decided record is among the sorted elements exactly while it is listed. */
  lemma ListedIsOld(s: State, h: nat)
    requires Inv(s) && h < |s.entries| && s.entries[h].status != Pending
    ensures AgedOf(s.entries[h]) in Old(s) <==> Listed(h, s.entries, s.pending)
  {
    hide Inv, Old, AgedOf, Stands;
    var x := AgedOf(s.entries[h]);
    OldMember(s, x);
    if Listed(h, s.entries, s.pending) {
      var i :| 0 <= i < |s.pending| && s.pending[i] == (s.entries[h].id, h);
      StandsForRecord(s, h, i);
    }
    if i :| 0 <= i < |s.pending| && Stands(x, s.pending[i], s.entries) { StandsForOwn(s, h, i); }
  }

  // ---- the theorem ----------------------------------------------------

  /** From `s` to `t` only decided records left the list. */
  predicate PrunesTo(s: State, t: State) {
    && Inv(s) && Inv(t) && t.entries == s.entries
    && (forall p :: p in t.pending ==> p in s.pending)
    && (forall h :: 0 <= h < |s.entries| && Listed(h, s.entries, s.pending) && s.entries[h].status == Pending ==>
          Listed(h, t.entries, t.pending))
  }

  /** The first `n` sorted elements are gone, and none of them is later than one that is left. */
  predicate CutsOldest(s: State, t: State, n: nat) {
    && n <= |Old(s)| && Old(t) == Old(s)[n..]
    && (forall x, y :: x in Old(s)[..n] && y in Old(t) ==> x.time <= y.time)
  }

  lemma PruneFacts(s: State, now: int, maxAge: int, maxCount: nat, batch: nat)
    requires Inv(s)
    ensures var (t, n) := Prune(s, now, maxAge, maxCount, batch);
      && PrunesTo(s, t) && CutsOldest(s, t, n)
      && n == Min(batch, Max(CountOld(Old(s), now, maxAge), Max(|Old(s)| - maxCount, 0)))
      && t == s.(pending := t.pending, byId := t.byId, policies := t.policies)
  {
    hide Inv, Old, CountOld, Ids, RecordIds, Forward, Min, Max, Without, Prune, Listed;
    var t := Prune(s, now, maxAge, maxCount, batch).0;
    PruneClosedForm(s, now, maxAge, maxCount, batch);
    PruneKeeps(s, now, maxAge, maxCount, batch);
    OnlyLists(s, now, maxAge, maxCount, batch);
    forall h | 0 <= h < |s.entries| && Listed(h, s.entries, s.pending) && s.entries[h].status == Pending
      ensures Listed(h, t.entries, t.pending)
    {
      PendingPair(s, t, h);
    }
  }

  lemma PendingPair(s: State, t: State, h: nat)
    requires h < |s.entries| && t.entries == s.entries && Listed(h, s.entries, s.pending) && s.entries[h].status == Pending
    requires forall p :: p in s.pending && p.1 < |s.entries| && s.entries[p.1].status == Pending ==> p in t.pending
    ensures Listed(h, t.entries, t.pending)
  {
  }

  lemma OnlyLists(s: State, now: int, maxAge: int, maxCount: nat, batch: nat)
    ensures var t := Prune(s, now, maxAge, maxCount, batch).0;
      t == s.(pending := t.pending, byId := t.byId, policies := t.policies)
  {
    hide SortByTime, Terminals, Without, Ids, RecordIds, Excess;
  }

  /** The records gone, as sets of handles. */
  lemma GoneRecords(s: State, t: State, n: nat)
    requires PrunesTo(s, t) && CutsOldest(s, t, n)
    ensures Pruned(s, t) <= TerminalRecords(s) && TerminalRecords(t) == TerminalRecords(s) - Pruned(s, t)
    ensures |Pruned(s, t)| == n
  {
    CountsAllRecords(s);
    CountsAllRecords(t);
    LeftIsRest(s, t);
    forall h | h in Pruned(s, t) ensures h in TerminalRecords(s) { GoneIsTerminal(s, t, h); }
    hide PrunesTo, Old, TerminalRecords, Pruned;
    assert |TerminalRecords(s) - Pruned(s, t)| == |TerminalRecords(s)| - |Pruned(s, t)|;
  }

  /** A sweep takes as many records off the list as it says: the batch's share of what is
      too old or too many. Only decided records go, the oldest first, and nothing else of
      the broker changes but its lists and policies. */
  lemma PruneTakesOldest(s: State, now: int, maxAge: int, maxCount: nat, batch: nat)
    requires Inv(s)
    ensures var (t, n) := Prune(s, now, maxAge, maxCount, batch);
      var gone, all := Pruned(s, t), TerminalRecords(s);
      && t == s.(pending := t.pending, byId := t.byId, policies := t.policies)
      && n == |gone| == Min(batch, Max(|AgedRecords(s, now, maxAge)|, Max(|all| - maxCount, 0)))
      && gone <= all && TerminalRecords(t) == all - gone
      && (forall h, g :: h in gone && g in all - gone ==> DecidedNoLater(s, h, g))
  {
    hide *;
    var (t, n) := Prune(s, now, maxAge, maxCount, batch);
    PruneFacts(s, now, maxAge, maxCount, batch);
    CountsAllRecords(s);
    CountsAgedRecords(s, now, maxAge);
    GoneRecords(s, t, n);
    forall h, g | h in Pruned(s, t) && g in TerminalRecords(s) - Pruned(s, t) ensures DecidedNoLater(s, h, g) {
      GoneIsOlder(s, t, n, h, g);
    }
  }

  predicate DecidedNoLater(s: State, h: nat, g: nat) {
    && h < |s.entries| && g < |s.entries| && s.entries[h].decidedAt.Some? && s.entries[g].decidedAt.Some?
    && s.entries[h].decidedAt.value <= s.entries[g].decidedAt.value
  }

  lemma GoneIsTerminal(s: State, t: State, h: nat)
    requires PrunesTo(s, t) && h in Pruned(s, t)
    ensures h in TerminalRecords(s)
  {
    DecidedHasTime(s, h);
  }

  lemma LeftIsRest(s: State, t: State)
    requires PrunesTo(s, t)
    ensures TerminalRecords(t) == TerminalRecords(s) - Pruned(s, t)
  {
    hide Inv;
    forall h: nat ensures h in TerminalRecords(t) <==> h in TerminalRecords(s) - Pruned(s, t) {
      if h < |s.entries| && Listed(h, t.entries, t.pending) { assert (t.entries[h].id, h) in t.pending; }
    }
  }

  lemma GoneIsOlder(s: State, t: State, n: nat, h: nat, g: nat)
    requires PrunesTo(s, t) && CutsOldest(s, t, n)
    requires h in Pruned(s, t) && h in TerminalRecords(s) && g in TerminalRecords(s) - Pruned(s, t)
    ensures DecidedNoLater(s, h, g)
  {
    hide Inv, Old;
    DecidedHasTime(s, h);
    DecidedHasTime(s, g);
    ListedIsOld(s, h);
    ListedIsOld(t, h);
    ListedIsOld(t, g);
    hide Listed;
    assert Old(s) == Old(s)[..n] + Old(s)[n..];
    assert AgedOf(s.entries[h]) in Old(s)[..n] && AgedOf(s.entries[g]) in Old(t);
  }
}
