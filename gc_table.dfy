/** The liveness table between host wrappers and the engine values they keep
    rooted, and the hook that the engine's collector calls at the start of
    each collection to release the roots no live wrapper needs any more. */
module PythonMonkeyGc {

  /** Identity of a host wrapper object (a PyType pointer). */
  datatype Wrapper = Wrapper(address: nat)

  /** Identity of one allocation of a persistently rooted engine value (one
      `new PersistentRooted`). Each allocation has its own identity, even when
      the allocator hands out the address of a root deleted earlier. */
  datatype Handle = Handle(allocation: nat)

  datatype GcStatus = GcBegin | GcEnd

  type Table = map<Wrapper, seq<Handle>>

  /** Some entry of the table lists the handle. */
  ghost predicate Lists(t: Table, h: Handle) {
    exists w :: w in t && h in t[w]
  }

  /** No entry lists a handle twice. */
  ghost predicate NoDuplicates(t: Table) {
    forall w, i, j :: w in t && 0 <= i < j < |t[w]| ==> t[w][i] != t[w][j]
  }

  /** The table memoizePyTypeAndGCThing leaves: a new entry [h] for an unseen
      wrapper, or h appended to the wrapper's list. */
  function Memoized(t: Table, w: Wrapper, h: Handle): (t': Table)
    ensures t'.Keys == t.Keys + {w}
    ensures w !in t ==> t'[w] == [h]
    ensures w in t ==> t'[w] == t[w] + [h]
    ensures forall v :: v in t && v != w ==> t'[v] == t[v]
  {
    t[w := if w in t then t[w] + [h] else [h]]
  }

  /** After memoizing, the handles listed are the old ones and h. */
  lemma MemoizedLists(t: Table, w: Wrapper, h: Handle, x: Handle)
    ensures Lists(Memoized(t, w, h), x) <==> Lists(t, x) || x == h
  {
  }

  /** The entries whose wrapper is still alive on the host side. */
  function Survivors(t: Table, retiring: Wrapper -> bool): (s: Table)
    ensures forall w :: w in s <==> w in t && !retiring(w)
    ensures forall w :: w in s ==> s[w] == t[w]
  {
    map w | w in t && !retiring(w) :: t[w]
  }

  /** The handles a sweep must release: listed by a retiring entry and by no
      surviving one. */
  ghost function Orphaned(t: Table, retiring: Wrapper -> bool): set<Handle> {
    set w, h | w in t && retiring(w) && h in t[w] && !Lists(Survivors(t, retiring), h) :: h
  }

  /** The handles released while one retiring entry is processed: each handle
      of its list, in order, that no other entry lists. */
  ghost function ReleasedFrom(list: seq<Handle>, others: Table): multiset<Handle>
    decreases |list|
  {
    if |list| == 0 then multiset{}
    else
      var last := list[|list| - 1];
      ReleasedFrom(list[..|list| - 1], others) + if Lists(others, last) then multiset{} else multiset{last}
  }

  lemma {:induction false} ReleasedFromMembers(list: seq<Handle>, others: Table, h: Handle)
    ensures h in ReleasedFrom(list, others) <==> h in list && !Lists(others, h)
    decreases |list|
  {
    if |list| > 0 {
      var front := list[..|list| - 1];
      ReleasedFromMembers(front, others, h);
      assert list == front + [list[|list| - 1]];
    }
  }

  /** A list without duplicates releases each handle at most once. */
  lemma {:induction false} ReleasedFromOnce(list: seq<Handle>, others: Table, h: Handle)
    requires forall i, j :: 0 <= i < j < |list| ==> list[i] != list[j]
    ensures ReleasedFrom(list, others)[h] <= 1
    decreases |list|
  {
    if |list| > 0 {
      var front := list[..|list| - 1];
      ReleasedFromOnce(front, others, h);
      if h == list[|list| - 1] {
        ReleasedFromMembers(front, others, h);
        assert h !in front;
      }
    }
  }

  /** The table with its retiring-and-processed entries gone: what a sweep has
      removed from t0 once `current` is what is left. */
  ghost function Dropped(t0: Table, current: Table): set<Handle> {
    set w, h | w in t0 && w !in current && h in t0[w] && !Lists(current, h) :: h
  }

  lemma InDropped(t0: Table, current: Table, v: Wrapper, h: Handle)
    requires v in t0 && v !in current && h in t0[v] && !Lists(current, h)
    ensures h in Dropped(t0, current)
  {
  }

  /** One address-sharing scenario: a handle listed by two retiring entries is
      kept when the first is processed and released with the second. */
  lemma SharedHandleDeferred(t: Table, w1: Wrapper, w2: Wrapper, h: Handle)
    requires w1 in t && w2 in t && w1 != w2 && h in t[w1] && h in t[w2]
    requires forall v :: v in t && v != w1 && v != w2 ==> h !in t[v]
    ensures h !in ReleasedFrom(t[w1], t - {w1})
    ensures h in ReleasedFrom(t[w2], t - {w1} - {w2})
  {
    ReleasedFromMembers(t[w1], t - {w1}, h);
    assert w2 in t - {w1};
    ReleasedFromMembers(t[w2], t - {w1} - {w2}, h);
  }

  /** The table PyTypeToGCThing and, as a ghost, every release (delete) of a
      handle so far. */
  class GcThingTable {
    var entries: Table
    ghost var released: multiset<Handle>

    /** No handle that an entry lists has been released. */
    ghost predicate Valid()
      reads this
    {
      forall w, h :: w in entries && h in entries[w] ==> h !in released
    }

    /** No handle has been released twice. */
    ghost predicate ReleasedOnce()
      reads this
    {
      forall h :: released[h] <= 1
    }

    constructor ()
      ensures Valid() && ReleasedOnce()
      ensures entries == map[] && released == multiset{}
    {
      entries := map[];
      released := multiset{};
    }

    /** memoizePyTypeAndGCThing. The handle is a root the caller has just
        allocated, so it has not been released. */
    method Memoize(w: Wrapper, h: Handle)
      requires Valid() && h !in released
      modifies this
      ensures Valid()
      ensures entries == Memoized(old(entries), w, h)
      ensures released == old(released)
    {
      if w !in entries {
        entries := entries[w := [h]];
      } else {
        entries := entries[w := entries[w] + [h]];
      }
    }

    /** The inner scan: does an entry other than w's list the handle? */
    method ListedElsewhere(w: Wrapper, h: Handle) returns (found: bool)
      ensures found <==> Lists(entries - {w}, h)
    {
      found := false;
      var unvisited := entries.Keys;
      while unvisited != {}
        invariant unvisited <= entries.Keys
        invariant found <==> exists v :: v in entries && v !in unvisited && v != w && h in entries[v]
        decreases unvisited
      {
        var v :| v in unvisited;
        if v != w && h in entries[v] {
          found := true;
          break;
        }
        unvisited := unvisited - {v};
      }
      if found {
        var v :| v in entries && v != w && h in entries[v];
        assert v in entries - {w};
      }
    }

    /** Retiring one entry: release each of its handles that no other entry
        lists, then erase the entry. */
    method Retire(w: Wrapper)
      requires w in entries
      modifies this
      ensures entries == old(entries) - {w}
      ensures released == old(released) + ReleasedFrom(old(entries)[w], old(entries) - {w})
    {
      var list := entries[w];
      ghost var before := released;
      for i := 0 to |list|
        invariant entries == old(entries)
        invariant released == before + ReleasedFrom(list[..i], entries - {w})
      {
        var found := ListedElsewhere(w, list[i]);
        if !found {
          released := released + multiset{list[i]};
        }
        assert list[..i + 1][..i] == list[..i];
      }
      assert list[..|list|] == list;
      entries := entries - {w};
    }

    /** handleSharedPythonMonkeyMemory. At the start of a collection every
        entry is visited once, in whatever order; entries whose wrapper the
        host has finalized or holds only through this table are retired. */
    method HandleSharedMemory(status: GcStatus, retiring: Wrapper -> bool)
      requires Valid()
      modifies this
      ensures Valid()
      ensures status != GcBegin ==> entries == old(entries) && released == old(released)
      ensures status == GcBegin ==> entries == Survivors(old(entries), retiring)
      ensures status == GcBegin ==> old(released) <= released
      ensures status == GcBegin ==>
        forall h :: released[h] > old(released)[h] <==> h in Orphaned(old(entries), retiring)
      ensures status == GcBegin && NoDuplicates(old(entries)) ==>
        released == old(released) + multiset(Orphaned(old(entries), retiring))
      ensures old(ReleasedOnce()) && NoDuplicates(old(entries)) ==> ReleasedOnce()
    {
      if status != GcBegin {
        return;
      }
      ghost var t0 := entries;
      ghost var r0 := released;
      var unvisited := entries.Keys;
      while unvisited != {}
        invariant SweepShape(t0, entries, unvisited, retiring)
        invariant SweepAccount(t0, entries, r0, released)
        decreases unvisited
      {
        var w :| w in unvisited;
        if retiring(w) {
          ghost var e := entries;
          ghost var r := released;
          Retire(w);
          RetireStep(t0, e, w, r0, r, released);
        }
        unvisited := unvisited - {w};
      }
      SweepEnd(t0, entries, retiring);
      FinalCounts(t0, retiring, r0, released);
      SweepKeepsValid(t0, entries, r0, released);
    }
  }

  /** Where a sweep stands: the unvisited entries are still in the table,
      every visited entry is there exactly when its wrapper is alive, and no
      list has changed. */
  ghost predicate SweepShape(t0: Table, e: Table, unvisited: set<Wrapper>, retiring: Wrapper -> bool) {
    && unvisited <= e.Keys <= t0.Keys
    && (forall w :: w in t0 && w !in unvisited ==> (w in e <==> !retiring(w)))
    && (forall w :: w in e ==> e[w] == t0[w])
  }

  /** What a sweep has released so far: a handle has been released in this
      sweep exactly when an entry already removed lists it and no entry still
      in the table does; without duplicate handles in an entry, once. */
  ghost predicate SweepAccount(t0: Table, e: Table, r0: multiset<Handle>, r: multiset<Handle>) {
    && r0 <= r
    && (forall h :: r[h] > r0[h] <==> h in Dropped(t0, e))
    && (NoDuplicates(t0) ==> forall h :: r[h] <= r0[h] + 1)
  }

  /** Handles still listed were not released before the sweep and were not
      dropped in it. */
  lemma SweepKeepsValid(t0: Table, e: Table, r0: multiset<Handle>, r: multiset<Handle>)
    requires forall w, h :: w in t0 && h in t0[w] ==> h !in r0
    requires e.Keys <= t0.Keys && forall w :: w in e ==> e[w] == t0[w]
    requires SweepAccount(t0, e, r0, r)
    ensures forall w, h :: w in e && h in e[w] ==> h !in r
  {
  }

  /** Processing one retiring entry w keeps the sweep's account of releases:
      a handle has been released in this sweep exactly when an entry already
      removed lists it and no entry still in the table does. */
  lemma RetireStep(t0: Table, e: Table, w: Wrapper, r0: multiset<Handle>, r: multiset<Handle>, r': multiset<Handle>)
    requires w in e && e.Keys <= t0.Keys
    requires forall v :: v in e ==> e[v] == t0[v]
    requires SweepAccount(t0, e, r0, r)
    requires r' == r + ReleasedFrom(e[w], e - {w})
    ensures SweepAccount(t0, e - {w}, r0, r')
  {
    var e' := e - {w};
    forall h ensures r'[h] > r0[h] <==> h in Dropped(t0, e') {
      ReleasedFromMembers(e[w], e', h);
      DroppedStep(t0, e, w, h);
    }
    if NoDuplicates(t0) {
      forall h ensures r'[h] <= r0[h] + 1 {
        ReleasedFromMembers(e[w], e', h);
        DroppedStep(t0, e, w, h);
        if h in ReleasedFrom(e[w], e') {
          ReleasedFromOnce(e[w], e', h);
        }
      }
    }
  }

  lemma DroppedStep(t0: Table, e: Table, w: Wrapper, h: Handle)
    requires w in e && e.Keys <= t0.Keys
    requires forall v :: v in e ==> e[v] == t0[v]
    ensures h in Dropped(t0, e - {w}) <==>
      h in Dropped(t0, e) || (h in e[w] && !Lists(e - {w}, h))
    ensures h in e[w] ==> h !in Dropped(t0, e)
  {
    var e' := e - {w};
    if h in e[w] {
      assert Lists(e, h);
    }
    if h in Dropped(t0, e') && h !in e[w] {
      var v :| v in t0 && v !in e' && h in t0[v] && !Lists(e', h);
      forall u | u in e ensures h !in e[u] {
        if u != w {
          assert u in e';
        }
      }
      InDropped(t0, e, v, h);
    }
    if h in Dropped(t0, e) {
      var v :| v in t0 && v !in e && h in t0[v] && !Lists(e, h);
      assert v !in e';
      forall u | u in e' ensures h !in e'[u] {
        assert u in e && e'[u] == e[u];
      }
      InDropped(t0, e', v, h);
    }
    if h in e[w] && !Lists(e', h) {
      InDropped(t0, e', w, h);
    }
  }

  /** Once every entry has been visited, what is left are the survivors and
      what was dropped is what was orphaned. */
  lemma SweepEnd(t0: Table, e: Table, retiring: Wrapper -> bool)
    requires e.Keys <= t0.Keys
    requires forall w :: w in t0 ==> (w in e <==> !retiring(w))
    requires forall w :: w in e ==> e[w] == t0[w]
    ensures e == Survivors(t0, retiring)
    ensures Dropped(t0, e) == Orphaned(t0, retiring)
  {
  }

  lemma FinalCounts(t0: Table, retiring: Wrapper -> bool, r0: multiset<Handle>, r: multiset<Handle>)
    requires r0 <= r
    requires forall h :: r[h] > r0[h] <==> h in Orphaned(t0, retiring)
    requires NoDuplicates(t0) ==> forall h :: r[h] <= r0[h] + 1
    ensures NoDuplicates(t0) ==> r == r0 + multiset(Orphaned(t0, retiring))
    ensures (forall h :: r0[h] <= 1) && NoDuplicates(t0) && (forall h :: h in Orphaned(t0, retiring) ==> h !in r0) ==>
      forall h :: r[h] <= 1
  {
  }
}
