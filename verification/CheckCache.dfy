/**
 The cache of path and access checks, internal/adminweb/checks.go, and the read of it in
 `renderProject`, internal/adminweb/pages.go. The clock is read once per critical section.
 */
module CheckCache {
  import opened Basics

  const MaxChecks := 128
  const Lifetime := 600

  datatype Kind = Path | Access

  /** A result with the message and warning shown beside it. */
  datatype Shown = Shown(result: string, message: string, warning: bool)

  datatype Slot = Slot(expires: int, shown: Option<Shown>)

  datatype Check = Check(revision: string, path: Slot, access: Slot)

  /** Go's zero values: an expiry at the zero time. */
  const EmptySlot := Slot(0, None)
  const ZeroCheck := Check("", EmptySlot, EmptySlot)

  type Checks = map<string, Check>

  function SlotOf(c: Check, kind: Kind): Slot { match kind case Path => c.path case Access => c.access }

  function WithSlot(c: Check, kind: Kind, s: Slot): Check {
    match kind case Path => c.(path := s) case Access => c.(access := s)
  }

  predicate Stale(c: Check, revision: string, now: int) {
    c.revision != revision || (!(now < c.path.expires) && !(now < c.access.expires))
  }

  function Pruned(t: Checks, revision: string, now: int): Checks {
    map k | k in t && !Stale(t[k], revision, now) :: t[k]
  }

  datatype Store = Store(kind: Kind, alias: string, revision: string, shown: Shown, now: int)

  /** The entry after a store: the other kind of result stays. */
  function NewCheck(t: Checks, s: Store): Check {
    WithSlot(if s.alias in t then t[s.alias] else ZeroCheck, s.kind,
             Slot(s.now + Lifetime, Some(s.shown))).(revision := s.revision)
  }

  /** storeCheck: prune, make room by dropping any one entry, overwrite. */
  predicate Stored(t: Checks, t': Checks, s: Store) {
    var p := Pruned(t, s.revision, s.now);
    if s.alias in p || |p| < MaxChecks then t' == p[s.alias := NewCheck(p, s)]
    else exists victim :: victim in p && t' == (p - {victim})[s.alias := NewCheck(p, s)]
  }

  /** What a page of this revision shows of the cache. */
  function Show(t: Checks, kind: Kind, alias: string, revision: string, now: int): Option<Shown> {
    var c := if alias in t then t[alias] else ZeroCheck;
    if c.revision == revision && now < SlotOf(c, kind).expires then SlotOf(c, kind).shown else None
  }

  class Cache {
    var checks: Checks

    constructor ()
      ensures checks == map[]
    {
      checks := map[];
    }

    method StoreCheck(s: Store)
      requires |checks| <= MaxChecks
      modifies this
      ensures Stored(old(checks), checks, s) && |checks| <= MaxChecks
    {
      var todo := checks.Keys;
      while todo != {}
        invariant todo <= checks.Keys <= old(checks).Keys
        invariant forall k :: k in checks ==> checks[k] == old(checks)[k]
        invariant forall k :: k in old(checks) && k !in todo ==>
                    (k in checks <==> !Stale(old(checks)[k], s.revision, s.now))
        decreases |todo|
      {
        var k :| k in todo;
        todo := todo - {k};
        if Stale(checks[k], s.revision, s.now) {
          checks := checks - {k};
        }
      }
      assert checks == Pruned(old(checks), s.revision, s.now);
      ghost var p := checks;
      PrunedCount(old(checks), s.revision, s.now);
      var check := if s.alias in checks then checks[s.alias] else ZeroCheck;
      if s.alias !in checks && |checks| >= MaxChecks {
        var victim :| victim in checks;
        DropOne(checks, victim);
        checks := checks - {victim};
      }
      check := WithSlot(check, s.kind, Slot(s.now + Lifetime, Some(s.shown))).(revision := s.revision);
      AddedCount(checks, s.alias, check);
      checks := checks[s.alias := check];
      assert check == NewCheck(p, s);
    }

    method Read(kind: Kind, alias: string, revision: string, now: int) returns (shown: Option<Shown>)
      ensures shown == Show(checks, kind, alias, revision, now)
    {
      var check := if alias in checks then checks[alias] else ZeroCheck;
      shown := None;
      if check.revision == revision {
        if now < SlotOf(check, kind).expires { shown := SlotOf(check, kind).shown; }
      }
    }
  }

  lemma PrunedCount(t: Checks, revision: string, now: int)
    ensures |Pruned(t, revision, now)| <= |t|
  {
    MapCount(t);
    MapCount(Pruned(t, revision, now));
    SubsetCount(Pruned(t, revision, now).Keys, t.Keys);
  }

  lemma DropOne(t: Checks, k: string)
    requires k in t
    ensures |t - {k}| == |t| - 1
  {
    assert (t - {k}).Keys == t.Keys - {k};
    MapCount(t);
    MapCount(t - {k});
  }

  lemma AddedCount(t: Checks, k: string, c: Check)
    ensures |t[k := c]| <= |t| + 1 && (k in t ==> |t[k := c]| == |t|)
  {
    MapCount(t);
    MapCount(t[k := c]);
    if k in t { assert t[k := c].Keys == t.Keys; } else { assert t[k := c].Keys == t.Keys + {k}; }
  }

  // ----- Runs -----

  /** The cache over a run of stores, whatever entries were dropped to make room. */
  ghost predicate IsRun(tables: seq<Checks>, stores: seq<Store>) {
    && |tables| == |stores| + 1 && tables[0] == map[]
    && forall i :: 0 <= i < |stores| ==> Stored(tables[i], tables[i + 1], stores[i])
  }

  /** Store k is the last one of its kind for its alias. */
  predicate Latest(stores: seq<Store>, k: int) {
    0 <= k < |stores| && forall j :: k < j < |stores| ==>
      stores[j].kind != stores[k].kind || stores[j].alias != stores[k].alias
  }

  /** A slot holds what the latest store of its kind put there, under the revision of the entry. */
  ghost predicate SlotOk(stores: seq<Store>, alias: string, c: Check, kind: Kind) {
    SlotOf(c, kind) == EmptySlot
    || exists k :: Latest(stores, k) && stores[k].kind == kind && stores[k].alias == alias
                   && stores[k].revision == c.revision
                   && SlotOf(c, kind) == Slot(stores[k].now + Lifetime, Some(stores[k].shown))
  }

  ghost predicate CacheOk(stores: seq<Store>, t: Checks) {
    forall alias, kind :: alias in t ==> SlotOk(stores, alias, t[alias], kind)
  }

  /** A store of another kind or alias leaves a slot in order. */
  lemma SlotStays(stores: seq<Store>, s: Store, alias: string, c: Check, kind: Kind)
    requires SlotOk(stores, alias, c, kind) && (s.kind != kind || s.alias != alias)
    ensures SlotOk(stores + [s], alias, c, kind)
  {
    if SlotOf(c, kind) != EmptySlot {
      var k :| Latest(stores, k) && stores[k].kind == kind && stores[k].alias == alias
               && stores[k].revision == c.revision
               && SlotOf(c, kind) == Slot(stores[k].now + Lifetime, Some(stores[k].shown));
      var all := stores + [s];
      assert all[k] == stores[k];
      forall j | k < j < |all| ensures all[j].kind != all[k].kind || all[j].alias != all[k].alias {
        if j < |stores| { assert all[j] == stores[j]; }
      }
      assert Latest(all, k);
    }
  }

  lemma NewSlot(stores: seq<Store>, t: Checks, s: Store, kind: Kind)
    requires CacheOk(stores, t) && (s.alias in t ==> t[s.alias].revision == s.revision)
    ensures SlotOk(stores + [s], s.alias, NewCheck(t, s), kind)
  {
    var c := if s.alias in t then t[s.alias] else ZeroCheck;
    if kind == s.kind {
      var all := stores + [s];
      assert all[|stores|] == s && Latest(all, |stores|);
    } else {
      assert SlotOk(stores, s.alias, c, kind);
      SlotStays(stores, s, s.alias, c, kind);
      SameSlot(stores + [s], s.alias, c, NewCheck(t, s), kind);
    }
  }

  lemma SameSlot(stores: seq<Store>, alias: string, c: Check, d: Check, kind: Kind)
    requires SlotOk(stores, alias, c, kind) && SlotOf(d, kind) == SlotOf(c, kind)
    requires SlotOf(c, kind) == EmptySlot || d.revision == c.revision
    ensures SlotOk(stores, alias, d, kind)
  {
  }

  /** Every entry of the new table is the stored one or an unchanged one of the same revision. */
  lemma StoredFrom(t: Checks, t': Checks, s: Store, alias: string)
    requires Stored(t, t', s) && alias in t'
    ensures alias == s.alias ==> t'[alias] == NewCheck(Pruned(t, s.revision, s.now), s)
    ensures alias != s.alias ==> alias in t && t'[alias] == t[alias]
  {
  }

  lemma StoredKeeps(stores: seq<Store>, t: Checks, t': Checks, s: Store)
    requires CacheOk(stores, t) && Stored(t, t', s)
    ensures CacheOk(stores + [s], t')
  {
    hide Stored, SlotOk, Pruned;
    forall alias, kind | alias in t' ensures SlotOk(stores + [s], alias, t'[alias], kind) {
      StoredFrom(t, t', s, alias);
      if alias == s.alias {
        PrunedOk(stores, t, s);
        NewSlot(stores, Pruned(t, s.revision, s.now), s, kind);
      } else {
        SlotStays(stores, s, alias, t[alias], kind);
      }
    }
  }

  lemma PrunedOk(stores: seq<Store>, t: Checks, s: Store)
    requires CacheOk(stores, t)
    ensures CacheOk(stores, Pruned(t, s.revision, s.now))
    ensures s.alias in Pruned(t, s.revision, s.now) ==> Pruned(t, s.revision, s.now)[s.alias].revision == s.revision
  {
    hide SlotOk;
  }

  lemma {:induction false} RunOk(tables: seq<Checks>, stores: seq<Store>)
    requires IsRun(tables, stores)
    ensures CacheOk(stores, tables[|stores|])
    decreases |stores|
  {
    hide Stored, SlotOk;
    if stores != [] {
      var n := |stores| - 1;
      RunOk(tables[..n + 1], stores[..n]);
      StoredKeeps(stores[..n], tables[n], tables[n + 1], stores[n]);
      assert stores == stores[..n] + [stores[n]];
    }
  }

  /**
   Whatever a page shows from the cache is the latest result of that kind stored for that
   alias, was stored under the page's revision, and is less than ten minutes old.
   */
  lemma ShownIsCurrent(tables: seq<Checks>, stores: seq<Store>, kind: Kind, alias: string, revision: string, now: int)
    requires IsRun(tables, stores) && now >= 0
    requires Show(tables[|stores|], kind, alias, revision, now).Some?
    ensures exists k :: Latest(stores, k) && stores[k].kind == kind && stores[k].alias == alias
                        && stores[k].revision == revision && now < stores[k].now + 600
                        && Show(tables[|stores|], kind, alias, revision, now) == Some(stores[k].shown)
  {
    hide Stored, Latest;
    RunOk(tables, stores);
    assert alias in tables[|stores|];
    assert SlotOk(stores, alias, tables[|stores|][alias], kind);
  }

  /** And nothing is hidden needlessly: right after a store, a page of that revision shows it. */
  lemma StoredIsShown(t: Checks, t': Checks, s: Store, now: int)
    requires Stored(t, t', s)
    ensures Show(t', s.kind, s.alias, s.revision, now) == Some(s.shown) <==> now < s.now + 600
  {
    hide Pruned;
  }

  /** There was no room: 128 entries of this revision with an unexpired result, none for this alias. */
  predicate Full(t: Checks, s: Store) {
    var p := Pruned(t, s.revision, s.now);
    s.alias !in p && |p| >= 128
  }

  /**
   A store hides no other result of its revision: the other kind for the same alias and the
   results of other aliases stay shown, except that a store into a full cache drops one alias.
   */
  lemma OthersStayShown(t: Checks, t': Checks, s: Store, kind: Kind, alias: string, later: int)
    requires Stored(t, t', s) && 0 <= later && s.now <= later && (kind != s.kind || alias != s.alias)
    requires Show(t, kind, alias, s.revision, later).Some?
    ensures || Show(t', kind, alias, s.revision, later) == Show(t, kind, alias, s.revision, later)
            || (Full(t, s) && alias != s.alias && alias !in t')
  {
    var p := Pruned(t, s.revision, s.now);
    assert alias in p && p[alias] == t[alias];
  }

  /** At most one alias of the revision is dropped, and only when there is no room. */
  lemma OneDropped(t: Checks, t': Checks, s: Store, a: string, b: string)
    requires Stored(t, t', s)
    requires a in Pruned(t, s.revision, s.now) && a !in t' && b in Pruned(t, s.revision, s.now) && b !in t'
    ensures a == b && Full(t, s)
  {
    hide Pruned;
  }
}
