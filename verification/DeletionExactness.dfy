/**
 Exactly when an interrupted account deletion can be undone.

 `_restore` writes an object under the key recomputed from its row, while `complete` deletes
 the key stored in the row. For an account whose listed objects are all stored, recovery gives
 back the original disk from every `CrashDisk` if and only if the rows are `Restorable`; a deletion
 that runs through passes all of them (`PassEveryCrashDisk`).
 */
module DeletionExactness {
  import opened Wrappers
  import opened DeletionJournal
  import opened AccountDeletion

  /** The disk after `n` rows are staged and listed and `m` objects deleted. */
  function CrashDisk(g: Disk, u: string, d: string, n: nat, m: nat): Disk
    requires CanList(g, u, n) && m <= |g.accounts[u].sources|
  {
    Listing(SetFence(g, u, Some(d)), u, d, n).(objects := g.objects - KeysOf(g.accounts[u].sources[..m]))
  }

  /** One journal of `recover_pending` on values: the disk with journal `d` settled; `None` when a put is refused. */
  function Recovered(s: Disk, d: string): Option<Disk>
    requires Current(s, d)
  {
    var m := s.journals[d].manifest.value;
    match Restored(s.objects, m.user, m.entries, s.journals[d].blobs, |m.entries|)
    case None => None
    case Some(o) => Some(WithoutJournal(Cancel(s, m.user, m.deletionId), d).(objects := o))
  }

  function PutKeys(user: string, entries: seq<Entry>, n: nat): set<Key>
    requires n <= |entries|
  {
    set i | 0 <= i < n :: PutKey(user, entries[i].source)
  }

  lemma RestoredLast(o: map<Key, Blob>, user: string, es: seq<Entry>, blobs: map<nat, Blob>, n: nat)
    requires 0 < n <= |es| && Restored(o, user, es, blobs, n).Some?
    ensures Restored(o, user, es, blobs, n - 1).Some?
    ensures var before, k, blob := Restored(o, user, es, blobs, n - 1).value, PutKey(user, es[n - 1].source), es[n - 1].blob;
            && blob in blobs && (k in before ==> before[k] == blobs[blob])
            && Restored(o, user, es, blobs, n).value == before[k := blobs[blob]]
  {
    hide PutKey;
  }

  lemma PutKeysLast(user: string, es: seq<Entry>, n: nat)
    requires 0 < n <= |es|
    ensures PutKeys(user, es, n) == PutKeys(user, es, n - 1) + {PutKey(user, es[n - 1].source)}
    ensures forall i | 0 <= i < n - 1 :: PutKey(user, es[i].source) in PutKeys(user, es, n - 1)
  {
    hide PutKey;
  }

  /** A restore that is not refused adds the put keys, keeps what was there and never rewrites it. */
  lemma {:induction false} RestoredShape(o: map<Key, Blob>, user: string, es: seq<Entry>, blobs: map<nat, Blob>, n: nat)
    requires n <= |es| && Restored(o, user, es, blobs, n).Some?
    ensures var r := Restored(o, user, es, blobs, n).value;
            && r.Keys == o.Keys + PutKeys(user, es, n)
            && (forall k | k in o :: r[k] == o[k])
            && (forall i | 0 <= i < n :: es[i].blob in blobs && r[PutKey(user, es[i].source)] == blobs[es[i].blob])
  {
    hide PutKey;
    if n > 0 {
      RestoredShape(o, user, es, blobs, n - 1);
      hide Restored, PutKeys;
      var before, k, blob := Restored(o, user, es, blobs, n - 1).value, PutKey(user, es[n - 1].source), es[n - 1].blob;
      RestoredLast(o, user, es, blobs, n);
      PutKeysLast(user, es, n);
      forall i | 0 <= i < n
        ensures es[i].blob in blobs && before[k := blobs[blob]][PutKey(user, es[i].source)] == blobs[es[i].blob]
      {
      }
    } else {
      assert PutKeys(user, es, 0) == {};
    }
  }

  /** No put is refused when every staged blob is what the target disk holds at its put key. */
  lemma {:induction false} RestoredSucceeds(o: map<Key, Blob>, t: map<Key, Blob>, user: string, es: seq<Entry>, blobs: map<nat, Blob>, n: nat)
    requires n <= |es| && (forall k | k in o :: k in t && t[k] == o[k])
    requires forall i | 0 <= i < n ::
               es[i].blob in blobs && PutKey(user, es[i].source) in t && t[PutKey(user, es[i].source)] == blobs[es[i].blob]
    ensures Restored(o, user, es, blobs, n).Some?
    ensures forall k | k in Restored(o, user, es, blobs, n).value :: k in t && t[k] == Restored(o, user, es, blobs, n).value[k]
  {
    if n > 0 { RestoredSucceeds(o, t, user, es, blobs, n - 1); }
  }

  /** Crash states of `prepare` and `complete`: objects are deleted only once all of them are staged. */
  predicate CrashPoint(rows: seq<Source>, n: nat, m: nat) {
    n <= |rows| && (m == 0 || (m <= n == |rows|))
  }

  /** Every deleted key is one that some staged entry restores. */
  lemma DeletedIsRestored(g: Disk, u: string, d: string, n: nat, m: nat, k: Key)
    requires u in g.accounts && AllStored(g, u) && CrashPoint(g.accounts[u].sources, n, m)
    requires Restorable(g, u) && k in KeysOf(g.accounts[u].sources[..m])
    ensures k in PutKeys(u, CrashDisk(g, u, d, n, m).journals[d].manifest.value.entries, n)
  {
    var rows := g.accounts[u].sources;
    var i :| 0 <= i < m && rows[..m][i].key == k;
    assert k in KeysOf(rows) by { assert rows[i].key == k; }
    var p :| 0 <= p < |rows| && PutKey(u, rows[p]) == k;
    assert CrashDisk(g, u, d, n, m).journals[d].manifest.value.entries[p].source == rows[p];
  }

  /** No put is refused while restoring a crash state, and none adds a foreign object. */
  lemma RestorableSucceeds(g: Disk, u: string, d: string, n: nat, m: nat)
    requires u in g.accounts && AllStored(g, u)
    requires Restorable(g, u) && CrashPoint(g.accounts[u].sources, n, m)
    ensures var s := CrashDisk(g, u, d, n, m);
            var r := Restored(s.objects, u, s.journals[d].manifest.value.entries, s.journals[d].blobs, n);
            r.Some? && forall k | k in r.value :: k in g.objects && g.objects[k] == r.value[k]
  {
    var s := CrashDisk(g, u, d, n, m);
    var es, blobs := s.journals[d].manifest.value.entries, s.journals[d].blobs;
    forall i | 0 <= i < n
      ensures es[i].blob in blobs && PutKey(u, es[i].source) in g.objects && g.objects[PutKey(u, es[i].source)] == blobs[es[i].blob]
    {
      assert es[i] == Entry(g.accounts[u].sources[i], i);
    }
    RestoredSucceeds(s.objects, g.objects, u, es, blobs, n);
  }

  /** Restoring a crash state brings back exactly the original objects. */
  lemma RestorableObjects(g: Disk, u: string, d: string, n: nat, m: nat)
    requires u in g.accounts && AllStored(g, u)
    requires Restorable(g, u) && CrashPoint(g.accounts[u].sources, n, m)
    ensures var s := CrashDisk(g, u, d, n, m);
            Restored(s.objects, u, s.journals[d].manifest.value.entries, s.journals[d].blobs, n) == Some(g.objects)
  {
    var s := CrashDisk(g, u, d, n, m);
    var es, blobs := s.journals[d].manifest.value.entries, s.journals[d].blobs;
    RestorableSucceeds(g, u, d, n, m);
    var r := Restored(s.objects, u, es, blobs, n).value;
    forall k | k in g.objects ensures k in r {
      RestoredShape(s.objects, u, es, blobs, n);
      if k !in s.objects { DeletedIsRestored(g, u, d, n, m, k); }
    }
    assert r == g.objects;
  }

  lemma RestorableRecovers(g: Disk, u: string, d: string, n: nat, m: nat)
    requires d !in g.journals && u in g.accounts && g.accounts[u].fence.None? && AllStored(g, u)
    requires Restorable(g, u) && CrashPoint(g.accounts[u].sources, n, m)
    ensures Recovered(CrashDisk(g, u, d, n, m), d) == Some(g)
  {
    hide Restorable, Restored, KeysOf;
    var s := CrashDisk(g, u, d, n, m);
    assert |s.journals[d].manifest.value.entries| == n;
    RestorableObjects(g, u, d, n, m);
    assert Cancel(s, u, d).accounts == g.accounts;
    assert g.journals[d := s.journals[d]] - {d} == g.journals;
  }

  lemma RecoversRestorable(g: Disk, u: string, d: string)
    requires u in g.accounts && AllStored(g, u)
    requires forall n, m | CrashPoint(g.accounts[u].sources, n, m) :: Recovered(CrashDisk(g, u, d, n, m), d) == Some(g)
    ensures Restorable(g, u)
  {
    var rows := g.accounts[u].sources;
    var n := |rows|;
    assert CrashPoint(rows, n, 0) && CrashPoint(rows, n, n);
    var s, t := CrashDisk(g, u, d, n, 0), CrashDisk(g, u, d, n, n);
    var es, blobs := s.journals[d].manifest.value.entries, s.journals[d].blobs;
    RestoredShape(s.objects, u, es, blobs, n);
    RestoredShape(t.objects, u, es, blobs, n);
    forall i | 0 <= i < |rows|
      ensures PutKey(u, rows[i]) in g.objects && g.objects[PutKey(u, rows[i])] == g.objects[rows[i].key]
      ensures PutKeyOf(u, rows, rows[i].key)
    {
      assert es[i] == Entry(rows[i], i);
      assert Restored(s.objects, u, es, blobs, n).value == g.objects;
      assert Restored(t.objects, u, es, blobs, n).value == g.objects;
      assert rows[i].key !in t.objects by { assert rows[..n][i].key in KeysOf(rows[..n]); }
      assert rows[i].key in PutKeys(u, es, n);
      var p :| 0 <= p < n && PutKey(u, es[p].source) == rows[i].key;
      assert PutKey(u, rows[p]) == rows[i].key;
    }
    forall k | k in KeysOf(rows) ensures PutKeyOf(u, rows, k) {
      var i :| 0 <= i < |rows| && rows[i].key == k;
      assert PutKeyOf(u, rows, rows[i].key);
    }
  }

  /** Every such crash state is recovered to the original disk if and only if the rows are restorable. */
  lemma RecoversIffRestorable(g: Disk, u: string, d: string)
    requires d !in g.journals && u in g.accounts && g.accounts[u].fence.None? && AllStored(g, u)
    ensures Restorable(g, u) <==>
            (forall n, m | CrashPoint(g.accounts[u].sources, n, m) :: Recovered(CrashDisk(g, u, d, n, m), d) == Some(g))
  {
    if Restorable(g, u) {
      forall n, m | CrashPoint(g.accounts[u].sources, n, m) ensures Recovered(CrashDisk(g, u, d, n, m), d) == Some(g) {
        RestorableRecovers(g, u, d, n, m);
      }
    } else if forall n, m | CrashPoint(g.accounts[u].sources, n, m) :: Recovered(CrashDisk(g, u, d, n, m), d) == Some(g) {
      RecoversRestorable(g, u, d);
    }
  }

  /**
   A deletion that runs through passes every one of these crash states: a process that stops at the right
   moment leaves it to recovery.
   */
  method PassEveryCrashDisk(c: AccountDeletionCoordinator, u: string, d: string) returns (deleted: bool)
    requires d !in c.disk.journals && FencesNobody(c.disk.accounts, d) && d !in c.leases
    modifies c
    ensures deleted ==>
              var g := old(c.disk);
              && u in g.accounts && AllStored(g, u)
              && forall n, m | CrashPoint(g.accounts[u].sources, n, m) :: CrashDisk(g, u, d, n, m) in c.passed
    ensures old(c.calm) && !old(c.locked) && old(Writable(c.disk, u)) && AllStored(old(c.disk), u) ==> deleted
  {
    hide AllOrNothing, Restorable;
    ghost var g := c.disk;
    c.passed := [c.disk];
    var p, _ := c.Prepare(u, d, true, false, g);
    if p.None? { return false; }
    ghost var rows, s, before := g.accounts[u].sources, c.disk, c.passed;
    var fenced := SetFence(g, u, Some(d));
    assert fenced.accounts[u].sources == rows;
    FencedLists(g, u, d, |rows|);
    assert c.disk == Listing(fenced, u, d, |rows|) == CrashDisk(g, u, d, |rows|, 0) by { assert KeysOf(rows[..0]) == {}; }
    assert forall n: nat | n <= |rows| :: CrashDisk(g, u, d, n, 0) in before by {
      forall n: nat | n <= |rows| ensures CrashDisk(g, u, d, n, 0) in before {
        FencedLists(g, u, d, n);
        assert KeysOf(rows[..0]) == {};
        assert Listing(fenced, u, d, n) in before;
      }
    }
    var outcome := c.Complete(p.value, false, g);
    MorePassed(before, c.passed);
    if outcome.Deleted? {
      forall n, m | CrashPoint(rows, n, m) ensures CrashDisk(g, u, d, n, m) in c.passed {
        if m > 0 {
          ListedKeys(p.value.entries, rows, m);
          assert s.(objects := s.objects - Listed(p.value.entries, m)) in c.passed;
        }
      }
    }
    return outcome.Deleted?;
  }

  lemma FencedLists(g: Disk, u: string, d: string, n: nat)
    requires u in g.accounts && CanList(SetFence(g, u, Some(d)), u, n)
    ensures CanList(g, u, n)
    ensures CrashDisk(g, u, d, n, 0) == Listing(SetFence(g, u, Some(d)), u, d, n)
  {
    assert KeysOf(g.accounts[u].sources[..0]) == {};
    assert g.objects - {} == g.objects;
  }

  lemma ListedKeys(entries: seq<Entry>, rows: seq<Source>, m: nat)
    requires StagesRows(entries, rows) && m <= |rows|
    ensures Listed(entries, m) == KeysOf(rows[..m])
  {
    forall i | 0 <= i < m ensures rows[..m][i] == rows[i] == entries[i].source {}
    forall k ensures k in Listed(entries, m) <==> k in KeysOf(rows[..m]) {
      if k in Listed(entries, m) {
        var i :| 0 <= i < m && entries[i].source.key == k;
        assert rows[..m][i].key == k;
      }
    }
  }

  /** An account whose only row was moved to the library by the migration and kept its old storage key. */
  function MigratedDisk(user: string, workspace: string, material: string, blob: Blob): Disk {
    var row := Source(["users", user, "workspaces", workspace, "materials", material], "library", material);
    Disk(map[user := Account(None, [row])], map[row.key := blob], map[])
  }

  /**
   A row that kept its workspace storage key while the schema migration moved it to the library
   is not restorable: a deletion called off after its object was deleted leaves the object at the
   library's key, where the row does not look.
   */
  lemma MigratedRowIsLost(user: string, workspace: string, material: string, blob: Blob, d: string)
    requires workspace != "library"
    ensures AllStored(MigratedDisk(user, workspace, material, blob), user)
    ensures !Restorable(MigratedDisk(user, workspace, material, blob), user)
    ensures var g := MigratedDisk(user, workspace, material, blob);
            var r := Recovered(CrashDisk(g, user, d, 1, 1), d);
            r == Some(g.(objects := map[["users", user, "documents", material] := blob])) && r != Some(g)
  {
    var g := MigratedDisk(user, workspace, material, blob);
    var row := g.accounts[user].sources[0];
    assert |PutKey(user, row)| != |row.key|;
    assert row.key in g.objects && PutKey(user, row) !in g.objects;
    var s := CrashDisk(g, user, d, 1, 1);
    var es := s.journals[d].manifest.value.entries;
    assert es[0].source == row;
    assert KeysOf(g.accounts[user].sources[..1]) == {row.key} by { assert g.accounts[user].sources[..1] == [row]; }
    assert s.objects == map[];
    var k := PutKey(user, row);
    assert k == ["users", user, "documents", material];
    RestoredOne(s.objects, user, es, s.journals[d].blobs);
    assert Cancel(s, user, d).accounts == g.accounts;
    assert WithoutJournal(Cancel(s, user, d), d).journals == map[];
    assert (map[])[k := blob] == map[k := blob];
  }

  lemma RestoredOne(o: map<Key, Blob>, user: string, es: seq<Entry>, blobs: map<nat, Blob>)
    requires |es| == 1 && es[0].blob in blobs && PutKey(user, es[0].source) !in o
    ensures Restored(o, user, es, blobs, 1) == Some(o[PutKey(user, es[0].source) := blobs[es[0].blob]])
  {
    assert Restored(o, user, es, blobs, 0) == Some(o);
  }
}
