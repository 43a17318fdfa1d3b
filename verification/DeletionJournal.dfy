/**
 The durable state an account deletion works on, and the invariant every crash point keeps.

 `Disk` holds the account rows (with their deletion fence), the material objects and the
 deletion journals. A disk is read against a *goal*: the clean disk that recovery owes.
 `Inv(s, g)` says that disk `s` can be brought to `g`; the lemmas below say that each durable
 effect of the coordinator, and each owner write, keeps it.
 */
module DeletionJournal {
  import opened Wrappers

  type Blob = seq<int>
  /** The parts of a `PurePosixPath`. */
  type Key = seq<string>

  /** One row of the materials table that has a storage key. */
  datatype Source = Source(key: Key, project: string, material: string)

  datatype Account = Account(fence: Option<string>, sources: seq<Source>)

  datatype Entry = Entry(source: Source, blob: nat)

  datatype Manifest = Manifest(deletionId: string, user: string, entries: seq<Entry>)

  datatype Journal = Journal(manifest: Option<Manifest>, blobs: map<nat, Blob>)

  datatype Disk = Disk(accounts: map<string, Account>, objects: map<Key, Blob>, journals: map<string, Journal>)

  /** The key `ObjectStorage.put` writes to: it is recomputed from the row, not read from it. */
  function PutKey(owner: string, s: Source): Key {
    if s.project == "library" then ["users", owner, "documents", s.material]
    else ["users", owner, "workspaces", s.project, "materials", s.material]
  }

  predicate Fenced(s: Disk, u: string, d: string) {
    u in s.accounts && s.accounts[u].fence == Some(d)
  }

  /** No account is fenced by deletion `d`. */
  ghost predicate FencesNobody(accounts: map<string, Account>, d: string) {
    forall u | u in accounts :: accounts[u].fence != Some(d)
  }

  function SetFence(s: Disk, u: string, fence: Option<string>): Disk
    requires u in s.accounts
  {
    s.(accounts := s.accounts[u := s.accounts[u].(fence := fence)])
  }

  /** `cancel_account_deletion`: lifts the fence only if it is the one this deletion set. */
  function Cancel(s: Disk, u: string, d: string): Disk {
    if Fenced(s, u, d) then SetFence(s, u, None) else s
  }

  function WithJournal(s: Disk, d: string, j: Journal): Disk {
    s.(journals := s.journals[d := j])
  }

  function WithoutJournal(s: Disk, d: string): Disk {
    s.(journals := s.journals - {d})
  }

  /** The account rows without their fences. */
  function Unfenced(accounts: map<string, Account>): map<string, Account> {
    map u | u in accounts :: accounts[u].(fence := None)
  }

  function KeysOf(sources: seq<Source>): set<Key> {
    set i | 0 <= i < |sources| :: sources[i].key
  }

  /** The disk without account `u` and without any object its rows list. */
  function Gone(g: Disk, u: string): Disk {
    if u in g.accounts then
      g.(accounts := g.accounts - {u}, objects := g.objects - KeysOf(g.accounts[u].sources))
    else g
  }

  /** Journal `d` is the one its account is fenced by. */
  predicate Current(s: Disk, d: string) {
    && d in s.journals
    && s.journals[d].manifest.Some?
    && Fenced(s, s.journals[d].manifest.value.user, s.journals[d].manifest.value.deletionId)
  }

  /** Entry `i` of the current journal `d` would be restored at key `k`. */
  predicate Owes(s: Disk, d: string, i: nat, k: Key) {
    && Current(s, d)
    && i < |s.journals[d].manifest.value.entries|
    && k == PutKey(s.journals[d].manifest.value.user, s.journals[d].manifest.value.entries[i].source)
  }

  /** Every entry of a current journal has its blob, and the goal holds that blob at the put key. */
  ghost predicate Backed(s: Disk, g: Disk, d: string)
    requires Current(s, d)
  {
    var m := s.journals[d].manifest.value;
    forall i | 0 <= i < |m.entries| ::
      && m.entries[i].blob in s.journals[d].blobs
      && PutKey(m.user, m.entries[i].source) in g.objects
      && g.objects[PutKey(m.user, m.entries[i].source)] == s.journals[d].blobs[m.entries[i].blob]
  }

  ghost predicate Labelled(s: Disk) {
    forall d | d in s.journals && s.journals[d].manifest.Some? :: s.journals[d].manifest.value.deletionId == d
  }

  /** A fence names a journal of the account it fences. */
  ghost predicate FencesJournalled(s: Disk) {
    forall u | u in s.accounts && s.accounts[u].fence.Some? ::
      Current(s, s.accounts[u].fence.value) && s.journals[s.accounts[u].fence.value].manifest.value.user == u
  }

  ghost predicate Missing(s: Disk, g: Disk, k: Key) {
    k in g.objects && k !in s.objects
  }

  /** The invariant of every crash point: recovery of `s` owes exactly the clean disk `g`. */
  ghost predicate Inv(s: Disk, g: Disk) {
    && g.journals == map[]
    && g.accounts == Unfenced(s.accounts)
    && Labelled(s)
    && FencesJournalled(s)
    && (forall k | k in s.objects :: k in g.objects && g.objects[k] == s.objects[k])
    && (forall d | Current(s, d) :: Backed(s, g, d))
    && (forall k | Missing(s, g, k) :: exists d, i :: Owes(s, d, i, k))
  }

  /** What a disk must hold at `k` once recovered: nothing else but its own objects and owed blobs. */
  lemma GoalObject(s: Disk, g: Disk, h: Disk, k: Key)
    requires Inv(s, g) && Inv(s, h) && k in g.objects
    ensures k in h.objects && h.objects[k] == g.objects[k]
  {
    if k !in s.objects {
      assert Missing(s, g, k);
      var d, i :| Owes(s, d, i, k);
      assert Backed(s, g, d) && Backed(s, h, d);
    }
  }

  /** The clean disk a disk owes is unique: recovery cannot end in two ways. */
  lemma GoalUnique(s: Disk, g: Disk, h: Disk)
    requires Inv(s, g) && Inv(s, h)
    ensures g == h
  {
    forall k ensures k in g.objects ==> k in h.objects && h.objects[k] == g.objects[k] {
      if k in g.objects { GoalObject(s, g, h, k); }
    }
    forall k ensures k in h.objects ==> k in g.objects {
      if k in h.objects { GoalObject(s, h, g, k); }
    }
  }

  /** A disk without journals owes itself: no fence, every object in place. */
  lemma NoJournalsIsGoal(s: Disk, g: Disk)
    requires Inv(s, g) && s.journals == map[]
    ensures s == g
  {
    forall k ensures k in g.objects <==> k in s.objects {
      assert !Missing(s, g, k) by {
        assert forall d, i :: !Owes(s, d, i, k);
      }
    }
    assert s.objects == g.objects;
    assert forall u | u in s.accounts :: s.accounts[u].fence.None?;
    assert s.accounts == g.accounts;
  }

  /** An object is missing only while its owner is fenced by a journal that lists its blob. */
  lemma MissingOnlyWhileFenced(s: Disk, g: Disk, k: Key)
    requires Inv(s, g) && Missing(s, g, k)
    ensures exists d, i: nat ::
              && Owes(s, d, i, k)
              && s.accounts[s.journals[d].manifest.value.user].fence == Some(d)
              && s.journals[d].manifest.value.entries[i].blob in s.journals[d].blobs
              && s.journals[d].blobs[s.journals[d].manifest.value.entries[i].blob] == g.objects[k]
  {
    var d, i :| Owes(s, d, i, k);
    assert Backed(s, g, d);
  }

  lemma CancelFrees(s: Disk, u: string, d: string)
    requires FencesNobody(s.accounts - {u}, d)
    ensures FencesNobody(Cancel(s, u, d).accounts, d)
  {
    forall v | v in s.accounts && v != u ensures s.accounts[v].fence != Some(d) {
      assert v in s.accounts - {u};
    }
  }

  /** A journal that is not current fences nobody. */
  lemma NotCurrentFencesNobody(s: Disk, g: Disk, d: string)
    requires Inv(s, g) && !Current(s, d)
    ensures FencesNobody(s.accounts, d)
  {
  }

  /** A current journal fences only its own user. */
  lemma CurrentFencesOne(s: Disk, g: Disk, d: string)
    requires Inv(s, g) && Current(s, d)
    ensures FencesNobody(s.accounts - {s.journals[d].manifest.value.user}, d)
  {
    assert forall v | v in s.accounts - {s.journals[d].manifest.value.user} :: (s.accounts - {s.journals[d].manifest.value.user})[v] == s.accounts[v];
  }

  /** Changing one journal leaves the rest of the disk alone. */
  lemma SameButJournal(s: Disk, d: string, j: Journal)
    ensures WithoutJournal(WithJournal(s, d, j), d) == WithoutJournal(s, d)
  {
    assert s.journals[d := j] - {d} == s.journals - {d};
  }

  // ---------------------------------------------------------------- one lemma per durable effect

  /** A journal that fences nobody may be created, rewritten, torn down file by file or removed. */
  lemma StaleJournalChange(s: Disk, g: Disk, d: string, j: Option<Journal>)
    requires Inv(s, g) && !Current(s, d)
    requires FencesNobody(s.accounts, d)
    requires j.Some? && j.value.manifest.Some? ==> j.value.manifest.value.deletionId == d
    ensures Inv(if j.Some? then WithJournal(s, d, j.value) else WithoutJournal(s, d), g)
  {
    var t := if j.Some? then WithJournal(s, d, j.value) else WithoutJournal(s, d);
    forall e ensures Current(s, e) <==> Current(t, e) {
      if e == d && j.Some? && j.value.manifest.Some? {
        assert !Fenced(s, j.value.manifest.value.user, d);
      }
    }
    forall e | Current(t, e) ensures Backed(t, g, e) {
      assert Backed(s, g, e);
    }
    forall k | Missing(t, g, k) ensures exists e, i :: Owes(t, e, i, k) {
      assert Missing(s, g, k);
      var e, i :| Owes(s, e, i, k);
      assert Owes(t, e, i, k);
    }
  }

  /** `begin_account_deletion` under a journal that lists nothing yet. */
  lemma FenceUnderEmptyJournal(s: Disk, g: Disk, u: string, d: string)
    requires Inv(s, g) && u in s.accounts && s.accounts[u].fence.None?
    requires d in s.journals && s.journals[d].manifest == Some(Manifest(d, u, []))
    requires FencesNobody(s.accounts, d)
    ensures Inv(SetFence(s, u, Some(d)), g)
  {
    var t := SetFence(s, u, Some(d));
    assert Unfenced(t.accounts) == g.accounts;
    forall e ensures Current(t, e) <==> Current(s, e) || e == d {
      assert Current(s, e) ==> s.journals[e].manifest.value.user != u;
    }
    forall e | Current(t, e) ensures Backed(t, g, e) {
      if e != d { assert Backed(s, g, e); }
    }
    forall k | Missing(t, g, k) ensures exists e, i :: Owes(t, e, i, k) {
      assert Missing(s, g, k);
      var e, i :| Owes(s, e, i, k);
      assert Owes(t, e, i, k);
    }
  }

  /** Staging a blob or listing a staged blob in the manifest of a current journal. */
  lemma CurrentJournalGrows(s: Disk, g: Disk, d: string, j: Journal)
    requires Inv(s, g) && Current(s, d)
    requires j.manifest.Some? && j.manifest.value.deletionId == d
    requires j.manifest.value.user == s.journals[d].manifest.value.user
    requires s.journals[d].manifest.value.entries <= j.manifest.value.entries
    requires forall i | 0 <= i < |j.manifest.value.entries| ::
               var e := j.manifest.value.entries[i];
               && e.blob in j.blobs
               && PutKey(j.manifest.value.user, e.source) in g.objects
               && g.objects[PutKey(j.manifest.value.user, e.source)] == j.blobs[e.blob]
    ensures Inv(WithJournal(s, d, j), g)
  {
    var t := WithJournal(s, d, j);
    forall e ensures Current(t, e) <==> Current(s, e) {}
    forall e | Current(t, e) ensures Backed(t, g, e) {
      if e != d { assert Backed(s, g, e); }
    }
    forall k | Missing(t, g, k) ensures exists e, i :: Owes(t, e, i, k) {
      assert Missing(s, g, k);
      var e, i :| Owes(s, e, i, k);
      assert Owes(t, e, i, k);
    }
  }

  /** Deleting an object that the current journal can restore. */
  lemma DeleteListedObject(s: Disk, g: Disk, d: string, i: nat, k: Key)
    requires Inv(s, g) && Owes(s, d, i, k)
    ensures Inv(s.(objects := s.objects - {k}), g)
  {
    var t := s.(objects := s.objects - {k});
    forall e ensures Current(t, e) <==> Current(s, e) {}
    forall e | Current(t, e) ensures Backed(t, g, e) {
      assert Backed(s, g, e);
    }
    forall q | Missing(t, g, q) ensures exists e, j :: Owes(t, e, j, q) {
      if q == k {
        assert Owes(t, d, i, q);
      } else {
        assert Missing(s, g, q);
        var e, j :| Owes(s, e, j, q);
        assert Owes(t, e, j, q);
      }
    }
  }

  /** Putting an object back from its blob; the put never meets different content. */
  lemma RestoreListedObject(s: Disk, g: Disk, d: string, i: nat, k: Key)
    requires Inv(s, g) && Owes(s, d, i, k)
    ensures Backed(s, g, d)
    ensures var b := s.journals[d].blobs[s.journals[d].manifest.value.entries[i].blob];
            (k in s.objects ==> s.objects[k] == b) && Inv(s.(objects := s.objects[k := b]), g)
  {
    assert Backed(s, g, d);
    var b := s.journals[d].blobs[s.journals[d].manifest.value.entries[i].blob];
    var t := s.(objects := s.objects[k := b]);
    forall e ensures Current(t, e) <==> Current(s, e) {}
    forall e | Current(t, e) ensures Backed(t, g, e) {
      assert Backed(s, g, e);
    }
    forall q | Missing(t, g, q) ensures exists e, j :: Owes(t, e, j, q) {
      assert Missing(s, g, q);
      var e, j :| Owes(s, e, j, q);
      assert Owes(t, e, j, q);
    }
  }

  /** `cancel_account_deletion` once every object the journal lists is back. */
  lemma LiftFence(s: Disk, g: Disk, u: string, d: string)
    requires Inv(s, g) && Fenced(s, u, d)
    requires forall i, k | Owes(s, d, i, k) :: k in s.objects
    ensures Inv(Cancel(s, u, d), g)
    ensures FencesNobody(Cancel(s, u, d).accounts, d)
  {
    var t := Cancel(s, u, d);
    assert Current(s, d) && s.journals[d].manifest.value.user == u;
    assert Unfenced(t.accounts) == g.accounts;
    forall e ensures Current(t, e) <==> Current(s, e) && e != d {
      if Current(s, e) && e != d {
        assert s.journals[e].manifest.value.deletionId == e;
        assert s.journals[e].manifest.value.user != u;
      }
    }
    forall v | v in t.accounts ensures t.accounts[v].fence != Some(d) {
      assert Fenced(t, v, d) ==> Fenced(s, v, d);
    }
    forall v | v in t.accounts && t.accounts[v].fence.Some?
      ensures Current(t, t.accounts[v].fence.value) && t.journals[t.accounts[v].fence.value].manifest.value.user == v
    {
      assert v != u;
    }
    forall e | Current(t, e) ensures Backed(t, g, e) {
      assert Backed(s, g, e);
    }
    forall k | Missing(t, g, k) ensures exists e, i :: Owes(t, e, i, k) {
      assert Missing(s, g, k);
      var e, i :| Owes(s, e, i, k);
      assert e != d;
      assert Owes(t, e, i, k);
    }
  }

  // ---------------------------------------------------------------- the row delete

  /** Key `k` is one that `put` writes for some row. */
  ghost predicate PutKeyOf(u: string, rows: seq<Source>, k: Key) {
    exists j :: 0 <= j < |rows| && PutKey(u, rows[j]) == k
  }

  /**
   What the protocol needs of the rows of account `u`: an object that is stored is also what
   `put` would recreate, and every listed key is one that some row's `put` writes.
   It holds whenever each row stores the key `put` computes (`CanonicalIsRestorable`).
   */
  ghost predicate Restorable(g: Disk, u: string) {
    u in g.accounts ==>
      var rows := g.accounts[u].sources;
      && (forall i | 0 <= i < |rows| && rows[i].key in g.objects ::
            PutKey(u, rows[i]) in g.objects && g.objects[PutKey(u, rows[i])] == g.objects[rows[i].key])
      && (forall k | k in KeysOf(rows) :: PutKeyOf(u, rows, k))
  }

  /** Each row stores the key `put` computes. */
  predicate CanonicalRows(u: string, rows: seq<Source>) {
    forall i | 0 <= i < |rows| :: rows[i].key == PutKey(u, rows[i])
  }

  ghost predicate Canonical(g: Disk, u: string) {
    u in g.accounts ==> CanonicalRows(u, g.accounts[u].sources)
  }

  lemma CanonicalIsRestorable(g: Disk, u: string)
    requires Canonical(g, u)
    ensures Restorable(g, u)
  {
    if u in g.accounts {
      var rows := g.accounts[u].sources;
      forall k | k in KeysOf(rows) ensures PutKeyOf(u, rows, k) {
        var i :| 0 <= i < |rows| && rows[i].key == k;
        assert PutKey(u, rows[i]) == k;
      }
    }
  }

  /** None of the objects that rows of `u` would recreate is missing. */
  ghost predicate Whole(s: Disk, g: Disk, u: string) {
    forall row: Source :: !Missing(s, g, PutKey(u, row))
  }

  lemma UnfencedIsWhole(s: Disk, g: Disk, u: string)
    requires Inv(s, g) && (u in s.accounts ==> s.accounts[u].fence.None?)
    ensures Whole(s, g, u)
  {
    forall row: Source ensures !Missing(s, g, PutKey(u, row)) {
      forall d, i ensures !Owes(s, d, i, PutKey(u, row)) { OwedToItsUser(s, d, i, u, row); }
    }
  }

  /** What a journal owes at a key of `u` it owes to `u`, whom it fences. */
  lemma OwedToItsUser(s: Disk, d: string, i: nat, u: string, row: Source)
    requires u in s.accounts ==> s.accounts[u].fence.None?
    ensures !Owes(s, d, i, PutKey(u, row))
  {
    assert PutKey(u, row)[1] == u;
  }

  /** `delete_account`: after it the same disk owes the goal without the account and its objects. */
  lemma DeleteRow(s: Disk, g: Disk, u: string, d: string)
    requires Inv(s, g) && Fenced(s, u, d) && Restorable(g, u)
    requires forall k | k in KeysOf(s.accounts[u].sources) :: k !in s.objects
    requires forall i, k | Owes(s, d, i, k) && k !in s.objects :: k in KeysOf(s.accounts[u].sources)
    ensures Inv(s.(accounts := s.accounts - {u}), Gone(g, u))
    ensures FencesNobody(s.accounts - {u}, d)
  {
    var t := s.(accounts := s.accounts - {u});
    var h := Gone(g, u);
    var rows := g.accounts[u].sources;
    assert h.accounts == Unfenced(t.accounts);
    forall e ensures Current(t, e) ==> Current(s, e) && s.journals[e].manifest.value.user != u {}
    forall v | v in t.accounts && t.accounts[v].fence.Some?
      ensures Current(t, t.accounts[v].fence.value) && t.journals[t.accounts[v].fence.value].manifest.value.user == v
    {
      assert Current(s, s.accounts[v].fence.value);
    }
    forall e | Current(t, e) ensures Backed(t, h, e) {
      assert Backed(s, g, e);
    }
    forall k | Missing(t, h, k) ensures exists e, i :: Owes(t, e, i, k) {
      assert Missing(s, g, k);
      var e, i :| Owes(s, e, i, k);
      assert Current(s, e) && (s.journals[e].manifest.value.user == u ==> e == d);
      assert Owes(t, e, i, k);
    }
  }

  // ---------------------------------------------------------------- the owner's own writes

  /** A write of an owner to its own objects and material rows. */
  datatype Write = Write(owner: string, key: Key, blob: Option<Blob>, sources: seq<Source>)

  /** Storage keys carry their owner as second part (`material_object_key`). */
  predicate OwnKey(owner: string, k: Key) {
    |k| >= 2 && k[0] == "users" && k[1] == owner
  }

  /** `lock_writable_owner`: the account row must exist and carry no fence. */
  predicate Writable(s: Disk, owner: string) {
    owner in s.accounts && s.accounts[owner].fence.None?
  }

  /** The write behind `lock_writable_owner`: refused, it changes nothing. */
  function ApplyWrite(s: Disk, w: Write): Disk {
    if Writable(s, w.owner) && OwnKey(w.owner, w.key) then
      s.(accounts := s.accounts[w.owner := Account(None, w.sources)],
      objects := match w.blob case Some(b) => s.objects[w.key := b] case None => s.objects - {w.key})
    else s
  }

  /** An owner write commutes with recovery: leftover journals can never undo it. */
  lemma WriteSurvivesRecovery(s: Disk, g: Disk, w: Write)
    requires Inv(s, g) && Writable(s, w.owner)
    ensures Inv(ApplyWrite(s, w), ApplyWrite(g, w))
  {
    var t, h := ApplyWrite(s, w), ApplyWrite(g, w);
    if OwnKey(w.owner, w.key) {
      assert Unfenced(t.accounts) == h.accounts;
      forall d ensures Current(t, d) <==> Current(s, d) {}
      assert forall v, row :: PutKey(v, row)[1] == v;
      forall d, i: nat ensures !Owes(s, d, i, w.key) {
        assert Current(s, d) ==> s.journals[d].manifest.value.user != w.owner;
      }
      forall d | Current(t, d) ensures Backed(t, h, d) {
        assert Backed(s, g, d);
        assert forall i: nat :: !Owes(s, d, i, w.key);
        assert forall i: nat | i < |s.journals[d].manifest.value.entries| ::
            Owes(s, d, i, PutKey(s.journals[d].manifest.value.user, s.journals[d].manifest.value.entries[i].source));
      }
      forall k | Missing(t, h, k) ensures exists d, i :: Owes(t, d, i, k) {
        assert Missing(s, g, k);
        var d, i :| Owes(s, d, i, k);
        assert Owes(t, d, i, k);
      }
    }
  }
}
