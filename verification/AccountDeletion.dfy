/**
 The account deletion coordinator, one durable effect at a time.

 `passed` records every durable state, so a crash is "the process stops at some element of
 `passed`". Any effect may raise; a file or object effect may even raise after it took hold,
 while a database transaction takes hold exactly when it does not raise.
 */
module AccountDeletion {
  import opened Wrappers
  import opened DeletionJournal

  datatype Pending = Pending(deletionId: string, user: string, entries: seq<Entry>)

  /** What a durable state must still owe while account `u` of goal `g` is being deleted. */
  ghost predicate AllOrNothing(s: Disk, g: Disk, u: string) {
    Inv(s, if u in s.accounts then g else Gone(g, u))
  }

  /** The entries `prepare` stages for these rows: blob `i` belongs to row `i`. */
  predicate StagesRows(entries: seq<Entry>, sources: seq<Source>) {
    |entries| == |sources| && forall i | 0 <= i < |entries| :: entries[i] == Entry(sources[i], i)
  }

  /** `_restore` on values: the objects after putting back the first `n` entries, if no put is refused. */
  function Restored(objects: map<Key, Blob>, user: string, entries: seq<Entry>, blobs: map<nat, Blob>, n: nat)
    : Option<map<Key, Blob>>
    requires n <= |entries|
  {
    if n == 0 then Some(objects)
    else match Restored(objects, user, entries, blobs, n - 1)
      case None => None
      case Some(o) =>
        var k := PutKey(user, entries[n - 1].source);
        if entries[n - 1].blob !in blobs then None
        else if k in o && o[k] != blobs[entries[n - 1].blob] then None
        else Some(o[k := blobs[entries[n - 1].blob]])
  }

  /** Every entry's blob is at its put key; what was there before is still there, and nothing else came. */
  predicate PutBack(before: map<Key, Blob>, after: map<Key, Blob>, user: string, entries: seq<Entry>, blobs: map<nat, Blob>, n: nat)
    requires n <= |entries|
  {
    && (forall k | k in before :: k in after && after[k] == before[k])
    && (forall i | 0 <= i < n ::
          entries[i].blob in blobs && PutKey(user, entries[i].source) in after
          && after[PutKey(user, entries[i].source)] == blobs[entries[i].blob])
    && (forall k | k in after && k !in before :: exists i :: 0 <= i < n && k == PutKey(user, entries[i].source))
  }

  /** Some entry cannot be put back: its blob is gone, or its put key holds something else. */
  predicate Refused(objects: map<Key, Blob>, user: string, entries: seq<Entry>, blobs: map<nat, Blob>) {
    exists i :: 0 <= i < |entries| && PutRefused(objects, user, entries[i], blobs)
  }

  predicate PutRefused(objects: map<Key, Blob>, user: string, e: Entry, blobs: map<nat, Blob>) {
    var k := PutKey(user, e.source);
    e.blob !in blobs || (k in objects && objects[k] != blobs[e.blob])
  }

  lemma PutBackNone(before: map<Key, Blob>, user: string, entries: seq<Entry>, blobs: map<nat, Blob>)
    ensures PutBack(before, before, user, entries, blobs, 0)
  {
  }

  lemma PutBackMore(before: map<Key, Blob>, o: map<Key, Blob>, user: string, entries: seq<Entry>, blobs: map<nat, Blob>, n: nat)
    requires n < |entries| && PutBack(before, o, user, entries, blobs, n) && !PutRefused(o, user, entries[n], blobs)
    ensures PutBack(before, o[PutKey(user, entries[n].source) := blobs[entries[n].blob]], user, entries, blobs, n + 1)
  {
    hide PutKey;
    var k := PutKey(user, entries[n].source);
    var after := o[k := blobs[entries[n].blob]];
    forall l | l in after && l !in before ensures exists i :: 0 <= i < n + 1 && l == PutKey(user, entries[i].source) {
      if l == k {
        assert l == PutKey(user, entries[n].source);
      } else {
        var i :| 0 <= i < n && l == PutKey(user, entries[i].source);
      }
    }
  }

  /** Objects that were deleted after they were staged are all put back. */
  lemma WholeAgain(before: map<Key, Blob>, m: map<Key, Blob>, after: map<Key, Blob>, u: string, rows: seq<Source>,
                   entries: seq<Entry>, blobs: map<nat, Blob>)
    requires StagesRows(entries, rows) && forall k | k in KeysOf(rows) :: PutKeyOf(u, rows, k)
    requires forall k | k in before && k !in m :: k in KeysOf(rows)
    requires PutBack(m, after, u, entries, blobs, |entries|)
    ensures forall k | k in before :: k in after
  {
    hide PutKey, KeysOf;
    forall k | k in before ensures k in after {
      if k !in m {
        assert PutKeyOf(u, rows, k);
        var j :| 0 <= j < |rows| && PutKey(u, rows[j]) == k;
        assert entries[j] == Entry(rows[j], j);
      }
    }
  }

  /** And nothing else has come. */
  lemma NothingElse(before: map<Key, Blob>, m: map<Key, Blob>, after: map<Key, Blob>, u: string, entries: seq<Entry>, blobs: map<nat, Blob>)
    requires forall k | k in m :: k in before
    requires forall i | 0 <= i < |entries| :: PutKey(u, entries[i].source) in before
    requires PutBack(m, after, u, entries, blobs, |entries|)
    ensures forall k | k in after :: k in before
  {
    hide PutKey;
  }

  /** An unfenced account has all its objects. */
  lemma OwnObjectsThere(s: Disk, g: Disk, u: string)
    requires Inv(s, g) && u in s.accounts && s.accounts[u].fence.None?
    ensures forall k | k in g.objects && |k| >= 2 && k[1] == u :: k in s.objects && s.objects[k] == g.objects[k]
  {
    forall k | k in g.objects && |k| >= 2 && k[1] == u ensures k in s.objects {
      forall d, i ensures !Owes(s, d, i, k) { NotOwed(s, d, i, u, k); }
      assert !Missing(s, g, k);
    }
  }

  lemma NotOwed(s: Disk, d: string, i: nat, u: string, k: Key)
    requires |k| >= 2 && k[1] == u && u in s.accounts && s.accounts[u].fence.None?
    ensures !Owes(s, d, i, k)
  {
  }

  lemma Kept(s: Disk, g: Disk, k: Key)
    requires Inv(s, g) && k in s.objects
    ensures k in g.objects && g.objects[k] == s.objects[k]
  {
  }

  lemma RestoredStart(objects: map<Key, Blob>, user: string, entries: seq<Entry>, blobs: map<nat, Blob>)
    ensures Restored(objects, user, entries, blobs, 0) == Some(objects)
  {
  }

  lemma RestoredNext(objects: map<Key, Blob>, user: string, entries: seq<Entry>, blobs: map<nat, Blob>, n: nat)
    requires n < |entries|
    ensures Restored(objects, user, entries, blobs, n + 1) ==
            match Restored(objects, user, entries, blobs, n)
            case None => None
            case Some(o) =>
              var k := PutKey(user, entries[n].source);
              if entries[n].blob !in blobs || (k in o && o[k] != blobs[entries[n].blob]) then None
              else Some(o[k := blobs[entries[n].blob]])
  {
    hide PutKey;
  }

  /** The number of files in a journal directory. */
  function Files(j: Journal): nat {
    |j.blobs| + if j.manifest.Some? then 1 else 0
  }

  /** The first `|entries|` rows are staged and listed by the journal. */
  predicate Staged(s: Disk, u: string, d: string, entries: seq<Entry>, sources: seq<Source>) {
    && |entries| <= |sources|
    && d in s.journals && s.journals[d].manifest == Some(Manifest(d, u, entries))
    && forall i | 0 <= i < |entries| ::
      && entries[i] == Entry(sources[i], i)
      && sources[i].key in s.objects && i in s.journals[d].blobs
      && s.journals[d].blobs[i] == s.objects[sources[i].key]
  }

  /** The journal has a manifest of deletion `d` for account `u`. */
  predicate Names(j: Journal, d: string, u: string) {
    j.manifest.Some? && j.manifest.value.deletionId == d && j.manifest.value.user == u
  }

  /** The journal after the next row is staged, or staged and listed. */
  predicate NextStage(s: Disk, u: string, d: string, entries: seq<Entry>, j: Journal) {
    && u in s.accounts && Staged(s, u, d, entries, s.accounts[u].sources)
    && |entries| < |s.accounts[u].sources| && s.accounts[u].sources[|entries|].key in s.objects
    && j.blobs == s.journals[d].blobs[|entries| := s.objects[s.accounts[u].sources[|entries|].key]]
    && (j.manifest == s.journals[d].manifest
        || j.manifest == Some(Manifest(d, u, entries + [Entry(s.accounts[u].sources[|entries|], |entries|)])))
  }

  lemma StagedIsBacked(s: Disk, g: Disk, u: string, d: string, entries: seq<Entry>, j: Journal, i: nat)
    requires NextStage(s, u, d, entries, j) && Restorable(g, u) && u in g.accounts
    requires g.accounts[u].sources == s.accounts[u].sources
    requires forall k | k in s.objects :: k in g.objects && g.objects[k] == s.objects[k]
    requires i < |j.manifest.value.entries|
    ensures var e := j.manifest.value.entries[i];
            && e.blob in j.blobs && PutKey(u, e.source) in g.objects && g.objects[PutKey(u, e.source)] == j.blobs[e.blob]
  {
    var sources := s.accounts[u].sources;
    assert j.manifest.value.entries[i] == Entry(sources[i], i);
    assert g.objects[sources[i].key] == s.objects[sources[i].key];
  }

  /** Staging the blob of the next row, or listing it once staged, keeps the invariant. */
  lemma StagingGrows(s: Disk, g: Disk, u: string, d: string, entries: seq<Entry>, j: Journal)
    requires AllOrNothing(s, g, u) && Restorable(g, u) && Fenced(s, u, d) && NextStage(s, u, d, entries, j)
    ensures AllOrNothing(WithJournal(s, d, j), g, u)
  {
    forall i: nat | i < |j.manifest.value.entries|
      ensures var e := j.manifest.value.entries[i];
              && e.blob in j.blobs && PutKey(u, e.source) in g.objects && g.objects[PutKey(u, e.source)] == j.blobs[e.blob]
    {
      StagedIsBacked(s, g, u, d, entries, j, i);
    }
    CurrentJournalGrows(s, g, d, j);
  }

  /** Every object the account's rows list is there to be read. */
  predicate AllStored(s: Disk, u: string)
    requires u in s.accounts
  {
    forall i | 0 <= i < |s.accounts[u].sources| :: s.accounts[u].sources[i].key in s.objects
  }

  lemma SameJournals(s: Disk, d: string)
    requires d !in s.journals
    ensures WithoutJournal(s, d).journals == s.journals
  {
  }

  lemma SameWhole(s: Disk, t: Disk, g: Disk, u: string)
    requires Whole(s, g, u) && t.objects == s.objects
    ensures Whole(t, g, u)
  {
    hide PutKey;
    forall row: Source ensures !Missing(t, g, PutKey(u, row)) { assert !Missing(s, g, PutKey(u, row)); }
  }

  lemma OneFence(s: Disk, u: string, d: string)
    requires FencesNobody(s.accounts, d) && u in s.accounts
    ensures FencesNobody(SetFence(s, u, Some(d)).accounts - {u}, d)
  {
  }

  lemma SameStored(s: Disk, t: Disk, u: string)
    requires u in s.accounts && u in t.accounts && t.accounts[u].sources == s.accounts[u].sources && t.objects == s.objects
    ensures AllStored(s, u) <==> AllStored(t, u)
  {
  }

  predicate CanList(s: Disk, u: string, n: nat) {
    u in s.accounts && n <= |s.accounts[u].sources| && forall i | 0 <= i < n :: s.accounts[u].sources[i].key in s.objects
  }

  /** The journal that has staged and listed the first `n` rows. */
  function FirstRows(s: Disk, u: string, d: string, n: nat): Journal
    requires CanList(s, u, n)
  {
    var rows := s.accounts[u].sources;
    Journal(Some(Manifest(d, u, seq(n, i requires 0 <= i < |rows| => Entry(rows[i], i)))), map i: nat | i < n :: s.objects[rows[i].key])
  }

  /** The disk when the first `n` rows are staged and listed. */
  function Listing(s: Disk, u: string, d: string, n: nat): Disk
    requires CanList(s, u, n)
  {
    WithJournal(s, d, FirstRows(s, u, d, n))
  }

  /** The journal once the next row is listed too. */
  function StagedNext(s: Disk, u: string, d: string, entries: seq<Entry>): Journal
    requires CanList(s, u, 0) && d in s.journals && |entries| < |s.accounts[u].sources|
    requires s.accounts[u].sources[|entries|].key in s.objects
  {
    var row := s.accounts[u].sources[|entries|];
    Journal(Some(Manifest(d, u, entries + [Entry(row, |entries|)])), s.journals[d].blobs[|entries| := s.objects[row.key]])
  }

  lemma ListingNothing(s: Disk, u: string, d: string)
    requires u in s.accounts && d in s.journals && s.journals[d] == Journal(Some(Manifest(d, u, [])), map[])
    ensures Listing(s, u, d, 0) == s
  {
    hide FirstRows;
    FirstNone(s, u, d);
    assert s.journals[d := s.journals[d]] == s.journals;
  }

  lemma FirstNone(s: Disk, u: string, d: string)
    requires u in s.accounts
    ensures FirstRows(s, u, d, 0) == Journal(Some(Manifest(d, u, [])), map[])
  {
    var rows := s.accounts[u].sources;
    assert seq(0, i requires 0 <= i < |rows| => Entry(rows[i], i)) == [];
    assert FirstRows(s, u, d, 0).blobs == map[];
  }

  /** Listing starts over from a disk that lists nothing yet. */
  lemma ListingAgain(s: Disk, u: string, d: string, n: nat)
    requires CanList(s, u, n)
    ensures CanList(Listing(s, u, d, 0), u, n) && Listing(Listing(s, u, d, 0), u, d, n) == Listing(s, u, d, n)
  {
    var a, b := FirstRows(s, u, d, 0), FirstRows(s, u, d, n);
    assert FirstRows(Listing(s, u, d, 0), u, d, n) == b;
    assert s.journals[d := a][d := b] == s.journals[d := b];
  }

  lemma ListingMore(s: Disk, u: string, d: string, n: nat)
    requires CanList(s, u, n) && n < |s.accounts[u].sources| && s.accounts[u].sources[n].key in s.objects
    ensures var t := Listing(s, u, d, n);
            CanList(s, u, n + 1)
            && Listing(s, u, d, n + 1) == WithJournal(t, d, StagedNext(t, u, d, t.journals[d].manifest.value.entries))
  {
    var t := Listing(s, u, d, n);
    var rows := s.accounts[u].sources;
    var a, b := FirstRows(s, u, d, n), FirstRows(s, u, d, n + 1);
    assert b.manifest.value.entries == a.manifest.value.entries + [Entry(rows[n], n)];
    assert b.blobs == a.blobs[n := s.objects[rows[n].key]];
    assert s.journals[d := a][d := b] == s.journals[d := b];
  }

  lemma MorePassed(before: seq<Disk>, after: seq<Disk>)
    requires before <= after
    ensures forall s | s in before :: s in after
  {
    forall s | s in before ensures s in after {
      var i :| 0 <= i < |before| && before[i] == s;
      assert after[i] == s;
    }
  }

  lemma StillThere(s: Disk, g: Disk, u: string)
    requires u in s.accounts
    ensures AllOrNothing(s, g, u) <==> Inv(s, g)
  {
    hide Inv;
  }

  lemma StagedRows(s: Disk, u: string, d: string, entries: seq<Entry>, sources: seq<Source>)
    requires Staged(s, u, d, entries, sources) && |entries| == |sources|
    ensures StagesRows(entries, sources) && d in s.journals && Names(s.journals[d], d, u)
    ensures s.journals[d].manifest == Some(Manifest(d, u, entries))
  {
  }

  /** Lifting the fence and dropping the journal undoes `prepare`. */
  lemma UndoneIsSame(s: Disk, m: Disk, t: Disk, u: string, d: string)
    requires d !in s.journals && FencesNobody(s.accounts, d)
    requires m.accounts == s.accounts || (Writable(s, u) && m.accounts == SetFence(s, u, Some(d)).accounts)
    requires m.objects == t.objects == s.objects
    requires WithoutJournal(m, d).journals == s.journals == WithoutJournal(t, d).journals && d !in t.journals
    requires t.accounts == Cancel(m, u, d).accounts
    ensures t == s
  {
    assert WithoutJournal(t, d).journals == t.journals;
    assert t.accounts == s.accounts;
  }

  /** While nothing of `u` was missing before staging, every put key of a staged entry still has its object. */
  lemma StagedIsWhole(s: Disk, t: Disk, g: Disk, u: string, d: string, entries: seq<Entry>)
    requires Whole(s, g, u) && t.objects == s.objects && Inv(t, g) && Current(t, d)
    requires t.journals[d].manifest == Some(Manifest(d, u, entries))
    ensures forall i | 0 <= i < |entries| :: PutKey(u, entries[i].source) in t.objects
  {
    hide PutKey;
    assert Backed(t, g, d);
    forall i | 0 <= i < |entries| ensures PutKey(u, entries[i].source) in t.objects {
      assert !Missing(s, g, PutKey(u, entries[i].source));
    }
  }

  /** A clean disk after a list of owner writes. */
  function WriteAll(g: Disk, writes: seq<Write>): Disk {
    if writes == [] then g else ApplyWrite(WriteAll(g, writes[..|writes| - 1]), writes[|writes| - 1])
  }

  /** What happens between a crash and the last recovery. */
  datatype Turn = OwnerWrites(write: Write) | RecoveryCrashes

  /** The writes taken, in order. */
  function Taken(turns: seq<Turn>, taken: seq<bool>): seq<Write>
    requires |taken| == |turns| && forall i | 0 <= i < |turns| && taken[i] :: turns[i].OwnerWrites?
  {
    if turns == [] then []
    else
      var n := |turns| - 1;
      Taken(turns[..n], taken[..n]) + if taken[n] then [turns[n].write] else []
  }

  lemma TakenMore(turns: seq<Turn>, a: nat, taken: seq<bool>, accepted: bool)
    requires a < |turns| && |taken| == a && forall i | 0 <= i < a && taken[i] :: turns[i].OwnerWrites?
    requires accepted ==> turns[a].OwnerWrites?
    ensures Taken(turns[..a + 1], taken + [accepted]) == Taken(turns[..a], taken) + if accepted then [turns[a].write] else []
  {
    assert turns[..a + 1][..a] == turns[..a] && (taken + [accepted])[..a] == taken;
  }

  lemma NothingTaken(base: Disk, turns: seq<Turn>)
    ensures WriteAll(base, Taken(turns[..0], [])) == base
  {
  }

  lemma WriteMore(base: Disk, turns: seq<Turn>, a: nat, taken: seq<bool>, accepted: bool)
    requires a < |turns| && |taken| == a && forall i | 0 <= i < a && taken[i] :: turns[i].OwnerWrites?
    requires accepted ==> turns[a].OwnerWrites?
    ensures var before := WriteAll(base, Taken(turns[..a], taken));
            WriteAll(base, Taken(turns[..a + 1], taken + [accepted])) == if accepted then ApplyWrite(before, turns[a].write) else before
  {
    hide Taken, ApplyWrite;
    TakenMore(turns, a, taken, accepted);
    var earlier := Taken(turns[..a], taken);
    if accepted {
      assert (earlier + [turns[a].write])[..|earlier|] == earlier;
    } else {
      assert earlier + [] == earlier;
    }
  }

  /** What a rollback after some deletes has achieved. */
  lemma RolledBack(p: Pending, s: Disk, m: Disk, t: Disk, good: bool, g: Disk)
    requires Fenced(s, p.user, p.deletionId) && StagesRows(p.entries, s.accounts[p.user].sources) && p.deletionId in s.journals
    requires m.accounts == s.accounts && t.accounts == Cancel(m, p.user, p.deletionId).accounts
    requires t.journals == s.journals - {p.deletionId}
    requires forall k | k in m.objects :: k in s.objects && s.objects[k] == m.objects[k]
    requires forall k | k in s.objects && k !in m.objects :: k in Listed(p.entries, |p.entries|)
    requires PutBack(m.objects, t.objects, p.user, p.entries, s.journals[p.deletionId].blobs, |p.entries|)
    requires good ==> AllOrNothing(s, g, p.user) && AllOrNothing(t, g, p.user) && Restorable(g, p.user)
    requires good ==> forall i | 0 <= i < |p.entries| :: PutKey(p.user, p.entries[i].source) in s.objects
    ensures t.accounts == s.accounts[p.user := s.accounts[p.user].(fence := None)]
    ensures forall k | k in s.objects && k !in KeysOf(s.accounts[p.user].sources) :: k in t.objects && t.objects[k] == s.objects[k]
    ensures good ==> t.objects == s.objects && Inv(t, g)
    ensures good ==> forall k | k in g.objects && |k| >= 2 && k[1] == p.user :: k in t.objects && t.objects[k] == g.objects[k]
    ensures good && s.journals.Keys == {p.deletionId} ==> t == g
  {
    hide PutKey, AllOrNothing, Inv, Restorable, PutBack;
    ListedAll(p.entries, s.accounts[p.user].sources);
    KeptBack(m.objects, t.objects, p.user, p.entries, s.journals[p.deletionId].blobs);
    if good {
      StillThere(s, g, p.user);
      StillThere(t, g, p.user);
      SameObjects(p, s, m, t, g);
      OwnObjectsThere(t, g, p.user);
      if s.journals.Keys == {p.deletionId} {
        assert t.journals == map[];
        NoJournalsIsGoal(t, g);
      }
    }
  }

  lemma ListedAll(entries: seq<Entry>, rows: seq<Source>)
    requires StagesRows(entries, rows)
    ensures Listed(entries, |entries|) == KeysOf(rows)
  {
  }

  lemma KeptBack(m: map<Key, Blob>, after: map<Key, Blob>, u: string, entries: seq<Entry>, blobs: map<nat, Blob>)
    requires PutBack(m, after, u, entries, blobs, |entries|)
    ensures forall k | k in m :: k in after && after[k] == m[k]
  {
  }

  lemma SameObjects(p: Pending, s: Disk, m: Disk, t: Disk, g: Disk)
    requires p.user in s.accounts && StagesRows(p.entries, s.accounts[p.user].sources) && p.deletionId in s.journals
    requires Inv(s, g) && Inv(t, g) && Restorable(g, p.user)
    requires forall k | k in m.objects :: k in s.objects
    requires forall k | k in s.objects && k !in m.objects :: k in KeysOf(s.accounts[p.user].sources)
    requires forall i | 0 <= i < |p.entries| :: PutKey(p.user, p.entries[i].source) in s.objects
    requires PutBack(m.objects, t.objects, p.user, p.entries, s.journals[p.deletionId].blobs, |p.entries|)
    ensures t.objects == s.objects
  {
    hide PutKey, Inv, Restorable, PutBack, StagesRows, KeysOf;
    var rows, blobs := s.accounts[p.user].sources, s.journals[p.deletionId].blobs;
    RestorableRows(s, g, p.user);
    WholeAgain(s.objects, m.objects, t.objects, p.user, rows, p.entries, blobs);
    NothingElse(s.objects, m.objects, t.objects, p.user, p.entries, blobs);
    forall k | k in s.objects ensures t.objects[k] == s.objects[k] {
      Kept(s, g, k);
      Kept(t, g, k);
    }
  }

  lemma RestorableRows(s: Disk, g: Disk, u: string)
    requires Inv(s, g) && Restorable(g, u) && u in s.accounts
    ensures forall k | k in KeysOf(s.accounts[u].sources) :: PutKeyOf(u, s.accounts[u].sources, k)
  {
  }

  /** With every listed object deleted the row may go too. */
  lemma RowMayGo(p: Pending, s: Disk, m: Disk, g: Disk)
    requires AllOrNothing(m, g, p.user) && Restorable(g, p.user) && Fenced(m, p.user, p.deletionId)
    requires p.deletionId in m.journals && m.journals[p.deletionId].manifest == Some(Manifest(p.deletionId, p.user, p.entries))
    requires m.objects == s.objects - KeysOf(m.accounts[p.user].sources)
    requires forall i | 0 <= i < |p.entries| :: PutKey(p.user, p.entries[i].source) in s.objects
    ensures AllOrNothing(m.(accounts := m.accounts - {p.user}), g, p.user)
    ensures FencesNobody(m.accounts - {p.user}, p.deletionId)
  {
    DeleteRow(m, g, p.user, p.deletionId);
  }

  /** How `complete` ends: `Deleted` returned (or raised only while dropping its journal), `Failed` raised. */
  datatype Outcome = Deleted(finished: bool) | Failed(restored: bool)

  /** The keys of the first `n` entries. */
  function Listed(entries: seq<Entry>, n: nat): set<Key>
    requires n <= |entries|
  {
    set i | 0 <= i < n :: entries[i].source.key
  }

  class AccountDeletionCoordinator {
    var disk: Disk
    var passed: seq<Disk>   // every durable state so far, the present one last
    var locked: bool        // the operating-system lock behind the recovery lease
    var leases: set<string> // deletion ids whose lease this process holds
    var raised: nat         // effects that raised
    var calm: bool          // while set, no effect raises

    constructor (disk: Disk)
      ensures this.disk == disk && passed == [disk] && !locked && leases == {} && !calm
    {
      this.disk, this.passed, this.locked, this.leases, this.raised, this.calm := disk, [disk], false, {}, 0, false;
    }

    /** When `good`, every state passed so far is all-or-nothing for `u` against the goal `g`. */
    ghost predicate Tracked(good: bool, g: Disk, u: string)
      reads this`disk, this`passed
    {
      good ==> AllOrNothing(disk, g, u) && forall i | 0 <= i < |passed| :: AllOrNothing(passed[i], g, u)
    }

    /** A file or object-store effect: when it raises it may or may not have taken hold. */
    method Effect(next: Disk, ghost good: bool, ghost g: Disk, ghost u: string) returns (ok: bool)
      requires Tracked(good, g, u) && (good ==> AllOrNothing(next, g, u))
      modifies `disk, `passed, `raised
      ensures disk == next || (!ok && disk == old(disk))
      ensures passed == old(passed) + [disk]
      ensures raised == if ok then old(raised) else old(raised) + 1
      ensures calm ==> ok
      ensures Tracked(good, g, u)
    {
      ok := *;
      ok := ok || calm;
      var held := ok;
      if !ok {
        held := *;
        raised := raised + 1;
      }
      if held { disk := next; }
      passed := passed + [disk];
    }

    /** A database transaction: it takes hold exactly when it does not raise. */
    method Transaction(next: Disk, ghost good: bool, ghost g: Disk, ghost u: string) returns (ok: bool)
      requires Tracked(good, g, u) && (good ==> AllOrNothing(next, g, u))
      modifies `disk, `passed, `raised
      ensures disk == if ok then next else old(disk)
      ensures passed == old(passed) + [disk]
      ensures raised == if ok then old(raised) else old(raised) + 1
      ensures calm ==> ok
      ensures Tracked(good, g, u)
    {
      ok := *;
      ok := ok || calm;
      if ok { disk := next; } else { raised := raised + 1; }
      passed := passed + [disk];
    }

    /** One file of a journal directory disappears. */
    method RemoveFile(d: string, ghost good: bool, ghost g: Disk, ghost u: string) returns (ok: bool)
      requires Tracked(good, g, u) && d in disk.journals && Files(disk.journals[d]) > 0
      requires good ==> FencesNobody(disk.accounts, d)
      modifies `disk, `passed, `raised
      ensures old(passed) <= passed
      ensures Tracked(good, g, u) && d in disk.journals
      ensures WithoutJournal(disk, d) == WithoutJournal(old(disk), d)
      ensures disk.accounts == old(disk).accounts
      ensures ok ==> Files(disk.journals[d]) < Files(old(disk).journals[d])
      ensures raised == if ok then old(raised) else old(raised) + 1
      ensures calm ==> ok
    {
      hide AllOrNothing;
      var j := disk.journals[d];
      var takeManifest: bool := *;
      if j.blobs == map[] || (j.manifest.Some? && takeManifest) {
        j := j.(manifest := None);
      } else {
        var b :| b in j.blobs;
        Shrinks(j.blobs, b);
        j := j.(blobs := j.blobs - {b});
      }
      StaleChange(d, Some(j), good, g, u);
      SameButJournal(disk, d, j);
      ok := Effect(WithJournal(disk, d, j), good, g, u);
    }

    /** `durable_remove_tree`: files go one by one in any order, the directory last. */
    method RemoveTree(d: string, ghost good: bool, ghost g: Disk, ghost u: string) returns (ok: bool)
      requires Tracked(good, g, u) && d in disk.journals
      requires good ==> FencesNobody(disk.accounts, d)
      modifies `disk, `passed, `raised
      ensures old(passed) <= passed
      ensures Tracked(good, g, u)
      ensures WithoutJournal(disk, d) == WithoutJournal(old(disk), d)
      ensures ok ==> disk == WithoutJournal(old(disk), d)
      ensures raised == if ok then old(raised) else old(raised) + 1
      ensures calm ==> ok
    {
      hide AllOrNothing, Files;
      ok := true;
      while ok && Files(disk.journals[d]) > 0
        invariant Tracked(good, g, u) && d in disk.journals
        invariant old(passed) <= passed
        invariant WithoutJournal(disk, d) == WithoutJournal(old(disk), d)
        invariant raised == (if ok then old(raised) else old(raised) + 1) && (calm ==> ok)
        invariant disk.accounts == old(disk).accounts
        decreases ok, Files(disk.journals[d])
      {
        ok := RemoveFile(d, good, g, u);
      }
      if ok {
        StaleChange(d, None, good, g, u);
        ok := Effect(WithoutJournal(disk, d), good, g, u);
      }
    }

    lemma StaleChange(d: string, j: Option<Journal>, good: bool, g: Disk, u: string)
      requires Tracked(good, g, u)
      requires good ==> FencesNobody(disk.accounts, d)
      requires j.Some? && j.value.manifest.Some? ==>
                 || j.value.manifest.value.deletionId == d
                 || (d in disk.journals && j.value.manifest == disk.journals[d].manifest)
      ensures good ==> AllOrNothing(if j.Some? then WithJournal(disk, d, j.value) else WithoutJournal(disk, d), g, u)
    {
      if good {
        assert !Current(disk, d) by { assert Labelled(disk); }
        StaleJournalChange(disk, if u in disk.accounts then g else Gone(g, u), d, j);
      }
    }

    /** One row of the staging loop: the blob is durable before the manifest lists it. */
    method StageRow(u: string, d: string, entries: seq<Entry>, ghost good: bool, ghost g: Disk) returns (ok: bool)
      requires Tracked(good, g, u) && Fenced(disk, u, d)
      requires Staged(disk, u, d, entries, disk.accounts[u].sources)
      requires |entries| < |disk.accounts[u].sources| && disk.accounts[u].sources[|entries|].key in disk.objects
      requires good ==> Restorable(g, u)
      modifies `disk, `passed, `raised
      ensures old(passed) <= passed
      ensures Tracked(good, g, u)
      ensures disk.accounts == old(disk).accounts && disk.objects == old(disk).objects
      ensures WithoutJournal(disk, d) == WithoutJournal(old(disk), d)
      ensures d in disk.journals && Names(disk.journals[d], d, u)
      ensures ok ==> Staged(disk, u, d, entries + [Entry(disk.accounts[u].sources[|entries|], |entries|)], disk.accounts[u].sources)
      ensures ok ==> disk == WithJournal(old(disk), d, StagedNext(old(disk), u, d, entries)) && disk in passed
      ensures raised == (if ok then old(raised) else old(raised) + 1) && (calm ==> ok)
    {
      var n := |entries|;
      var row := disk.accounts[u].sources[n];
      var j := disk.journals[d];
      j := j.(blobs := j.blobs[n := disk.objects[row.key]]);
      SameButJournal(disk, d, j);
      if good { StagingGrows(disk, g, u, d, entries, j); }
      ok := Effect(WithJournal(disk, d, j), good, g, u);
      if ok {
        j := j.(manifest := Some(Manifest(d, u, entries + [Entry(row, n)])));
        SameButJournal(disk, d, j);
        if good { StagingGrows(disk, g, u, d, entries, j); }
        ok := Effect(WithJournal(disk, d, j), good, g, u);
      }
    }

    /** The staging loop of `prepare`; it stops at a row whose object cannot be read. */
    method Stage(u: string, d: string, ghost good: bool, ghost g: Disk) returns (ok: bool, entries: seq<Entry>)
      requires Tracked(good, g, u) && Fenced(disk, u, d)
      requires d in disk.journals && disk.journals[d] == Journal(Some(Manifest(d, u, [])), map[])
      requires good ==> Restorable(g, u)
      requires disk in passed
      modifies `disk, `passed, `raised
      ensures old(passed) <= passed
      ensures Tracked(good, g, u)
      ensures ok ==> PassedListings(old(disk), u, d, |entries|) && disk == Listing(old(disk), u, d, |entries|)
      ensures disk.accounts == old(disk).accounts && disk.objects == old(disk).objects
      ensures WithoutJournal(disk, d) == WithoutJournal(old(disk), d)
      ensures d in disk.journals && Names(disk.journals[d], d, u)
      ensures ok ==> |entries| == |disk.accounts[u].sources| && Staged(disk, u, d, entries, disk.accounts[u].sources)
      ensures raised >= old(raised) && (ok || calm ==> raised == old(raised))
      ensures !ok && raised == old(raised) ==> !AllStored(disk, u)
    {
      hide Listing, FirstRows, StagedNext, AllOrNothing, Restorable;
      var sources := disk.accounts[u].sources;
      ok, entries := true, [];
      ListingNothing(disk, u, d);
      while ok && |entries| < |sources|
        invariant Tracked(good, g, u) && disk.accounts == old(disk).accounts && disk.objects == old(disk).objects
        invariant old(passed) <= passed
        invariant WithoutJournal(disk, d) == WithoutJournal(old(disk), d)
        invariant d in disk.journals && Names(disk.journals[d], d, u) && |entries| <= |sources|
        invariant ok ==> Staged(disk, u, d, entries, sources)
        invariant ok ==> PassedListings(old(disk), u, d, |entries|) && disk == Listing(old(disk), u, d, |entries|)
        invariant raised >= old(raised) && (ok || calm ==> raised == old(raised))
        invariant !ok && raised == old(raised) ==> exists i :: 0 <= i < |sources| && sources[i].key !in disk.objects
        decreases ok, |sources| - |entries|
      {
        if sources[|entries|].key !in disk.objects {
          ok := false;
        } else {
          ghost var before := passed;
          ListingMore(old(disk), u, d, |entries|);
          ok := StageRow(u, d, entries, good, g);
          entries := entries + [Entry(sources[|entries|], |entries|)];
          if ok { MorePassed(before, passed); }
        }
      }
    }

    /** Every listing of the first rows was a durable state. */
    ghost predicate PassedListings(s: Disk, u: string, d: string, n: nat)
      reads `passed
    {
      CanList(s, u, n) && forall i | 0 <= i <= n :: Listing(s, u, d, i) in passed
    }

    lemma Relisted(s: Disk, u: string, d: string, n: nat)
      requires CanList(s, u, 0) && PassedListings(Listing(s, u, d, 0), u, d, n)
      ensures PassedListings(s, u, d, n) && Listing(Listing(s, u, d, 0), u, d, n) == Listing(s, u, d, n)
    {
      assert CanList(s, u, n);
      forall i: nat | i <= n ensures Listing(Listing(s, u, d, 0), u, d, i) == Listing(s, u, d, i) { ListingAgain(s, u, d, i); }
    }

    /** `_restore`: put back every listed object, stopping at the first put that is refused or raises. */
    method Restore(p: Pending, ghost good: bool, ghost g: Disk, ghost u: string) returns (ok: bool)
      requires Tracked(good, g, u) && Journalled(p)
      requires Fenced(disk, p.user, p.deletionId)
      modifies `disk, `passed, `raised
      ensures old(passed) <= passed
      ensures Tracked(good, g, u) && Journalled(p)
      ensures disk.accounts == old(disk).accounts && disk.journals == old(disk).journals
      ensures ok ==> Some(disk.objects) ==
                     Restored(old(disk).objects, p.user, p.entries, disk.journals[p.deletionId].blobs, |p.entries|)
      ensures ok ==> forall i | 0 <= i < |p.entries| :: PutKey(p.user, p.entries[i].source) in disk.objects
      ensures !ok && raised == old(raised) ==>
                None == Restored(old(disk).objects, p.user, p.entries, disk.journals[p.deletionId].blobs, |p.entries|)
      ensures ok ==> PutBack(old(disk).objects, disk.objects, p.user, p.entries, disk.journals[p.deletionId].blobs, |p.entries|)
      ensures !ok && raised == old(raised) ==> Refused(disk.objects, p.user, p.entries, disk.journals[p.deletionId].blobs)
      ensures good && raised == old(raised) ==> ok
      ensures raised >= old(raised) && (ok ==> raised == old(raised)) && (calm ==> raised == old(raised))
    {
      hide AllOrNothing, PutKey, Restored, PutBack;
      PutBackNone(disk.objects, p.user, p.entries, disk.journals[p.deletionId].blobs);
      RestoredStart(disk.objects, p.user, p.entries, disk.journals[p.deletionId].blobs);
      ok := true;
      var blobs := disk.journals[p.deletionId].blobs;
      var n := 0;
      while ok && n < |p.entries|
        invariant 0 <= n <= |p.entries|
        invariant Tracked(good, g, u) && Journalled(p) && Fenced(disk, p.user, p.deletionId)
        invariant old(passed) <= passed
        invariant disk.accounts == old(disk).accounts && disk.journals == old(disk).journals
        invariant ok ==> Some(disk.objects) == Restored(old(disk).objects, p.user, p.entries, blobs, n)
        invariant ok ==> forall i | 0 <= i < n :: PutKey(p.user, p.entries[i].source) in disk.objects
        invariant ok ==> PutBack(old(disk).objects, disk.objects, p.user, p.entries, blobs, n)
        invariant raised >= old(raised) && (ok ==> raised == old(raised)) && (calm ==> raised == old(raised))
        invariant !ok && raised == old(raised) ==>
            !good && None == Restored(old(disk).objects, p.user, p.entries, blobs, |p.entries|)
            && Refused(disk.objects, p.user, p.entries, blobs)
        decreases ok, |p.entries| - n
      {
        var e := p.entries[n];
        var k := PutKey(p.user, e.source);
        if good {
          Restorable1(p, n, g, u);
        }
        RestoredNext(old(disk).objects, p.user, p.entries, blobs, n);
        if e.blob !in blobs || (k in disk.objects && disk.objects[k] != blobs[e.blob]) {
          RestoredNone(old(disk).objects, p.user, p.entries, blobs, n + 1, |p.entries|);
          assert PutRefused(disk.objects, p.user, p.entries[n], blobs);
          ok := false;
        } else {
          PutBackMore(old(disk).objects, disk.objects, p.user, p.entries, blobs, n);
          ok := Effect(disk.(objects := disk.objects[k := blobs[e.blob]]), good, g, u);
          n := n + 1;
        }
      }
    }

    /** The journal directory, its empty manifest, and then the fence. */
    method Fence(u: string, d: string, ghost good: bool, ghost g: Disk) returns (ok: bool, began: bool)
      requires Tracked(good, g, u) && d !in disk.journals && FencesNobody(disk.accounts, d)
      modifies `disk, `passed, `raised
      ensures old(passed) <= passed
      ensures Tracked(good, g, u)
      ensures disk.objects == old(disk).objects
      ensures WithoutJournal(disk, d).journals == old(disk).journals
      ensures began ==> old(Writable(disk, u)) && disk.accounts == SetFence(old(disk), u, Some(d)).accounts
      ensures !began ==> disk.accounts == old(disk).accounts
      ensures ok ==> began && d in disk.journals && disk.journals[d] == Journal(Some(Manifest(d, u, [])), map[])
      ensures ok <== raised == old(raised) && old(Writable(disk, u))
      ensures ok ==> disk in passed && disk == Listing(SetFence(old(disk), u, Some(d)), u, d, 0)
      ensures raised >= old(raised) && (ok || calm ==> raised == old(raised))
      ensures began ==> ok
    {
      hide AllOrNothing, FirstRows;
      began := false;
      var j := Journal(None, map[]);
      assert WithoutJournal(disk, d) == disk;
      SameButJournal(disk, d, j);
      StaleChange(d, Some(j), good, g, u);
      ok := Effect(WithJournal(disk, d, j), good, g, u);
      if ok {
        j := Journal(Some(Manifest(d, u, [])), map[]);
        SameButJournal(disk, d, j);
        StaleChange(d, Some(j), good, g, u);
        ok := Effect(WithJournal(disk, d, j), good, g, u);
      }
      if ok {
        ok := Writable(disk, u);
      }
      if ok {
        if good {
          FenceUnderEmptyJournal(disk, g, u, d);
        }
        var fenced := SetFence(disk, u, Some(d));
        ok := Transaction(fenced, good, g, u);
        began := ok;
        FirstNone(SetFence(old(disk), u, Some(d)), u, d);
      }
    }

    /** The exception handler of `prepare`. */
    method Undo(u: string, d: string, began: bool, ghost good: bool, ghost g: Disk) returns (undone: bool)
      requires Tracked(good, g, u)
      requires began ==> Fenced(disk, u, d) && FencesNobody(disk.accounts - {u}, d)
      requires !began ==> FencesNobody(disk.accounts, d)
      requires good ==> Whole(disk, g, u)
      modifies this
      ensures old(passed) <= passed
      ensures Tracked(good, g, u)
      ensures leases == old(leases) - {d} && locked == (old(locked) && d !in old(leases))
      ensures disk.objects == old(disk).objects && WithoutJournal(disk, d).journals == WithoutJournal(old(disk), d).journals
      ensures undone ==> d !in disk.journals && disk.accounts == Cancel(old(disk), u, d).accounts
      ensures raised >= old(raised) && calm == old(calm) && (calm ==> raised == old(raised) && undone)
      ensures undone <==> raised == old(raised)
    {
      undone := true;
      if began {
        if good {
          forall i, k | Owes(disk, d, i, k) ensures k in disk.objects {
            assert Backed(disk, g, d);
          }
          LiftFence(disk, g, u, d);
        }
        CancelFrees(disk, u, d);
        undone := Transaction(Cancel(disk, u, d), good, g, u);
      }
      if undone && d in disk.journals {
        undone := RemoveTree(d, good, g, u);
      }
      Release(d);
    }

    /** Journal and fence, then every object, up to the first that raises or cannot be read. */
    method FenceAndStage(u: string, d: string, ghost good: bool, ghost g: Disk) returns (ok: bool, entries: seq<Entry>, began: bool)
      requires Tracked(good, g, u) && d !in disk.journals && FencesNobody(disk.accounts, d) && Writable(disk, u)
      requires good ==> Restorable(g, u)
      modifies `disk, `passed, `raised
      ensures old(passed) <= passed
      ensures Tracked(good, g, u)
      ensures disk.objects == old(disk).objects && WithoutJournal(disk, d).journals == old(disk).journals
      ensures disk.accounts == if began then SetFence(old(disk), u, Some(d)).accounts else old(disk).accounts
      ensures ok ==>
                && began && |entries| == |disk.accounts[u].sources| && Staged(disk, u, d, entries, disk.accounts[u].sources)
                && PassedListings(SetFence(old(disk), u, Some(d)), u, d, |entries|)
                && disk == Listing(SetFence(old(disk), u, Some(d)), u, d, |entries|)
      ensures !ok && raised == old(raised) ==> !AllStored(old(disk), u)
      ensures raised >= old(raised) && (ok || calm ==> raised == old(raised))
    {
      hide Restorable, PutKey, Inv, StagesRows, Staged, Cancel, AllOrNothing, Listing, PassedListings, AllStored;
      ghost var s := disk;
      ok, began := Fence(u, d, good, g);
      entries := [];
      if ok {
        SameStored(s, disk, u);
        ok, entries := Stage(u, d, good, g);
        SameStored(s, disk, u);
        if ok { Relisted(SetFence(s, u, Some(d)), u, d, |entries|); }
      }
    }

    /** The part of `prepare` under the lease: journal, fence, stage every object; on failure undo all of it. */
    method StageOrUndo(u: string, d: string, ghost good: bool, ghost g: Disk) returns (ok: bool, entries: seq<Entry>, undone: bool)
      requires Tracked(good, g, u) && d !in disk.journals && FencesNobody(disk.accounts, d) && Writable(disk, u)
      requires good ==> Restorable(g, u) && Whole(disk, g, u)
      modifies this
      ensures old(passed) <= passed
      ensures Tracked(good, g, u)
      ensures disk.objects == old(disk).objects && WithoutJournal(disk, d).journals == old(disk).journals
      ensures ok ==>
                && locked == old(locked) && leases == old(leases)
                && disk.accounts == SetFence(old(disk), u, Some(d)).accounts
                && Journalled(Pending(d, u, entries)) && OnlyFence(Pending(d, u, entries))
                && StagesRows(entries, disk.accounts[u].sources) && Staged(disk, u, d, entries, disk.accounts[u].sources)
                && (good ==> forall i | 0 <= i < |entries| :: PutKey(u, entries[i].source) in disk.objects)
                && PassedListings(SetFence(old(disk), u, Some(d)), u, d, |disk.accounts[u].sources|)
                && disk == Listing(SetFence(old(disk), u, Some(d)), u, d, |disk.accounts[u].sources|)
      ensures !ok ==> leases == old(leases) - {d} && locked == (old(locked) && d !in old(leases))
      ensures !ok && undone ==> disk == old(disk)
      ensures !ok && raised == old(raised) ==> undone && !AllStored(old(disk), u)
      ensures !ok && raised == old(raised) + 1 && AllStored(old(disk), u) ==> undone
      ensures calm == old(calm) && (calm ==> raised == old(raised) && (!ok ==> undone))
    {
      hide Restorable, PutKey, Inv, StagesRows, Staged, Cancel, AllOrNothing, Listing, PassedListings, AllStored, Whole, FencesNobody;
      ghost var s := disk;
      undone := false;
      OneFence(disk, u, d);
      var began;
      ok, entries, began := FenceAndStage(u, d, good, g);
      if !ok {
        ghost var m := disk;
        if good { SameWhole(s, disk, g, u); }
        undone := Undo(u, d, began, good, g);
        if undone { UndoneIsSame(s, m, disk, u, d); }
      } else {
        StagedRows(disk, u, d, entries, disk.accounts[u].sources);
        if good {
          StillThere(disk, g, u);
          StagedIsWhole(s, disk, g, u, d, entries);
        }
      }
    }

    /**
     `prepare`: take the lease, journal, fence, stage every object; on failure undo all of it. `allowed`
     says that the password is right and nothing else blocks the deletion. It is undone whenever the one
     effect that raised, if any, is the one that stopped it.
     */
    method Prepare(u: string, d: string, allowed: bool, ghost good: bool, ghost g: Disk) returns (r: Option<Pending>, undone: bool)
      requires Tracked(good, g, u)
      requires d !in disk.journals && FencesNobody(disk.accounts, d) && d !in leases // uuid4
      requires good ==> Restorable(g, u)
      modifies this
      ensures old(passed) <= passed
      ensures Tracked(good, g, u)
      ensures disk.objects == old(disk).objects && WithoutJournal(disk, d).journals == old(disk).journals
      ensures r.Some? ==>
                var p := r.value;
                && !old(locked) && locked && leases == old(leases) + {d}
                && old(Writable(disk, u)) && disk.accounts == SetFence(old(disk), u, Some(d)).accounts
                && p.deletionId == d && p.user == u && Journalled(p) && OnlyFence(p)
                && StagesRows(p.entries, disk.accounts[u].sources)
                && Staged(disk, u, d, p.entries, disk.accounts[u].sources)
                && (good ==> forall i | 0 <= i < |p.entries| :: PutKey(u, p.entries[i].source) in disk.objects)
      ensures r.None? ==> leases == old(leases) && locked == old(locked)
      ensures r.None? && undone ==> disk == old(disk)
      ensures r.None? && raised == old(raised) ==> undone
      ensures r.None? && raised == old(raised) + 1 && (u in old(disk).accounts ==> AllStored(old(disk), u)) ==> undone
      ensures calm == old(calm) && (calm ==> raised == old(raised) && (r.None? ==> undone))
      ensures r.Some? ==> PassedListings(SetFence(old(disk), u, Some(d)), u, d, |disk.accounts[u].sources|)
                          && disk == Listing(SetFence(old(disk), u, Some(d)), u, d, |disk.accounts[u].sources|)
      ensures allowed && !old(locked) && old(Writable(disk, u)) && raised == old(raised) && AllStored(old(disk), u) ==> r.Some?
    {
      hide Restorable, PutKey, Inv, StagesRows, Staged, Cancel, AllOrNothing, Listing, PassedListings, AllStored, Whole;
      if !allowed || !Writable(disk, u) || locked {
        SameJournals(disk, d);
        return None, true;
      }
      locked := true;
      leases := leases + {d};
      if good {
        StillThere(disk, g, u);
        UnfencedIsWhole(disk, g, u);
      }
      var ok, entries, done := StageOrUndo(u, d, good, g);
      if !ok { return None, done; }
      return Some(Pending(d, u, entries)), false;
    }

    /** `rollback`: restore every object, lift the fence, drop the journal, always release the lease. */
    method Rollback(p: Pending, ghost good: bool, ghost g: Disk, ghost u: string) returns (done: bool)
      requires Tracked(good, g, u) && Journalled(p)
      requires Fenced(disk, p.user, p.deletionId) && OnlyFence(p)
      modifies this
      ensures old(passed) <= passed
      ensures Tracked(good, g, u)
      ensures leases == old(leases) - {p.deletionId} && locked == (old(locked) && p.deletionId !in old(leases))
      ensures disk.accounts == old(disk).accounts || disk.accounts == Cancel(old(disk), p.user, p.deletionId).accounts
      ensures done ==> && disk.accounts == Cancel(old(disk), p.user, p.deletionId).accounts
                       && disk.journals == old(disk).journals - {p.deletionId}
                       && Some(disk.objects) == Restored(old(disk).objects, p.user, p.entries,
                                                         old(disk).journals[p.deletionId].blobs, |p.entries|)
      ensures done ==> PutBack(old(disk).objects, disk.objects, p.user, p.entries, old(disk).journals[p.deletionId].blobs, |p.entries|)
      ensures !done && raised == old(raised) ==>
                Refused(disk.objects, p.user, p.entries, old(disk).journals[p.deletionId].blobs)
      ensures good && raised == old(raised) ==> done
      ensures raised >= old(raised)
    {
      hide PutBack, Refused, AllOrNothing, Restored;
      CancelFrees(disk, p.user, p.deletionId);
      done := RestoreAndUnfence(p, good, g, u);
      if done {
        done := RemoveTree(p.deletionId, good, g, u);
      }
      Release(p.deletionId);
    }

    /** No other account carries this deletion's fence. */
    ghost predicate OnlyFence(p: Pending)
      reads `disk
    {
      FencesNobody(disk.accounts - {p.user}, p.deletionId)
    }

    /** The object deletes of `complete`, stopping at the first that raises. */
    method DeleteObjects(p: Pending, ghost good: bool, ghost g: Disk) returns (ok: bool)
      requires Tracked(good, g, p.user) && Journalled(p) && Fenced(disk, p.user, p.deletionId)
      requires StagesRows(p.entries, disk.accounts[p.user].sources)
      requires good ==> Restorable(g, p.user)
      requires disk in passed
      modifies `disk, `passed, `raised
      ensures old(passed) <= passed
      ensures Tracked(good, g, p.user)
      ensures ok ==> PassedDeletes(old(disk), p.entries, |p.entries|)
      ensures disk.accounts == old(disk).accounts && disk.journals == old(disk).journals
      ensures forall k | k !in Listed(p.entries, |p.entries|) ::
                (k in disk.objects <==> k in old(disk).objects) && (k in disk.objects ==> disk.objects[k] == old(disk).objects[k])
      ensures forall k | k in disk.objects :: k in old(disk).objects && disk.objects[k] == old(disk).objects[k]
      ensures ok ==> disk.objects == old(disk).objects - Listed(p.entries, |p.entries|)
      ensures ok <==> raised == old(raised)
      ensures calm ==> ok
      ensures raised >= old(raised)
    {
      hide AllOrNothing, Inv, Restorable;
      ok := true;
      var n := 0;
      while ok && n < |p.entries|
        invariant 0 <= n <= |p.entries|
        invariant Tracked(good, g, p.user) && disk.accounts == old(disk).accounts && disk.journals == old(disk).journals
        invariant old(passed) <= passed
        invariant forall k | k !in Listed(p.entries, |p.entries|) ::
            (k in disk.objects <==> k in old(disk).objects) && (k in disk.objects ==> disk.objects[k] == old(disk).objects[k])
        invariant forall k | k in disk.objects :: k in old(disk).objects && disk.objects[k] == old(disk).objects[k]
        invariant ok ==> disk.objects == old(disk).objects - Listed(p.entries, n)
        invariant ok ==> PassedDeletes(old(disk), p.entries, n)
        invariant (ok <==> raised == old(raised)) && (calm ==> ok)
        invariant raised >= old(raised)
        decreases ok, |p.entries| - n
      {
        var k := p.entries[n].source.key;
        if good {
          StillThere(disk, g, p.user);
          Delete1(p, n, g);
          StillThere(disk.(objects := disk.objects - {k}), g, p.user);
        }
        assert k in Listed(p.entries, n + 1);
        ghost var before := passed;
        assert Listed(p.entries, n + 1) == Listed(p.entries, n) + {k};
        ok := Effect(disk.(objects := disk.objects - {k}), good, g, p.user);
        n := n + 1;
        if ok { MorePassed(before, passed); }
      }
    }

    /** Every disk without the objects of the first entries was a durable state. */
    ghost predicate PassedDeletes(s: Disk, entries: seq<Entry>, n: nat)
      requires n <= |entries|
      reads `passed
    {
      forall i | 0 <= i <= n :: s.(objects := s.objects - Listed(entries, i)) in passed
    }

    /** `complete`: delete every object, then the row; any failure before the row delete rolls back. */
    method Complete(p: Pending, ghost good: bool, ghost g: Disk) returns (outcome: Outcome)
      requires Tracked(good, g, p.user) && Journalled(p) && Fenced(disk, p.user, p.deletionId) && OnlyFence(p)
      requires StagesRows(p.entries, disk.accounts[p.user].sources)
      requires good ==> Restorable(g, p.user)
      requires good ==> forall i | 0 <= i < |p.entries| :: PutKey(p.user, p.entries[i].source) in disk.objects
      requires disk in passed
      modifies this
      ensures old(passed) <= passed
      ensures outcome.Deleted? ==> PassedDeletes(old(disk), p.entries, |p.entries|)
      ensures Tracked(good, g, p.user)
      ensures leases == old(leases) - {p.deletionId} && locked == (old(locked) && p.deletionId !in old(leases))
      ensures outcome.Deleted? ==>
                && disk.accounts == old(disk).accounts - {p.user}
                && disk.objects == old(disk).objects - KeysOf(old(disk).accounts[p.user].sources)
                && (outcome.finished ==> disk.journals == old(disk).journals - {p.deletionId})
      ensures outcome == Failed(true) ==>
                && disk.accounts == old(disk).accounts[p.user := old(disk).accounts[p.user].(fence := None)]
                && disk.journals == old(disk).journals - {p.deletionId}
                && (forall k | k in old(disk).objects && k !in KeysOf(old(disk).accounts[p.user].sources) ::
                      k in disk.objects && disk.objects[k] == old(disk).objects[k])
                && (good ==> disk.objects == old(disk).objects && Inv(disk, g))
      ensures good && outcome == Failed(true) ==>
                && (forall k | k in g.objects && |k| >= 2 && k[1] == p.user :: k in disk.objects && disk.objects[k] == g.objects[k])
                && (old(disk).journals.Keys == {p.deletionId} ==> disk == g)
      ensures raised == old(raised) + 1 && !outcome.Deleted? ==>
                outcome == Failed(true)
                || (!good && Refused(disk.objects, p.user, p.entries, old(disk).journals[p.deletionId].blobs))
      ensures old(raised) == raised ==> outcome == Deleted(true)
      ensures old(calm) ==> outcome == Deleted(true)
    {
      hide PutBack, Refused, Inv, Restorable, Restored, AllOrNothing;
      ghost var s := disk;
      var ok := DeleteObjects(p, good, g);
      if ok {
        assert Listed(p.entries, |p.entries|) == KeysOf(disk.accounts[p.user].sources);
        if good {
          RowMayGo(p, s, disk, g);
        }
        ok := Transaction(disk.(accounts := disk.accounts - {p.user}), good, g, p.user);
      }
      if !ok {
        ghost var m := disk;
        var restored := Rollback(p, good, g, p.user);
        if restored { RolledBack(p, s, m, disk, good, g); }
        return Failed(restored);
      }
      ghost var before := passed;
      var finished := RemoveTree(p.deletionId, good, g, p.user);
      MorePassed(before, passed);
      Release(p.deletionId);
      return Deleted(finished);
    }

    /** One journal of `recover_pending`: restore and unfence if it is current, then drop it. */
    method RecoverOne(d: string, ghost good: bool, ghost g: Disk, ghost u: string) returns (done: bool)
      requires Tracked(good, g, u) && d in disk.journals
      modifies `disk, `passed, `raised
      ensures old(passed) <= passed
      ensures Tracked(good, g, u)
      ensures disk.accounts.Keys == old(disk).accounts.Keys
      ensures WithoutJournal(disk, d).journals == WithoutJournal(old(disk), d).journals
      ensures done ==> d !in disk.journals
      ensures done && old(Current(disk, d)) ==>
                var m := old(disk).journals[d].manifest.value;
                && disk.accounts == Cancel(old(disk), m.user, d).accounts
                && Some(disk.objects) == Restored(old(disk).objects, m.user, m.entries, old(disk).journals[d].blobs, |m.entries|)
      ensures !old(Current(disk, d)) ==> disk.accounts == old(disk).accounts && disk.objects == old(disk).objects
      ensures good && raised == old(raised) ==> done
      ensures raised >= old(raised) && (calm ==> raised == old(raised))
    {
      ghost var t := if u in disk.accounts then g else Gone(g, u);
      if disk.journals[d].manifest.Some? {
        var m := disk.journals[d].manifest.value;
        if m.deletionId != d {
          return false;
        }
        if Fenced(disk, m.user, m.deletionId) {
          if good {
            CurrentFencesOne(disk, t, d);
          }
          done := RestoreAndUnfence(Pending(d, m.user, m.entries), good, g, u);
          if !done { return; }
        } else if good {
          NotCurrentFencesNobody(disk, t, d);
        }
      } else if good {
        NotCurrentFencesNobody(disk, t, d);
      }
      done := RemoveTree(d, good, g, u);
    }

    /** The part `rollback` and recovery share: every object back, then the fence off. */
    method RestoreAndUnfence(p: Pending, ghost good: bool, ghost g: Disk, ghost u: string) returns (done: bool)
      requires Tracked(good, g, u) && Journalled(p) && Fenced(disk, p.user, p.deletionId)
      requires good ==> OnlyFence(p)
      modifies `disk, `passed, `raised
      ensures old(passed) <= passed
      ensures Tracked(good, g, u) && disk.journals == old(disk).journals
      ensures disk.accounts == if done then Cancel(old(disk), p.user, p.deletionId).accounts else old(disk).accounts
      ensures done ==> Some(disk.objects) == Restored(old(disk).objects, p.user, p.entries,
                                                      old(disk).journals[p.deletionId].blobs, |p.entries|)
      ensures done ==> PutBack(old(disk).objects, disk.objects, p.user, p.entries, old(disk).journals[p.deletionId].blobs, |p.entries|)
      ensures !done && raised == old(raised) ==>
                Refused(disk.objects, p.user, p.entries, old(disk).journals[p.deletionId].blobs)
      ensures done && good ==> FencesNobody(disk.accounts, p.deletionId)
      ensures good && raised == old(raised) ==> done
      ensures raised >= old(raised) && (calm ==> raised == old(raised))
    {
      done := Restore(p, good, g, u);
      if done {
        if good {
          LiftFence(disk, if u in disk.accounts then g else Gone(g, u), p.user, p.deletionId);
        }
        done := Transaction(Cancel(disk, p.user, p.deletionId), good, g, u);
      }
    }

    /** `recover_pending`: every journal found at the start is settled, in whatever order they are listed. */
    method RecoverPending(ghost good: bool, ghost g: Disk, ghost u: string) returns (done: bool)
      requires Tracked(good, g, u)
      modifies this
      ensures old(passed) <= passed
      ensures Tracked(good, g, u) && locked == old(locked) && leases == old(leases)
      ensures disk.accounts.Keys == old(disk).accounts.Keys
      ensures old(locked) ==> disk == old(disk) && !done
      ensures done ==> disk.journals == map[]
      ensures done && good ==> disk == if u in old(disk).accounts then g else Gone(g, u)
      ensures good && raised == old(raised) && !locked ==> done
      ensures calm == old(calm) && (calm ==> raised == old(raised))
    {
      if locked {
        return false;
      }
      locked := true;
      done := true;
      var todo := disk.journals.Keys;
      while done && todo != {}
        invariant Tracked(good, g, u) && leases == old(leases) && raised >= old(raised)
        invariant calm == old(calm) && (calm ==> raised == old(raised))
        invariant old(passed) <= passed
        invariant disk.accounts.Keys == old(disk).accounts.Keys
        invariant done ==> todo == disk.journals.Keys
        invariant good && raised == old(raised) ==> done
        decreases done, todo
      {
        var d :| d in todo;
        ghost var before := disk;
        done := RecoverOne(d, good, g, u);
        assert done ==> disk.journals.Keys == before.journals.Keys - {d} by {
          assert WithoutJournal(disk, d).journals.Keys == WithoutJournal(before, d).journals.Keys;
        }
        todo := todo - {d};
      }
      if done && good {
        NoJournalsIsGoal(disk, if u in disk.accounts then g else Gone(g, u));
      }
      locked := false;
    }

    /** One deletion attempt, confirmed or called off, that crashes anywhere. */
    method AttemptAndCrash(u: string, d: string, ghost g: Disk)
      requires Inv(disk, g) && Restorable(g, u)
      requires d !in disk.journals && FencesNobody(disk.accounts, d) && d !in leases
      modifies this
      ensures AllOrNothing(disk, g, u) && !locked && leases == {}
    {
      passed := [disk];
      assert u !in disk.accounts ==> Gone(g, u) == g;
      var allowed: bool := *;
      var p, _ := Prepare(u, d, allowed, true, g);
      if p.Some? {
        var confirmed: bool := *;
        if confirmed {
          var outcome := Complete(p.value, true, g);
        } else {
          var done := Rollback(p.value, true, g, u);
        }
      }
      Crash(g, u);
    }

    /** One recovery attempt that crashes anywhere. */
    method RecoverAndCrash(ghost g: Disk)
      requires Inv(disk, g)
      modifies this
      ensures Inv(disk, g) && !locked && leases == {}
    {
      ghost var nobody := Longer(g.accounts.Keys);
      passed := [disk];
      var done := RecoverPending(true, g, nobody);
      Crash(g, nobody);
    }

    /** An owner write between two recoveries, refused while the owner is fenced or gone. */
    method OwnerWrite(w: Write, ghost g: Disk) returns (accepted: bool)
      requires Inv(disk, g)
      modifies `disk
      ensures accepted == old(Writable(disk, w.owner))
      ensures disk == if accepted then ApplyWrite(old(disk), w) else old(disk)
      ensures !accepted || !(|w.key| >= 2 && w.key[0] == "users" && w.key[1] == w.owner) ==> disk == old(disk)
      ensures accepted && |w.key| >= 2 && w.key[0] == "users" && w.key[1] == w.owner ==>
                && disk.accounts == old(disk).accounts[w.owner := Account(None, w.sources)]
                && (w.blob.Some? ==> disk.objects == old(disk).objects[w.key := w.blob.value])
                && (w.blob.None? ==> disk.objects == old(disk).objects - {w.key})
      ensures disk.journals == old(disk).journals
      ensures Inv(disk, if accepted then ApplyWrite(g, w) else g)
    {
      accepted := Writable(disk, w.owner);
      if accepted {
        WriteSurvivesRecovery(disk, g, w);
        disk := ApplyWrite(disk, w);
      }
    }

    /** One recovery that is not interrupted. */
    method Recover(ghost g: Disk) returns (done: bool)
      requires Inv(disk, g) && !locked
      modifies this
      ensures done ==> disk == g
      ensures raised == old(raised) ==> done
      ensures calm == old(calm) && (calm ==> done)
      ensures Inv(disk, g)
    {
      ghost var nobody := Longer(g.accounts.Keys);
      passed := [disk];
      done := RecoverPending(true, g, nobody);
    }

    /**
     The whole story: a deletion attempt that crashes anywhere, then owner writes and recovery attempts
     that crash anywhere, in any order, then one recovery. `taken` tells which of the writes were
     accepted. The disk then owes, and once the last recovery is through it is, the original disk or the
     one without the account and the objects its rows listed, plus exactly the writes taken, in order.
     The last recovery gets through whenever none of its effects raises.
     */
    method DeleteCrashRecover(u: string, d: string, turns: seq<Turn>, undisturbed: bool, ghost g: Disk)
      returns (recovered: bool, ghost deleted: bool, taken: seq<bool>)
      requires Inv(disk, g) && Restorable(g, u)
      requires d !in disk.journals && FencesNobody(disk.accounts, d) && d !in leases
      modifies this
      ensures |taken| == |turns| && forall i | 0 <= i < |turns| && taken[i] :: turns[i].OwnerWrites?
      ensures Inv(disk, WriteAll(if deleted then Gone(g, u) else g, Taken(turns, taken)))
      ensures recovered ==> disk == WriteAll(if deleted then Gone(g, u) else g, Taken(turns, taken))
      ensures undisturbed ==> recovered
    {
      hide Inv, WriteAll, Taken, ApplyWrite, Restorable;
      AttemptAndCrash(u, d, g);
      deleted := u !in disk.accounts;
      taken := [];
      ghost var base := if deleted then Gone(g, u) else g;
      NothingTaken(base, turns);
      for a := 0 to |turns|
        invariant |taken| == a && forall i | 0 <= i < a && taken[i] :: turns[i].OwnerWrites?
        invariant Inv(disk, WriteAll(base, Taken(turns[..a], taken))) && !locked
      {
        ghost var owed := WriteAll(base, Taken(turns[..a], taken));
        var accepted := false;
        if turns[a].OwnerWrites? {
          accepted := OwnerWrite(turns[a].write, owed);
        } else {
          RecoverAndCrash(owed);
        }
        WriteMore(base, turns, a, taken, accepted);
        taken := taken + [accepted];
      }
      assert turns[..|turns|] == turns;
      calm := undisturbed;
      recovered := Recover(WriteAll(base, Taken(turns, taken)));
    }

    /** The process stops at some durable state it passed; its leases die with it. */
    method Crash(ghost g: Disk, ghost u: string)
      requires Tracked(true, g, u)
      modifies this
      ensures AllOrNothing(disk, g, u) && disk in old(passed) + [old(disk)]
      ensures !locked && leases == {}
    {
      var i: int := *;
      if 0 <= i < |passed| {
        disk := passed[i];
      }
      locked, leases := false, {};
    }

    lemma Delete1(p: Pending, n: nat, g: Disk)
      requires Inv(disk, g) && Restorable(g, p.user) && Journalled(p) && Fenced(disk, p.user, p.deletionId)
      requires StagesRows(p.entries, disk.accounts[p.user].sources) && n < |p.entries|
      ensures Inv(disk.(objects := disk.objects - {p.entries[n].source.key}), g)
    {
      var rows := disk.accounts[p.user].sources;
      assert g.accounts[p.user].sources == rows;
      assert rows[n].key in KeysOf(rows);
      var j :| 0 <= j < |rows| && PutKey(p.user, rows[j]) == rows[n].key;
      assert Owes(disk, p.deletionId, j, rows[n].key);
      DeleteListedObject(disk, g, p.deletionId, j, rows[n].key);
    }

    lemma Restorable1(p: Pending, n: nat, g: Disk, u: string)
      requires AllOrNothing(disk, g, u) && Journalled(p) && Fenced(disk, p.user, p.deletionId) && n < |p.entries|
      ensures var e := p.entries[n]; var k := PutKey(p.user, e.source);
              var blobs := disk.journals[p.deletionId].blobs;
              && e.blob in blobs
              && (k in disk.objects ==> disk.objects[k] == blobs[e.blob])
              && AllOrNothing(disk.(objects := disk.objects[k := blobs[e.blob]]), g, u)
    {
      var t := if u in disk.accounts then g else Gone(g, u);
      assert Owes(disk, p.deletionId, n, PutKey(p.user, p.entries[n].source));
      RestoreListedObject(disk, t, p.deletionId, n, PutKey(p.user, p.entries[n].source));
    }

    /** The journal on disk is the one `p` stands for. */
    predicate Journalled(p: Pending)
      reads `disk
    {
      p.deletionId in disk.journals && disk.journals[p.deletionId].manifest == Some(Manifest(p.deletionId, p.user, p.entries))
    }

    /** `_release`: the lease ends with its deletion. */
    method Release(d: string)
      modifies `locked, `leases
      ensures leases == old(leases) - {d}
      ensures locked == (old(locked) && d !in old(leases))
    {
      if d in leases { locked := false; }
      leases := leases - {d};
    }
  }

  /** A refused put stops the restore for good. */
  lemma {:induction false} RestoredNone(objects: map<Key, Blob>, user: string, entries: seq<Entry>, blobs: map<nat, Blob>, m: nat, n: nat)
    requires m <= n <= |entries| && Restored(objects, user, entries, blobs, m) == None
    ensures Restored(objects, user, entries, blobs, n) == None
  {
    if m < n { RestoredNone(objects, user, entries, blobs, m, n - 1); }
  }

  /** Some name is longer than every given one, hence new. */
  lemma Longer(names: set<string>) returns (x: string)
    ensures forall y | y in names :: |y| < |x|
  {
    if names == {} {
      x := "";
    } else {
      var y :| y in names;
      x := Longer(names - {y});
      x := x + y + "+";
    }
  }

  lemma Shrinks<K, V>(m: map<K, V>, k: K)
    requires k in m
    ensures |m - {k}| < |m|
  {
    assert (m - {k}).Keys == m.Keys - {k};
    assert |(m - {k}).Keys| == |m.Keys| - 1;
  }
}
