/**
 Account deletion with owner writes between any two of its durable effects.

 One deletion or recovery runs at a time, under its lease; its `Phase` is how far it has come. Between
 two effects any owner may write, an effect may raise, or the process may stop. `ideal` is the disk of
 a service without crashes, where an account disappears in one step and only accepted writes happen.
 */
module DeletionInterleaved {
  import opened Wrappers
  import opened DeletionJournal
  import opened AccountDeletion
  import DeletionExactness

  datatype Phase =
    | Idle
    | Opened(u: string, d: string)              // the journal directory is made
    | Manifested(u: string, d: string)          // its empty manifest is written
    | Staging(u: string, d: string, n: nat)     // fenced, the first n rows are listed
    | Blobbed(u: string, d: string, n: nat)     // the blob of row n is written as well
    | Cancelling(u: string, d: string)          // the handler of `prepare`
    | Deleting(u: string, d: string, n: nat)    // the first n objects are deleted
    | Restoring(u: string, d: string, n: nat)   // the first n entries are back
    | Tearing(d: string)                        // the journal goes, file by file

  datatype State = State(disk: Disk, phase: Phase, ideal: Disk)

  datatype Event =
    | Start(u: string, d: string)   // `prepare`
    | Recover(d: string)            // `recover_pending` on one journal
    | Next                          // the next effect
    | Drop(j: Journal)              // some files of the journal are removed
    | Fails                         // the next effect raises
    | CallOff                       // `rollback` instead of `complete`
    | Crash
    | Writes(w: Write)

  function Rows(s: Disk, u: string): seq<Source> {
    if u in s.accounts then s.accounts[u].sources else []
  }

  /** The next effect of the coordinator, or the branch it takes without one. */
  function OnNext(x: State): State {
    var s := x.disk;
    match x.phase
    case Idle => x
    case Opened(u, d) => x.(disk := WithJournal(s, d, Journal(Some(Manifest(d, u, [])), map[])), phase := Manifested(u, d))
    case Manifested(u, d) =>
      if !Writable(s, u) then x.(phase := Tearing(d))
      else x.(disk := SetFence(s, u, Some(d)), phase := Staging(u, d, 0))
    case Staging(u, d, n) =>
      if n >= |Rows(s, u)| then x.(phase := Deleting(u, d, 0))
      else if Rows(s, u)[n].key !in s.objects || d !in s.journals then x.(phase := Cancelling(u, d))
      else
        var j := s.journals[d];
        x.(disk := WithJournal(s, d, j.(blobs := j.blobs[n := s.objects[Rows(s, u)[n].key]])), phase := Blobbed(u, d, n))
    case Blobbed(u, d, n) =>
      if n >= |Rows(s, u)| || d !in s.journals || s.journals[d].manifest.None? then x.(phase := Cancelling(u, d))
      else
        var j := s.journals[d];
        var entries := j.manifest.value.entries + [Entry(Rows(s, u)[n], n)];
        x.(disk := WithJournal(s, d, j.(manifest := Some(Manifest(d, u, entries)))), phase := Staging(u, d, n + 1))
    case Cancelling(u, d) => x.(disk := Cancel(s, u, d), phase := Tearing(d))
    case Deleting(u, d, n) =>
      if n < |Rows(s, u)| then x.(disk := s.(objects := s.objects - {Rows(s, u)[n].key}), phase := Deleting(u, d, n + 1))
      else State(s.(accounts := s.accounts - {u}), Tearing(d), Gone(x.ideal, u))
    case Restoring(u, d, n) =>
      if d !in s.journals || s.journals[d].manifest.None? then x.(phase := Idle)
      else
        var j := s.journals[d];
        var entries := j.manifest.value.entries;
        if n >= |entries| then x.(disk := Cancel(s, u, d), phase := Tearing(d))
        else
          var k := PutKey(u, entries[n].source);
          if entries[n].blob !in j.blobs || (k in s.objects && s.objects[k] != j.blobs[entries[n].blob]) then x.(phase := Idle)
          else x.(disk := s.(objects := s.objects[k := j.blobs[entries[n].blob]]), phase := Restoring(u, d, n + 1))
    case Tearing(d) =>
      if d in s.journals && Files(s.journals[d]) > 0 then x
      else x.(disk := WithoutJournal(s, d), phase := Idle)
  }

  /** Where the handlers take a coordinator whose next effect raised. */
  function OnFails(p: Phase): Phase {
    match p
    case Opened(_, d) => Tearing(d)
    case Manifested(_, d) => Tearing(d)
    case Staging(u, d, _) => Cancelling(u, d)
    case Blobbed(u, d, _) => Cancelling(u, d)
    case Deleting(u, d, _) => Restoring(u, d, 0)
    case _ => Idle
  }

  predicate Fewer(j: Journal, k: Journal) {
    && (j.manifest == k.manifest || j.manifest.None?) && j.blobs.Keys <= k.blobs.Keys
    && forall b | b in j.blobs :: j.blobs[b] == k.blobs[b]
  }

  function OnStart(x: State, u: string, d: string): State {
    if x.phase == Idle && Writable(x.disk, u) && d !in x.disk.journals then
      x.(disk := WithJournal(x.disk, d, Journal(None, map[])), phase := Opened(u, d))
    else x
  }

  function OnRecover(x: State, d: string): State {
    if x.phase != Idle || d !in x.disk.journals then x
    else if Current(x.disk, d) then x.(phase := Restoring(x.disk.journals[d].manifest.value.user, d, 0))
    else x.(phase := Tearing(d))
  }

  function OnDrop(x: State, j: Journal): State {
    if x.phase.Tearing? && x.phase.d in x.disk.journals && Fewer(j, x.disk.journals[x.phase.d])
    then x.(disk := WithJournal(x.disk, x.phase.d, j))
    else x
  }

  /** A write under `lock_writable_owner`; the rows it stores carry the keys `put` computes. */
  function OnWrite(x: State, w: Write): State {
    if Writable(x.disk, w.owner) && CanonicalRows(w.owner, w.sources)
    then x.(disk := ApplyWrite(x.disk, w), ideal := ApplyWrite(x.ideal, w))
    else x
  }

  function Step(x: State, e: Event): State {
    match e
    case Start(u, d) => OnStart(x, u, d)
    case Recover(d) => OnRecover(x, d)
    case Next => OnNext(x)
    case Drop(j) => OnDrop(x, j)
    case Fails => x.(phase := OnFails(x.phase))
    case CallOff => if x.phase.Deleting? && x.phase.n == 0 then x.(phase := Restoring(x.phase.u, x.phase.d, 0)) else x
    case Crash => x.(phase := Idle)
    case Writes(w) => OnWrite(x, w)
  }

  function Run(g: Disk, events: seq<Event>): State {
    if events == [] then State(g, Idle, g) else Step(Run(g, events[..|events| - 1]), events[|events| - 1])
  }

  // ---------------------------------------------------------------- what every step keeps

  ghost predicate AllCanonical(g: Disk) {
    forall u | u in g.accounts :: CanonicalRows(u, g.accounts[u].sources)
  }

  /** A journal that fences nobody, so that it may go. */
  ghost predicate Stale(s: Disk, d: string) {
    FencesNobody(s.accounts, d)
  }

  /** The account is fenced by `d`, whose journal lists exactly its first `n` rows with their blobs. */
  ghost predicate ListsRows(s: Disk, g: Disk, u: string, d: string, n: nat) {
    && Fenced(s, u, d) && d in s.journals && n <= |Rows(s, u)|
    && s.journals[d].manifest.Some? && s.journals[d].manifest.value.deletionId == d && s.journals[d].manifest.value.user == u
    && |s.journals[d].manifest.value.entries| == n
    && forall i | 0 <= i < n ::
         && s.journals[d].manifest.value.entries[i] == Entry(Rows(s, u)[i], i)
         && Rows(s, u)[i].key in g.objects && i in s.journals[d].blobs
         && s.journals[d].blobs[i] == g.objects[Rows(s, u)[i].key]
  }

  /** None of the account's listed objects is missing yet. */
  ghost predicate NoneMissing(s: Disk, u: string, n: nat) {
    forall i | 0 <= i < n && i < |Rows(s, u)| :: Rows(s, u)[i].key in s.objects
  }

  /** What the coordinator may rely on at each phase, whoever writes in between. */
  ghost predicate PhaseOk(s: Disk, g: Disk, p: Phase) {
    match p
    case Idle => true
    case Opened(u, d) => d in s.journals && s.journals[d] == Journal(None, map[]) && Stale(s, d)
    case Manifested(u, d) => d in s.journals && s.journals[d] == Journal(Some(Manifest(d, u, [])), map[]) && Stale(s, d)
    case Staging(u, d, n) => ListsRows(s, g, u, d, n) && NoneMissing(s, u, n)
    case Blobbed(u, d, n) =>
      && ListsRows(s, g, u, d, n) && NoneMissing(s, u, n) && n < |Rows(s, u)|
      && Rows(s, u)[n].key in s.objects && n in s.journals[d].blobs && s.journals[d].blobs[n] == s.objects[Rows(s, u)[n].key]
    case Cancelling(u, d) => exists n :: ListsRows(s, g, u, d, n) && NoneMissing(s, u, n)
    case Deleting(u, d, n) =>
      ListsRows(s, g, u, d, |Rows(s, u)|) && forall i | 0 <= i < n && i < |Rows(s, u)| :: Rows(s, u)[i].key !in s.objects
    case Restoring(u, d, n) =>
      && Current(s, d) && s.journals[d].manifest.value.user == u && s.journals[d].manifest.value.deletionId == d
      && forall i | 0 <= i < n && i < |s.journals[d].manifest.value.entries| ::
           PutKey(u, s.journals[d].manifest.value.entries[i].source) in s.objects
    case Tearing(d) => Stale(s, d)
  }

  ghost predicate Good(x: State) {
    Inv(x.disk, x.ideal) && AllCanonical(x.ideal) && PhaseOk(x.disk, x.ideal, x.phase)
  }

  lemma StaleIsNotCurrent(s: Disk, g: Disk, d: string)
    requires Inv(s, g) && Stale(s, d)
    ensures !Current(s, d)
  {
    assert Labelled(s);
  }

  /** Rows of a fenced or unfenced account are those of the ideal one, with canonical keys. */
  lemma RowsAreCanonical(s: Disk, g: Disk, u: string)
    requires Inv(s, g) && AllCanonical(g)
    ensures CanonicalRows(u, Rows(s, u)) && (u in s.accounts <==> u in g.accounts)
    ensures u in g.accounts ==> g.accounts[u].sources == Rows(s, u)
  {
  }

  lemma StartGood(x: State, u: string, d: string)
    requires Good(x)
    ensures Good(OnStart(x, u, d))
  {
    if OnStart(x, u, d) != x {
      assert FencesJournalled(x.disk);
      assert !Current(x.disk, d);
      StaleJournalChange(x.disk, x.ideal, d, Some(Journal(None, map[])));
    }
  }

  lemma RecoverGood(x: State, d: string)
    requires Good(x)
    ensures Good(OnRecover(x, d))
  {
    if OnRecover(x, d) != x {
      assert Labelled(x.disk);
      if !Current(x.disk, d) { NotCurrentFencesNobody(x.disk, x.ideal, d); }
    }
  }

  lemma DropGood(x: State, j: Journal)
    requires Good(x)
    ensures Good(OnDrop(x, j))
  {
    if OnDrop(x, j) != x {
      var d := x.phase.d;
      StaleIsNotCurrent(x.disk, x.ideal, d);
      assert Labelled(x.disk);
      StaleJournalChange(x.disk, x.ideal, d, Some(j));
    }
  }

  lemma FailsGood(x: State)
    requires Good(x)
    ensures Good(x.(phase := OnFails(x.phase)))
  {
    hide Inv, AllCanonical;
  }

  lemma OpenedNext(x: State)
    requires Good(x) && (x.phase.Opened? || x.phase.Manifested?)
    ensures Good(OnNext(x))
  {
    var s, g, d, u := x.disk, x.ideal, x.phase.d, x.phase.u;
    if x.phase.Opened? {
      StaleIsNotCurrent(s, g, d);
      StaleJournalChange(s, g, d, Some(Journal(Some(Manifest(d, u, [])), map[])));
    } else if Writable(s, u) {
      FenceUnderEmptyJournal(s, g, u, d);
    }
  }

  /** The journal grows by a blob, or by an entry whose blob is there. */
  lemma GrowGood(s: Disk, g: Disk, u: string, d: string, n: nat, j: Journal)
    requires Inv(s, g) && AllCanonical(g) && ListsRows(s, g, u, d, n) && n < |Rows(s, u)|
    requires Rows(s, u)[n].key in s.objects
    requires j.blobs == s.journals[d].blobs[n := s.objects[Rows(s, u)[n].key]]
    requires var entries := s.journals[d].manifest.value.entries;
             j.manifest == s.journals[d].manifest || j.manifest == Some(Manifest(d, u, entries + [Entry(Rows(s, u)[n], n)]))
    ensures Inv(WithJournal(s, d, j), g)
  {
    RowsAreCanonical(s, g, u);
    assert CanonicalRows(u, Rows(s, u));
    assert Rows(s, u)[n].key in g.objects && g.objects[Rows(s, u)[n].key] == s.objects[Rows(s, u)[n].key];
    forall i: nat | i < |j.manifest.value.entries|
      ensures var e := j.manifest.value.entries[i];
              e.blob in j.blobs && PutKey(u, e.source) in g.objects && g.objects[PutKey(u, e.source)] == j.blobs[e.blob]
    {
      assert j.manifest.value.entries[i] == Entry(Rows(s, u)[i], i);
      assert Rows(s, u)[i].key == PutKey(u, Rows(s, u)[i]);
    }
    CurrentJournalGrows(s, g, d, j);
  }

  lemma StagingNext(x: State)
    requires Good(x) && (x.phase.Staging? || x.phase.Blobbed?)
    ensures Good(OnNext(x))
  {
    hide Inv, AllCanonical, PutKey, Stale;
    var s, g, u, d, n := x.disk, x.ideal, x.phase.u, x.phase.d, x.phase.n;
    var t := OnNext(x).disk;
    if x.phase.Staging? && OnNext(x).phase.Blobbed? {
      var j := s.journals[d];
      GrowGood(s, g, u, d, n, j.(blobs := j.blobs[n := s.objects[Rows(s, u)[n].key]]));
      KeyKept(s, g, Rows(s, u)[n].key);
    }
    if x.phase.Blobbed? {
      var j := s.journals[d];
      assert j.blobs == j.blobs[n := s.objects[Rows(s, u)[n].key]];
      GrowGood(s, g, u, d, n, t.journals[d]);
      KeyKept(s, g, Rows(s, u)[n].key);
    }
  }

  lemma KeyKept(s: Disk, g: Disk, k: Key)
    requires Inv(s, g) && k in s.objects
    ensures k in g.objects && g.objects[k] == s.objects[k]
  {
  }

  /** What a journal of listed rows owes are the keys of those rows. */
  lemma OwesRows(s: Disk, g: Disk, u: string, d: string, n: nat, i: nat, k: Key)
    requires Inv(s, g) && AllCanonical(g) && ListsRows(s, g, u, d, n)
    ensures Owes(s, d, i, k) <==> i < n && k == Rows(s, u)[i].key
  {
    RowsAreCanonical(s, g, u);
  }

  lemma CancellingNext(x: State)
    requires Good(x) && x.phase.Cancelling?
    ensures Good(OnNext(x))
  {
    hide Inv, AllCanonical;
    var s, g, u, d := x.disk, x.ideal, x.phase.u, x.phase.d;
    var n :| ListsRows(s, g, u, d, n) && NoneMissing(s, u, n);
    forall i, k | Owes(s, d, i, k) ensures k in s.objects { OwesRows(s, g, u, d, n, i, k); }
    LiftFence(s, g, u, d);
  }

  lemma DeletingNext(x: State)
    requires Good(x) && x.phase.Deleting?
    ensures Good(OnNext(x))
  {
    hide Inv, AllCanonical;
    var s, g, u, d, n := x.disk, x.ideal, x.phase.u, x.phase.d, x.phase.n;
    var rows := Rows(s, u);
    if n < |rows| {
      OwesRows(s, g, u, d, |rows|, n, rows[n].key);
      DeleteListedObject(s, g, d, n, rows[n].key);
    } else {
      RowsAreCanonical(s, g, u);
      assert Restorable(g, u) by { CanonicalIsRestorable(g, u); }
      forall k | k in KeysOf(s.accounts[u].sources) ensures k !in s.objects {
        var i :| 0 <= i < |rows| && rows[i].key == k;
      }
      forall i: nat, k | Owes(s, d, i, k) && k !in s.objects ensures k in KeysOf(s.accounts[u].sources) {
        OwesRows(s, g, u, d, |rows|, i, k);
        assert rows[i].key == k;
      }
      DeleteRow(s, g, u, d);
      FewerCanonical(g, u);
    }
  }

  lemma FewerCanonical(g: Disk, u: string)
    requires AllCanonical(g)
    ensures AllCanonical(Gone(g, u))
  {
  }

  lemma RestoringNext(x: State)
    requires Good(x) && x.phase.Restoring?
    ensures Good(OnNext(x))
  {
    hide Inv, AllCanonical, PutKey;
    var s, g, u, d, n := x.disk, x.ideal, x.phase.u, x.phase.d, x.phase.n;
    var entries := s.journals[d].manifest.value.entries;
    if n < |entries| {
      var k := PutKey(u, entries[n].source);
      assert Owes(s, d, n, k);
      RestoreListedObject(s, g, d, n, k);
    } else {
      LiftFence(s, g, u, d);
    }
  }

  lemma TearingNext(x: State)
    requires Good(x) && x.phase.Tearing?
    ensures Good(OnNext(x))
  {
    StaleIsNotCurrent(x.disk, x.ideal, x.phase.d);
    StaleJournalChange(x.disk, x.ideal, x.phase.d, None);
  }

  // ---------------------------------------------------------------- writes in between

  /** A write by another owner leaves the objects, the row and the journals of `u` alone. */
  lemma WriteElsewhere(s: Disk, w: Write, u: string, k: Key)
    requires Writable(s, w.owner) && w.owner != u && |k| >= 2 && k[1] == u
    ensures var t := ApplyWrite(s, w);
            && (k in t.objects <==> k in s.objects) && (k in s.objects ==> t.objects[k] == s.objects[k])
            && t.journals == s.journals && (u in t.accounts <==> u in s.accounts)
            && (u in s.accounts ==> t.accounts[u] == s.accounts[u])
  {
  }

  lemma WriteCanonical(g: Disk, w: Write)
    requires AllCanonical(g) && CanonicalRows(w.owner, w.sources)
    ensures AllCanonical(ApplyWrite(g, w))
  {
  }

  /** A fence on nobody is on nobody after a write: writers carry none. */
  lemma WriteStale(s: Disk, w: Write, d: string)
    requires Stale(s, d) && Writable(s, w.owner)
    ensures Stale(ApplyWrite(s, w), d)
  {
  }

  /** While `u` is fenced, what the coordinator relies on survives every write. */
  lemma WriteFenced(s: Disk, g: Disk, w: Write, u: string, d: string, p: Phase)
    requires Inv(s, g) && AllCanonical(g) && Writable(s, w.owner) && Fenced(s, u, d) && PhaseOk(s, g, p)
    requires p.Staging? || p.Blobbed? || p.Cancelling? || p.Deleting? || p.Restoring?
    requires u == p.u && d == p.d
    ensures PhaseOk(ApplyWrite(s, w), ApplyWrite(g, w), p)
  {
    hide Inv, AllCanonical, PutKey, ApplyWrite;
    var t, h := ApplyWrite(s, w), ApplyWrite(g, w);
    assert Writable(g, w.owner) by { WritableIdeal(s, g, w.owner); }
    WriteElsewhere(s, w, u, ["users", u]);
    RowsAreCanonical(s, g, u);
    forall i | 0 <= i < |Rows(s, u)|
      ensures var k := Rows(s, u)[i].key;
              (k in t.objects <==> k in s.objects) && (k in s.objects ==> t.objects[k] == s.objects[k])
              && (k in h.objects <==> k in g.objects) && (k in g.objects ==> h.objects[k] == g.objects[k])
    {
      PutKeyOwner(u, Rows(s, u)[i]);
      WriteElsewhere(s, w, u, Rows(s, u)[i].key);
      WriteElsewhere(g, w, u, Rows(s, u)[i].key);
    }
    forall row: Source ensures PutKey(u, row) in s.objects <==> PutKey(u, row) in t.objects {
      PutKeyOwner(u, row);
      WriteElsewhere(s, w, u, PutKey(u, row));
    }
    assert Rows(t, u) == Rows(s, u);
    if p.Cancelling? {
      var n :| ListsRows(s, g, u, d, n) && NoneMissing(s, u, n);
      assert ListsRows(t, h, u, d, n) && NoneMissing(t, u, n);
    }
  }

  lemma PutKeyOwner(u: string, row: Source)
    ensures |PutKey(u, row)| >= 2 && PutKey(u, row)[1] == u
  {
  }

  lemma WritableIdeal(s: Disk, g: Disk, owner: string)
    requires Inv(s, g) && Writable(s, owner)
    ensures Writable(g, owner)
  {
  }

  lemma WriteGood(x: State, w: Write)
    requires Good(x)
    ensures Good(OnWrite(x, w))
  {
    hide Inv, AllCanonical, ApplyWrite, Stale, ListsRows, NoneMissing;
    if Writable(x.disk, w.owner) && CanonicalRows(w.owner, w.sources) {
      WriteSurvivesRecovery(x.disk, x.ideal, w);
      WriteCanonical(x.ideal, w);
      match x.phase
      case Idle =>
      case Opened(u, d) => WriteStale(x.disk, w, d); SameJournals(x.disk, w);
      case Manifested(u, d) => WriteStale(x.disk, w, d); SameJournals(x.disk, w);
      case Tearing(d) => WriteStale(x.disk, w, d);
      case _ =>
        FencedThen(x);
        WriteFenced(x.disk, x.ideal, w, x.phase.u, x.phase.d, x.phase);
    }
  }

  lemma SameJournals(s: Disk, w: Write)
    ensures ApplyWrite(s, w).journals == s.journals
  {
  }

  lemma FencedThen(x: State)
    requires PhaseOk(x.disk, x.ideal, x.phase)
    requires x.phase.Staging? || x.phase.Blobbed? || x.phase.Cancelling? || x.phase.Deleting? || x.phase.Restoring?
    ensures Fenced(x.disk, x.phase.u, x.phase.d)
  {
  }

  lemma StepGood(x: State, e: Event)
    requires Good(x)
    ensures Good(Step(x, e))
  {
    hide Good, OnNext, OnStart, OnRecover, OnDrop, OnWrite, OnFails;
    match e
    case Start(u, d) => StartGood(x, u, d);
    case Recover(d) => RecoverGood(x, d);
    case Next => NextGood(x);
    case Drop(j) => DropGood(x, j);
    case Fails => FailsGood(x);
    case CallOff => CallOffGood(x);
    case Crash => CrashGood(x);
    case Writes(w) => WriteGood(x, w);
  }

  lemma NextGood(x: State)
    requires Good(x)
    ensures Good(OnNext(x))
  {
    hide Good, OnNext;
    match x.phase
    case Idle => IdleNext(x);
    case Opened(_, _) => OpenedNext(x);
    case Manifested(_, _) => OpenedNext(x);
    case Staging(_, _, _) => StagingNext(x);
    case Blobbed(_, _, _) => StagingNext(x);
    case Cancelling(_, _) => CancellingNext(x);
    case Deleting(_, _, _) => DeletingNext(x);
    case Restoring(_, _, _) => RestoringNext(x);
    case Tearing(_) => TearingNext(x);
  }

  lemma IdleNext(x: State)
    requires Good(x) && x.phase.Idle?
    ensures Good(OnNext(x))
  {
  }

  lemma CrashGood(x: State)
    requires Good(x)
    ensures Good(x.(phase := Idle))
  {
  }

  lemma CallOffGood(x: State)
    requires Good(x)
    ensures x.phase.Deleting? ==> Good(x.(phase := Restoring(x.phase.u, x.phase.d, 0)))
  {
    hide Inv, AllCanonical;
  }

  /**
   After every run, with owner writes between any two effects, effects that raise and crashes anywhere,
   the disk owes exactly the ideal one: each account whole or gone, each accepted write in place.
   */
  lemma {:induction false} RunGood(g: Disk, events: seq<Event>)
    requires g.journals == map[] && AllCanonical(g) && forall u | u in g.accounts :: g.accounts[u].fence.None?
    ensures Good(Run(g, events))
  {
    hide Good, Step;
    if events == [] {
      CleanGood(g);
    } else {
      RunGood(g, events[..|events| - 1]);
      StepGood(Run(g, events[..|events| - 1]), events[|events| - 1]);
    }
  }

  lemma CleanGood(g: Disk)
    requires g.journals == map[] && AllCanonical(g) && forall u | u in g.accounts :: g.accounts[u].fence.None?
    ensures Good(State(g, Idle, g))
  {
    assert Unfenced(g.accounts) == g.accounts;
  }

  /** So whenever no journal is left, the disk is the ideal one. */
  lemma SettledIsIdeal(g: Disk, events: seq<Event>)
    requires g.journals == map[] && AllCanonical(g) && forall u | u in g.accounts :: g.accounts[u].fence.None?
    requires Run(g, events).disk.journals == map[]
    ensures Run(g, events).disk == Run(g, events).ideal
  {
    hide Run;
    RunGood(g, events);
    NoJournalsIsGoal(Run(g, events).disk, Run(g, events).ideal);
  }

  // ---------------------------------------------------------------- a deletion nobody disturbs

  function Straight(u: string, d: string, k: nat): seq<Event> { if k == 0 then [Start(u, d)] else Straight(u, d, k - 1) + [Next] }

  lemma StraightNext(g: Disk, u: string, d: string, k: nat)
    ensures Run(g, Straight(u, d, k + 1)) == OnNext(Run(g, Straight(u, d, k)))
  {
    hide OnNext;
    var events := Straight(u, d, k);
    assert (events + [Next])[..|events|] == events;
  }

  /** An account that may be deleted: unfenced, with every listed object stored. */
  ghost predicate Deletable(g: Disk, u: string, d: string) {
    d !in g.journals && u in g.accounts && g.accounts[u].fence.None? && AllStored(g, u)
  }

  lemma StraightOpens(g: Disk, u: string, d: string)
    requires Deletable(g, u, d)
    ensures Run(g, Straight(u, d, 2)) == State(Listing(SetFence(g, u, Some(d)), u, d, 0), Staging(u, d, 0), g)
  {
    hide FirstRows;
    assert Straight(u, d, 0)[..0] == [];
    assert Run(g, Straight(u, d, 0)) == State(WithJournal(g, d, Journal(None, map[])), Opened(u, d), g);
    StraightNext(g, u, d, 0);
    var s := WithJournal(g, d, Journal(Some(Manifest(d, u, [])), map[]));
    assert WithJournal(WithJournal(g, d, Journal(None, map[])), d, s.journals[d]) == s;
    assert Run(g, Straight(u, d, 1)) == State(s, Manifested(u, d), g);
    StraightNext(g, u, d, 1);
    var t := SetFence(s, u, Some(d));
    FirstNone(SetFence(g, u, Some(d)), u, d);
    assert Listing(SetFence(g, u, Some(d)), u, d, 0) == t;
  }

  /** Each two effects of staging list one row more. */
  lemma {:induction false} StraightStages(g: Disk, u: string, d: string, n: nat)
    requires Deletable(g, u, d) && n <= |g.accounts[u].sources|
    ensures CanList(SetFence(g, u, Some(d)), u, n)
    ensures Run(g, Straight(u, d, 2 + 2 * n)) == State(Listing(SetFence(g, u, Some(d)), u, d, n), Staging(u, d, n), g)
  {
    hide Run, Straight, Listing, FirstRows;
    if n == 0 {
      StraightOpens(g, u, d);
    } else {
      var f := SetFence(g, u, Some(d));
      StraightStages(g, u, d, n - 1);
      StraightNext(g, u, d, 2 * n);
      StraightNext(g, u, d, 2 * n + 1);
      assert f.accounts[u].sources == g.accounts[u].sources;
      ListingMore(f, u, d, n - 1);
      RowStaged(f, g, u, d, n - 1);
    }
  }

  lemma RowStaged(f: Disk, g: Disk, u: string, d: string, n: nat)
    requires CanList(f, u, n + 1)
    ensures var t := Listing(f, u, d, n);
            OnNext(OnNext(State(t, Staging(u, d, n), g)))
            == State(WithJournal(t, d, StagedNext(t, u, d, t.journals[d].manifest.value.entries)), Staging(u, d, n + 1), g)
  {
    var t := Listing(f, u, d, n);
    var j := t.journals[d];
    var blobs := j.blobs[n := t.objects[Rows(t, u)[n].key]];
    assert |j.manifest.value.entries| == n && Rows(t, u) == f.accounts[u].sources;
    var k := j.(blobs := blobs);
    var l := k.(manifest := Some(Manifest(d, u, j.manifest.value.entries + [Entry(Rows(t, u)[n], n)])));
    assert t.journals[d := k][d := l] == t.journals[d := l];
    assert l == StagedNext(t, u, d, j.manifest.value.entries);
  }

  /** Then each effect of `complete` deletes one object more. */
  lemma {:induction false} StraightDeletes(g: Disk, u: string, d: string, m: nat)
    requires Deletable(g, u, d) && m <= |g.accounts[u].sources|
    ensures var n := |g.accounts[u].sources|;
            Run(g, Straight(u, d, 3 + 2 * n + m)) == State(DeletionExactness.CrashDisk(g, u, d, n, m), Deleting(u, d, m), g)
  {
    hide Run, Straight;
    var rows := g.accounts[u].sources;
    var n := |rows|;
    if m == 0 {
      StraightStages(g, u, d, n);
      StraightNext(g, u, d, 2 + 2 * n);
      DeletionExactness.FencedLists(g, u, d, n);
    } else {
      StraightDeletes(g, u, d, m - 1);
      StraightNext(g, u, d, 2 + 2 * n + m);
      hide FirstRows, PutKey;
      var before, after := DeletionExactness.CrashDisk(g, u, d, n, m - 1), DeletionExactness.CrashDisk(g, u, d, n, m);
      KeysMore(rows, m - 1);
      assert before.objects - {rows[m - 1].key} == after.objects;
      assert Rows(before, u) == rows;
    }
  }

  lemma KeysMore(rows: seq<Source>, m: nat)
    requires m < |rows|
    ensures KeysOf(rows[..m + 1]) == KeysOf(rows[..m]) + {rows[m].key}
  {
    forall k | k in KeysOf(rows[..m]) + {rows[m].key} ensures k in KeysOf(rows[..m + 1]) {
      if k != rows[m].key {
        var i :| 0 <= i < m && rows[..m][i].key == k;
        assert rows[..m + 1][i].key == k;
      } else {
        assert rows[..m + 1][m].key == k;
      }
    }
    forall k | k in KeysOf(rows[..m + 1]) ensures k in KeysOf(rows[..m]) + {rows[m].key} {
      var i :| 0 <= i < m + 1 && rows[..m + 1][i].key == k;
      if i < m { assert rows[..m][i].key == k; }
    }
  }

  /** The steps are those of the coordinator: undisturbed they pass each of its crash disks. */
  lemma StraightPasses(g: Disk, u: string, d: string, n: nat, m: nat)
    requires Deletable(g, u, d) && DeletionExactness.CrashPoint(g.accounts[u].sources, n, m)
    ensures Run(g, Straight(u, d, if m == 0 then 2 + 2 * n else 3 + 2 * n + m)).disk == DeletionExactness.CrashDisk(g, u, d, n, m)
  {
    hide Run, Straight, DeletionExactness.CrashDisk;
    if m == 0 {
      StraightStages(g, u, d, n);
      DeletionExactness.FencedLists(g, u, d, n);
    } else {
      StraightDeletes(g, u, d, m);
    }
  }

  /** And in the end the account, its listed objects and the journal are gone and nothing else has changed. */
  lemma StraightThrough(g: Disk, u: string, d: string)
    requires Deletable(g, u, d)
    ensures Run(g, Straight(u, d, 4 + 3 * |g.accounts[u].sources|) + [Drop(Journal(None, map[])), Next])
         == State(Gone(g, u), Idle, Gone(g, u))
  {
    hide Run, Straight, OnNext, Step, DeletionExactness.CrashDisk;
    var rows := g.accounts[u].sources;
    StraightDeletes(g, u, d, |rows|);
    StraightNext(g, u, d, 3 + 3 * |rows|);
    RowDeleted(g, u, d);
    var events := Straight(u, d, 4 + 3 * |rows|);
    ThenTwo(g, events, Drop(Journal(None, map[])), Next);
    TornDown(Run(g, events), g, u, d);
  }

  lemma RowDeleted(g: Disk, u: string, d: string)
    requires Deletable(g, u, d)
    ensures var n := |g.accounts[u].sources|;
            var x := OnNext(State(DeletionExactness.CrashDisk(g, u, d, n, n), Deleting(u, d, n), g));
            && x.phase == Tearing(d) && x.ideal == Gone(g, u) && d in x.disk.journals
            && x.disk.(journals := g.journals) == Gone(g, u) && x.disk.journals - {d} == g.journals
  {
    var rows := g.accounts[u].sources;
    assert rows[..|rows|] == rows;
    assert Rows(DeletionExactness.CrashDisk(g, u, d, |rows|, |rows|), u) == rows;
  }

  lemma ThenTwo(g: Disk, events: seq<Event>, a: Event, b: Event)
    ensures Run(g, events + [a, b]) == Step(Step(Run(g, events), a), b)
  {
    hide Step;
    assert (events + [a, b])[..|events| + 1] == events + [a];
    assert (events + [a])[..|events|] == events;
  }

  lemma TornDown(x: State, g: Disk, u: string, d: string)
    requires x.phase == Tearing(d) && x.ideal == Gone(g, u) && d in x.disk.journals
    requires x.disk.(journals := g.journals) == Gone(g, u) && x.disk.journals - {d} == g.journals
    ensures Step(Step(x, Drop(Journal(None, map[]))), Next) == State(Gone(g, u), Idle, Gone(g, u))
  {
    hide Gone, OnNext, OnDrop, OnStart, OnRecover, OnWrite, OnFails;
    DroppedAll(x, d);
    var y := x.(disk := WithJournal(x.disk, d, Journal(None, map[])));
    LastTorn(y, d);
    assert y.disk.journals - {d} == x.disk.journals - {d};
  }

  lemma DroppedAll(x: State, d: string)
    requires x.phase == Tearing(d) && d in x.disk.journals
    ensures OnDrop(x, Journal(None, map[])) == x.(disk := WithJournal(x.disk, d, Journal(None, map[])))
  {
  }

  lemma LastTorn(x: State, d: string)
    requires x.phase == Tearing(d) && d in x.disk.journals && x.disk.journals[d] == Journal(None, map[])
    ensures OnNext(x) == x.(disk := WithoutJournal(x.disk, d), phase := Idle)
  {
  }

  // ---------------------------------------------------------------- a deletion that is called off, or fails

  function Nexts(k: nat): seq<Event> { seq(k, _ => Next) }

  lemma NextsMore(g: Disk, events: seq<Event>, k: nat)
    ensures Run(g, events + Nexts(k + 1)) == OnNext(Run(g, events + Nexts(k)))
  {
    hide OnNext;
    var all := events + Nexts(k);
    assert events + Nexts(k + 1) == all + [Next];
    assert (all + [Next])[..|all|] == all;
  }

  /** The disk on which the first `m` rows' objects were deleted and the first `n` entries are back. */
  function PartlyBack(g: Disk, u: string, d: string, m: nat, n: nat): Disk
    requires u in g.accounts && AllStored(g, u) && m <= |g.accounts[u].sources| && n <= |g.accounts[u].sources|
  {
    var rows := g.accounts[u].sources;
    Listing(SetFence(g, u, Some(d)), u, d, |rows|).(objects := g.objects - (KeysOf(rows[..m]) - KeysOf(rows[..n])))
  }

  /** Each effect of a restore puts one object more back. */
  lemma PutOneBack(g: Disk, u: string, d: string, m: nat, n: nat, ideal: Disk)
    requires Deletable(g, u, d) && CanonicalRows(u, g.accounts[u].sources) && m <= |g.accounts[u].sources| && n < |g.accounts[u].sources|
    ensures OnNext(State(PartlyBack(g, u, d, m, n), Restoring(u, d, n), ideal))
         == State(PartlyBack(g, u, d, m, n + 1), Restoring(u, d, n + 1), ideal)
  {
    hide KeysOf, PutKey;
    var rows := g.accounts[u].sources;
    var before, after := PartlyBack(g, u, d, m, n), PartlyBack(g, u, d, m, n + 1);
    KeysMore(rows, n);
    var k := rows[n].key;
    assert before.journals == after.journals && before.accounts == after.accounts;
    assert before.journals[d].manifest.value.entries[n] == Entry(rows[n], n) && before.journals[d].blobs[n] == g.objects[k];
    assert k == PutKey(u, rows[n]);
    assert before.objects[k := g.objects[k]] == after.objects;
  }

  lemma {:induction false} AllBack(g: Disk, u: string, d: string, events: seq<Event>, m: nat, n: nat)
    requires Deletable(g, u, d) && CanonicalRows(u, g.accounts[u].sources) && m <= |g.accounts[u].sources| && n <= |g.accounts[u].sources|
    requires Run(g, events) == State(PartlyBack(g, u, d, m, 0), Restoring(u, d, 0), g)
    ensures Run(g, events + Nexts(n)) == State(PartlyBack(g, u, d, m, n), Restoring(u, d, n), g)
  {
    hide Run, OnNext, PartlyBack;
    if n == 0 {
      assert events + Nexts(0) == events;
    } else {
      AllBack(g, u, d, events, m, n - 1);
      NextsMore(g, events, n - 1);
      PutOneBack(g, u, d, m, n - 1, g);
    }
  }

  lemma FenceLifted(g: Disk, u: string, d: string, m: nat)
    requires Deletable(g, u, d) && m <= |g.accounts[u].sources|
    ensures var n := |g.accounts[u].sources|;
            var x := OnNext(State(PartlyBack(g, u, d, m, n), Restoring(u, d, n), g));
            && x.phase == Tearing(d) && x.ideal == g && d in x.disk.journals
            && x.disk.(journals := g.journals) == g && x.disk.journals - {d} == g.journals
  {
    hide KeysOf;
    var rows := g.accounts[u].sources;
    assert rows[..|rows|] == rows;
    PrefixKeys(rows, m);
    var s := PartlyBack(g, u, d, m, |rows|);
    assert s.objects == g.objects;
    assert |s.journals[d].manifest.value.entries| == |rows|;
    assert Cancel(s, u, d).accounts == g.accounts;
    assert g.journals[d := s.journals[d]] - {d} == g.journals;
  }

  lemma PrefixKeys(rows: seq<Source>, m: nat)
    requires m <= |rows|
    ensures KeysOf(rows[..m]) <= KeysOf(rows)
  {
    forall k | k in KeysOf(rows[..m]) ensures k in KeysOf(rows) {
      var i :| 0 <= i < m && rows[..m][i].key == k;
      assert rows[i].key == k;
    }
  }

  lemma TornBack(x: State, g: Disk, d: string)
    requires x.phase == Tearing(d) && x.ideal == g && d in x.disk.journals
    requires x.disk.(journals := g.journals) == g && x.disk.journals - {d} == g.journals
    ensures Step(Step(x, Drop(Journal(None, map[]))), Next) == State(g, Idle, g)
  {
    hide OnNext, OnDrop, OnStart, OnRecover, OnWrite, OnFails;
    DroppedAll(x, d);
    var y := x.(disk := WithJournal(x.disk, d, Journal(None, map[])));
    LastTorn(y, d);
    assert y.disk.journals - {d} == x.disk.journals - {d};
  }

  /** From a restore on, left alone, everything is as it was before the deletion. */
  lemma RestoreThrough(g: Disk, u: string, d: string, events: seq<Event>, m: nat)
    requires Deletable(g, u, d) && CanonicalRows(u, g.accounts[u].sources) && m <= |g.accounts[u].sources|
    requires Run(g, events) == State(PartlyBack(g, u, d, m, 0), Restoring(u, d, 0), g)
    ensures Run(g, (events + Nexts(|g.accounts[u].sources| + 1)) + [Drop(Journal(None, map[])), Next]) == State(g, Idle, g)
  {
    hide Run, OnNext, Step, PartlyBack;
    var n := |g.accounts[u].sources|;
    AllBack(g, u, d, events, m, n);
    NextsMore(g, events, n);
    FenceLifted(g, u, d, m);
    var all := events + Nexts(n + 1);
    ThenTwo(g, all, Drop(Journal(None, map[])), Next);
    TornBack(Run(g, all), g, d);
  }

  /** What may end a deletion before its row is gone: the next delete raises, it is called off, or the process stops and recovery runs. */
  function Ends(d: string, how: Ending): seq<Event> {
    match how
    case DeleteRaises => [Fails]
    case CalledOff => [CallOff]
    case StopsAndRecovers => [Crash, Recover(d)]
  }

  datatype Ending = DeleteRaises | CalledOff | StopsAndRecovers

  lemma EndedAt(g: Disk, u: string, d: string, m: nat, how: Ending)
    requires Deletable(g, u, d) && m <= |g.accounts[u].sources| && (how.CalledOff? ==> m == 0)
    ensures var n := |g.accounts[u].sources|;
            Run(g, Straight(u, d, 3 + 2 * n + m) + Ends(d, how)) == State(PartlyBack(g, u, d, m, 0), Restoring(u, d, 0), g)
  {
    hide Run, Straight, KeysOf, FirstRows;
    var rows := g.accounts[u].sources;
    StraightDeletes(g, u, d, m);
    var events := Straight(u, d, 3 + 2 * |rows| + m);
    var x := Run(g, events);
    SameDisk(g, u, d, m);
    match how
    case DeleteRaises => ThenOne(g, events, Fails);
    case CalledOff => ThenOne(g, events, CallOff);
    case StopsAndRecovers =>
      ThenTwo(g, events, Crash, Recover(d));
      ListedCurrent(g, u, d, m);
  }

  lemma SameDisk(g: Disk, u: string, d: string, m: nat)
    requires Deletable(g, u, d) && m <= |g.accounts[u].sources|
    ensures DeletionExactness.CrashDisk(g, u, d, |g.accounts[u].sources|, m) == PartlyBack(g, u, d, m, 0)
  {
    var rows := g.accounts[u].sources;
    assert KeysOf(rows[..0]) == {};
    assert KeysOf(rows[..m]) - {} == KeysOf(rows[..m]);
  }

  lemma ListedCurrent(g: Disk, u: string, d: string, m: nat)
    requires Deletable(g, u, d) && m <= |g.accounts[u].sources|
    ensures var s := PartlyBack(g, u, d, m, 0); Current(s, d) && s.journals[d].manifest.value.user == u
  {
  }

  lemma ThenOne(g: Disk, events: seq<Event>, e: Event)
    ensures Run(g, events + [e]) == Step(Run(g, events), e)
  {
    hide Step;
    assert (events + [e])[..|events|] == events;
  }

  /**
   A deletion that ends before its row is gone is undone: after any number of objects was deleted, whether the
   next delete raises, the user calls it off or the process stops and is recovered, the disk is the old one again.
   */
  lemma UndoneThrough(g: Disk, u: string, d: string, m: nat, how: Ending)
    requires Deletable(g, u, d) && CanonicalRows(u, g.accounts[u].sources) && m <= |g.accounts[u].sources| && (how.CalledOff? ==> m == 0)
    ensures var n := |g.accounts[u].sources|;
            Run(g, ((Straight(u, d, 3 + 2 * n + m) + Ends(d, how)) + Nexts(n + 1)) + [Drop(Journal(None, map[])), Next]) == State(g, Idle, g)
  {
    hide Run, Straight, Ends, PartlyBack;
    EndedAt(g, u, d, m, how);
    RestoreThrough(g, u, d, Straight(u, d, 3 + 2 * |g.accounts[u].sources| + m) + Ends(d, how), m);
  }

  /** The same while it stages: an effect that raises is undone at once. */
  lemma StagingUndone(g: Disk, u: string, d: string, n: nat)
    requires Deletable(g, u, d) && n <= |g.accounts[u].sources|
    ensures Run(g, (Straight(u, d, 2 + 2 * n) + [Fails, Next]) + [Drop(Journal(None, map[])), Next]) == State(g, Idle, g)
  {
    hide Run, Straight, OnNext, OnDrop, OnStart, OnRecover, OnWrite, Listing;
    StraightStages(g, u, d, n);
    var events := Straight(u, d, 2 + 2 * n);
    ThenTwo(g, events, Fails, Next);
    ThenTwo(g, events + [Fails, Next], Drop(Journal(None, map[])), Next);
    CancelledIs(g, u, d, n);
    TornBack(Run(g, events + [Fails, Next]), g, d);
  }

  lemma CancelledIs(g: Disk, u: string, d: string, n: nat)
    requires Deletable(g, u, d) && CanList(SetFence(g, u, Some(d)), u, n)
    ensures var x := OnNext(State(Listing(SetFence(g, u, Some(d)), u, d, n), Cancelling(u, d), g));
            && x.phase == Tearing(d) && x.ideal == g && d in x.disk.journals
            && x.disk.(journals := g.journals) == g && x.disk.journals - {d} == g.journals
  {
    hide FirstRows;
    var s := Listing(SetFence(g, u, Some(d)), u, d, n);
    assert Cancel(s, u, d).accounts == g.accounts;
    assert g.journals[d := s.journals[d]] - {d} == g.journals;
  }

  /** And while it only opens its journal: nothing but the journal is there to go. */
  lemma OpeningUndone(g: Disk, u: string, d: string, k: nat)
    requires Deletable(g, u, d) && k < 2
    ensures Run(g, (Straight(u, d, k) + [Fails]) + [Drop(Journal(None, map[])), Next]) == State(g, Idle, g)
  {
    hide Run, OnNext, OnDrop, OnStart, OnRecover, OnWrite;
    var events := Straight(u, d, k);
    Opens(g, u, d);
    if k == 1 { StraightNext(g, u, d, 0); }
    ThenOne(g, events, Fails);
    ThenTwo(g, events + [Fails], Drop(Journal(None, map[])), Next);
    var x := Run(g, events + [Fails]);
    FirstNext(g, u, d);
    assert x.phase == Tearing(d) && x.disk == WithJournal(g, d, x.disk.journals[d]);
    assert x.disk.journals - {d} == g.journals;
    TornBack(x, g, d);
  }

  lemma Opens(g: Disk, u: string, d: string)
    requires Deletable(g, u, d)
    ensures Run(g, Straight(u, d, 0)) == State(WithJournal(g, d, Journal(None, map[])), Opened(u, d), g)
  {
    assert Straight(u, d, 0)[..0] == [];
  }

  lemma FirstNext(g: Disk, u: string, d: string)
    ensures var s := Journal(Some(Manifest(d, u, [])), map[]);
            OnNext(State(WithJournal(g, d, Journal(None, map[])), Opened(u, d), g)) == State(WithJournal(g, d, s), Manifested(u, d), g)
  {
    assert g.journals[d := Journal(None, map[])][d := Journal(Some(Manifest(d, u, [])), map[])]
        == g.journals[d := Journal(Some(Manifest(d, u, [])), map[])];
  }
}
