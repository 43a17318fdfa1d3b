/**
 The row contents the schema migration moves: one library row per material, plus links.

 `Upgrade` says what a run of `initialize` makes of the tables; the lemmas after it say what
 that means for the materials, their chunks and what each workspace can reach. The class in
 `SchemaInitialize.dfy` does the same work statement by statement.
 */
module SchemaMigration {
  import opened TextOrder
  import opened Wrappers

  const SCHEMA_VERSION := 5
  const LIBRARY := "library"

  datatype MaterialKey = MaterialKey(owner: string, project: string, material: string)
  datatype Material = Material(filename: string, title: string, status: string, chunkCount: int, indexedAt: int,
                               storageKey: Option<string>)
  datatype ChunkKey = ChunkKey(owner: string, project: string, material: string, index: nat)
  datatype LinkKey = LinkKey(owner: string, workspace: string, material: string)
  datatype Tables = Tables(materials: map<MaterialKey, Material>, chunks: map<ChunkKey, string>,
                           links: map<LinkKey, int>, version: Option<int>)
  datatype SchemaError = IntegrityError | UnsupportedSchema(version: int)

  /** All rows of one material of one owner. */
  datatype Group = Group(owner: string, material: string)

  // ---------------------------------------------------------------- the order `max` selects by

  /** Row `q` ranks strictly below row `p`: indexed, chunks, recency, library, then the project name. */
  predicate Below(ms: map<MaterialKey, Material>, g: Group, q: string, p: string)
    requires MaterialKey(g.owner, q, g.material) in ms && MaterialKey(g.owner, p, g.material) in ms
  {
    var a, b := ms[MaterialKey(g.owner, q, g.material)], ms[MaterialKey(g.owner, p, g.material)];
    if (a.status == "indexed") != (b.status == "indexed") then b.status == "indexed"
    else if a.chunkCount != b.chunkCount then a.chunkCount < b.chunkCount
    else if a.indexedAt != b.indexedAt then a.indexedAt < b.indexedAt
    else if (q == LIBRARY) != (p == LIBRARY) then p == LIBRARY
    else Before(q, p)
  }

  lemma BelowOrder(ms: map<MaterialKey, Material>, g: Group, p: string, q: string, r: string)
    requires forall x | x in {p, q, r} :: MaterialKey(g.owner, x, g.material) in ms
    ensures p == q || Below(ms, g, p, q) || Below(ms, g, q, p)
    ensures !(Below(ms, g, p, q) && Below(ms, g, q, p))
    ensures Below(ms, g, p, q) && Below(ms, g, q, r) ==> Below(ms, g, p, r)
  {
    BeforeTotal(p, q);
    if Before(p, q) && Before(q, r) { BeforeTransitive(p, q, r); }
  }

  /** The projects that hold a row of the group. */
  function Projects(ms: map<MaterialKey, Material>, g: Group): set<string> {
    set k | k in ms && k.owner == g.owner && k.material == g.material :: k.project
  }

  /** `p` is the row `max` picks among the projects `ps`. */
  ghost predicate Best(ms: map<MaterialKey, Material>, g: Group, ps: set<string>, p: string)
    requires forall q | q in ps :: MaterialKey(g.owner, q, g.material) in ms
  {
    p in ps && forall q | q in ps && q != p :: Below(ms, g, q, p)
  }

  lemma {:induction false} BestExists(ms: map<MaterialKey, Material>, g: Group, ps: set<string>)
    requires ps != {} && forall q | q in ps :: MaterialKey(g.owner, q, g.material) in ms
    ensures exists p :: Best(ms, g, ps, p)
    decreases ps
  {
    var x :| x in ps;
    if ps == {x} {
      assert Best(ms, g, ps, x);
    } else {
      BestExists(ms, g, ps - {x});
      var y :| Best(ms, g, ps - {x}, y);
      BelowOrder(ms, g, x, y, x);
      var p := if Below(ms, g, x, y) then y else x;
      forall q | q in ps && q != p ensures Below(ms, g, q, p) {
        if q != x && q != y { BelowOrder(ms, g, q, y, x); }
      }
      assert Best(ms, g, ps, p);
    }
  }

  lemma BestUnique(ms: map<MaterialKey, Material>, g: Group, p: string, q: string)
    requires Best(ms, g, Projects(ms, g), p) && Best(ms, g, Projects(ms, g), q)
    ensures p == q
  {
    BelowOrder(ms, g, p, q, p);
  }

  /** The project whose row the migration keeps. */
  ghost function Kept(ms: map<MaterialKey, Material>, g: Group): (p: string)
    requires Projects(ms, g) != {}
    ensures Best(ms, g, Projects(ms, g), p)
  {
    BestExists(ms, g, Projects(ms, g));
    var p :| Best(ms, g, Projects(ms, g), p);
    p
  }

  // ---------------------------------------------------------------- what the regrouping makes of the rows

  /** `a` is at most `b` as Python compares the first four parts of the selection key. */
  predicate KeyAtMost(a: (int, int, int, int), b: (int, int, int, int)) {
    a.0 < b.0 || (a.0 == b.0 && (a.1 < b.1 || (a.1 == b.1 && (a.2 < b.2 || (a.2 == b.2 && a.3 <= b.3)))))
  }

  function SelectionKey(m: Material, project: string): (int, int, int, int) {
    (if m.status == "indexed" then 1 else 0, m.chunkCount, m.indexedAt, if project == LIBRARY then 1 else 0)
  }

  /** The kept row has the greatest key: indexed first, then most chunks, then latest, then the library, then the name. */
  lemma KeptIsGreatest(ms: map<MaterialKey, Material>, g: Group, q: string)
    requires q in Projects(ms, g)
    ensures var p := Kept(ms, g);
            && p in Projects(ms, g)
            && var a, b := SelectionKey(ms[Row(g, q)], q), SelectionKey(ms[Row(g, p)], p);
               KeyAtMost(a, b) && (a == b ==> q == p || Before(q, p))
  {
    var p := Kept(ms, g);
    GroupsProjects(ms, g);
    if q != p { assert Below(ms, g, q, p); }
  }

  function GroupOf(k: MaterialKey): Group { Group(k.owner, k.material) }

  function ChunkGroup(k: ChunkKey): Group { Group(k.owner, k.material) }

  function Row(g: Group, project: string): MaterialKey { MaterialKey(g.owner, project, g.material) }

  function Groups(ms: map<MaterialKey, Material>): set<Group> {
    set k | k in ms :: GroupOf(k)
  }

  /** The material rows once the groups in `done` are merged. */
  ghost function Regrouped(ms: map<MaterialKey, Material>, done: set<Group>): map<MaterialKey, Material> {
    map k | k in ms.Keys + (set m | m in ms :: m.(project := LIBRARY)) &&
            (if GroupOf(k) in done then k.project == LIBRARY && Projects(ms, GroupOf(k)) != {} else k in ms)
      :: if GroupOf(k) in done then ms[Row(GroupOf(k), Kept(ms, GroupOf(k)))] else ms[k]
  }

  /** The chunk row that ends at key `k` once the groups in `done` are merged, if any. */
  ghost function ChunkSource(ms: map<MaterialKey, Material>, cs: map<ChunkKey, string>, done: set<Group>, k: ChunkKey): Option<ChunkKey> {
    var g := ChunkGroup(k);
    if g !in done || Projects(ms, g) == {} then
      if k in cs then Some(k) else None
    else if k.project == LIBRARY && k.(project := Kept(ms, g)) in cs then Some(k.(project := Kept(ms, g)))
    else if k in cs && k.project !in Projects(ms, g) then Some(k)
    else None
  }

  ghost function RegroupedChunks(ms: map<MaterialKey, Material>, cs: map<ChunkKey, string>, done: set<Group>): map<ChunkKey, string> {
    map k | k in cs.Keys + (set c | c in cs :: c.(project := LIBRARY)) && ChunkSource(ms, cs, done, k).Some?
      :: cs[ChunkSource(ms, cs, done, k).value]
  }

  /** Relabelling the kept chunks would hit a library chunk that no material row owns. */
  ghost predicate ChunkClash(ms: map<MaterialKey, Material>, cs: map<ChunkKey, string>, g: Group) {
    && Projects(ms, g) != {} && LIBRARY !in Projects(ms, g)
    && exists i: nat :: ChunkKey(g.owner, Kept(ms, g), g.material, i) in cs && ChunkKey(g.owner, LIBRARY, g.material, i) in cs
  }

  function NewLinks(ms: map<MaterialKey, Material>): map<LinkKey, int> {
    map k | k in ms && k.project != LIBRARY :: LinkKey(k.owner, k.project, k.material) := ms[k].indexedAt
  }

  /** Titles of a version 1 database are rebuilt from the file names. */
  function Titled(ms: map<MaterialKey, Material>): map<MaterialKey, Material> {
    map k | k in ms :: ms[k].(title := ms[k].filename)
  }

  predicate UniqueMaterials(ms: map<MaterialKey, Material>) {
    forall k, l | k in ms && l in ms && GroupOf(k) == GroupOf(l) :: k == l
  }

  /** The version 2 to 3 step: refused exactly when a link or a chunk key would be duplicated. */
  ghost function Merge(t: Tables): Result<Tables, SchemaError> {
    if (exists l :: l in NewLinks(t.materials) && l in t.links) || (exists g :: ChunkClash(t.materials, t.chunks, g)) then
      Err(IntegrityError)
    else
      Ok(Tables(Regrouped(t.materials, Groups(t.materials)), RegroupedChunks(t.materials, t.chunks, Groups(t.materials)),
                t.links + NewLinks(t.materials), Some(3)))
  }

  /** The version 1 and 2 upgrades merge; version 1 rebuilds the titles first. */
  predicate Merges(t: Tables) { t.version == Some(1) || t.version == Some(2) }

  function BeforeMerge(t: Tables): Tables { if t.version == Some(1) then t.(materials := Titled(t.materials)) else t }

  /** `initialize` on the row contents; an error leaves the tables as they were. */
  ghost function Upgrade(t: Tables): Result<Tables, SchemaError> {
    var v := if t.version.Some? then t.version.value else SCHEMA_VERSION;
    var merged := if Merges(t) then Merge(BeforeMerge(t)) else Ok(t);
    if v < 1 || v > SCHEMA_VERSION then Err(UnsupportedSchema(v))
    else if merged.Err? then merged
    else if !UniqueMaterials(merged.value.materials) then Err(IntegrityError)
    else Ok(merged.value.(version := Some(SCHEMA_VERSION)))
  }

  // ---------------------------------------------------------------- what it means

  /** Workspace `w` reaches a material through its own row before the migration. */
  predicate Reaches(ms: map<MaterialKey, Material>, g: Group, w: string) {
    w != LIBRARY && Row(g, w) in ms
  }

  /** After it, through a link to the library row. */
  predicate Linked(t: Tables, g: Group, w: string) {
    LinkKey(g.owner, w, g.material) in t.links && Row(g, LIBRARY) in t.materials
  }

  lemma GroupsProjects(ms: map<MaterialKey, Material>, g: Group)
    ensures g in Groups(ms) <==> Projects(ms, g) != {}
    ensures forall p :: p in Projects(ms, g) <==> Row(g, p) in ms
  {
    forall p ensures p in Projects(ms, g) <==> Row(g, p) in ms {
      if Row(g, p) in ms { assert Row(g, p).project in Projects(ms, g); }
    }
    if g in Groups(ms) {
      var k :| k in ms && GroupOf(k) == g;
      assert k.project in Projects(ms, g);
    }
  }

  /** One row per material, in the library, equal to the unique best old row. */
  lemma OneLibraryRow(t: Tables, g: Group)
    requires Merge(t).Ok?
    ensures var ms := Merge(t).value.materials;
            && Projects(ms, g) == (if Projects(t.materials, g) != {} then {LIBRARY} else {})
            && (Projects(t.materials, g) != {} ==> ms[Row(g, LIBRARY)] == t.materials[Row(g, Kept(t.materials, g))])
  {
    var ms := Merge(t).value.materials;
    GroupsProjects(t.materials, g);
    GroupsProjects(ms, g);
    if Projects(t.materials, g) != {} {
      var p := Kept(t.materials, g);
      assert Row(g, p).(project := LIBRARY) == Row(g, LIBRARY);
      assert Row(g, LIBRARY) in ms;
    }
  }

  /** The unique index on (owner, material) can always be built after the merge. */
  lemma MergeIsUnique(t: Tables)
    requires Merge(t).Ok?
    ensures UniqueMaterials(Merge(t).value.materials)
  {
    var ms := Merge(t).value.materials;
    forall k, l | k in ms && l in ms && GroupOf(k) == GroupOf(l) ensures k == l {
      OneLibraryRow(t, GroupOf(k));
      GroupsProjects(ms, GroupOf(k));
      assert Row(GroupOf(k), k.project) == k && Row(GroupOf(l), l.project) == l;
    }
  }

  lemma MergeReaches(t: Tables, g: Group, w: string)
    requires Merge(t).Ok?
    ensures Linked(Merge(t).value, g, w) <==>
            Reaches(t.materials, g, w) || (LinkKey(g.owner, w, g.material) in t.links && Projects(t.materials, g) != {})
  {
    var u := Merge(t).value;
    OneLibraryRow(t, g);
    GroupsProjects(t.materials, g);
    GroupsProjects(u.materials, g);
    if Reaches(t.materials, g, w) {
      assert LinkKey(g.owner, w, g.material) in NewLinks(t.materials);
    }
  }

  /** New titles change neither the rows there are nor which of them is kept. */
  lemma TitledKeeps(ms: map<MaterialKey, Material>, g: Group)
    ensures Titled(ms).Keys == ms.Keys && Projects(Titled(ms), g) == Projects(ms, g)
    ensures Projects(ms, g) != {} ==> Kept(Titled(ms), g) == Kept(ms, g)
  {
    assert Projects(Titled(ms), g) == Projects(ms, g);
    if Projects(ms, g) != {} {
      var p := Kept(Titled(ms), g);
      forall q | q in Projects(ms, g) && q != p ensures Below(ms, g, q, p) { assert Below(Titled(ms), g, q, p); }
      BestUnique(ms, g, p, Kept(ms, g));
    }
  }

  lemma UpgradeMerges(t: Tables)
    requires Upgrade(t).Ok?
    ensures Merges(t) ==> Merge(BeforeMerge(t)).Ok? && Upgrade(t).value == Merge(BeforeMerge(t)).value.(version := Some(SCHEMA_VERSION))
    ensures !Merges(t) ==> Upgrade(t).value == t.(version := Some(SCHEMA_VERSION))
  {
    hide Merge, UniqueMaterials;
  }

  /**
   Each workspace reaches exactly the materials it reached before: those it had a row of, and those
   an earlier link already gave it while some row existed. Nothing is lost and nothing leaks. A database
   that is past the merge keeps what its links reach.
   */
  lemma ReachPreserved(t: Tables, g: Group, w: string)
    requires Upgrade(t).Ok?
    ensures Linked(Upgrade(t).value, g, w) <==>
              if Merges(t) then Reaches(t.materials, g, w) || (LinkKey(g.owner, w, g.material) in t.links && Projects(t.materials, g) != {})
              else Linked(t, g, w)
  {
    hide Upgrade, Merge, Titled, Projects;
    UpgradeMerges(t);
    if Merges(t) {
      MergeReaches(BeforeMerge(t), g, w);
      TitledKeeps(t.materials, g);
    }
  }

  /** Which links there are afterwards, and since when: the earlier ones, and one per workspace row, from its indexing on. */
  lemma LinksAre(t: Tables, l: LinkKey)
    requires Upgrade(t).Ok? && Merges(t)
    ensures var links, k := Upgrade(t).value.links, MaterialKey(l.owner, l.workspace, l.material);
            && (l in links <==> l in t.links || (l.workspace != LIBRARY && k in t.materials))
            && (l in links ==> links[l] == if l in t.links then t.links[l] else t.materials[k].indexedAt)
  {
    hide Regrouped, RegroupedChunks, ChunkClash, Upgrade;
    UpgradeMerges(t);
    var k := MaterialKey(l.owner, l.workspace, l.material);
    if k in t.materials { assert k in BeforeMerge(t).materials; }
  }

  /** Every chunk belongs to a material row. */
  predicate Owned(t: Tables) {
    forall c | c in t.chunks :: MaterialKey(c.owner, c.project, c.material) in t.materials
  }

  lemma MergeMovesChunks(t: Tables, g: Group, p: string, i: nat)
    requires Merge(t).Ok? && Owned(t)
    ensures var cs := Merge(t).value.chunks;
            var k := ChunkKey(g.owner, p, g.material, i);
            && (k in cs <==> p == LIBRARY && Projects(t.materials, g) != {}
                             && k.(project := Kept(t.materials, g)) in t.chunks)
            && (k in cs ==> cs[k] == t.chunks[k.(project := Kept(t.materials, g))])
  {
    var k := ChunkKey(g.owner, p, g.material, i);
    GroupsProjects(t.materials, g);
    if k in t.chunks { assert Row(g, p) in t.materials; }
    if Projects(t.materials, g) != {} && k.(project := Kept(t.materials, g)) in t.chunks {
      assert k.(project := Kept(t.materials, g)).(project := LIBRARY) == k.(project := LIBRARY);
    }
  }

  /** The library row holds exactly the chunks of the kept row, and no other chunk is left. */
  lemma ChunksFollowKeptRow(t: Tables, g: Group, p: string, i: nat)
    requires Upgrade(t).Ok? && Merges(t) && Owned(t)
    ensures var cs := Upgrade(t).value.chunks;
            var k := ChunkKey(g.owner, p, g.material, i);
            && (k in cs <==> p == LIBRARY && Projects(t.materials, g) != {}
                             && k.(project := Kept(t.materials, g)) in t.chunks)
            && (k in cs ==> cs[k] == t.chunks[k.(project := Kept(t.materials, g))])
  {
    hide Upgrade, Merge, Titled, Projects;
    UpgradeMerges(t);
    TitledKeeps(t.materials, g);
    MergeMovesChunks(BeforeMerge(t), g, p, i);
  }

  /** With owned chunks and no earlier links no update can break a uniqueness constraint. */
  lemma OwnedNeverClashes(t: Tables)
    requires Owned(t) && t.links == map[]
    ensures Merge(t).Ok?
  {
    forall g ensures !ChunkClash(t.materials, t.chunks, g) {
      GroupsProjects(t.materials, g);
    }
  }

  /** From version 1 or 2 with owned chunks the whole upgrade succeeds and lands on the current version. */
  lemma UpgradeSucceeds(t: Tables)
    requires Merges(t) && Owned(t) && t.links == map[]
    ensures Upgrade(t).Ok? && Upgrade(t).value.version == Some(SCHEMA_VERSION)
  {
    OwnedNeverClashes(BeforeMerge(t));
    MergeIsUnique(BeforeMerge(t));
  }

  /** The file, its storage key and everything but project and title come from the best old row. */
  lemma UpgradeKeepsContent(t: Tables, g: Group)
    requires Merges(t) && Upgrade(t).Ok? && Projects(t.materials, g) != {}
    ensures var ms, best := Upgrade(t).value.materials, t.materials[Row(g, Kept(t.materials, g))];
            && Projects(ms, g) == {LIBRARY} && Row(g, LIBRARY) in ms
            && ms[Row(g, LIBRARY)] == best.(title := if t.version == Some(1) then best.filename else best.title)
  {
    hide Upgrade, Merge;
    UpgradeMerges(t);
    TitledKeeps(t.materials, g);
    OneLibraryRow(BeforeMerge(t), g);
    GroupsProjects(Upgrade(t).value.materials, g);
  }

  /** A row's link is there already, so that linking every row would store it twice. */
  predicate LinkThere(t: Tables) {
    exists k :: k in t.materials && k.project != LIBRARY && LinkKey(k.owner, k.project, k.material) in t.links
  }

  /**
   A library chunk that no library row owns has an index that the best row's chunks have too: moving those
   to the library would store it twice.
   */
  ghost predicate ChunkInTheWay(t: Tables) {
    exists g: Group, p: string, i: nat :: InTheWay(t, g, p, i)
  }

  ghost predicate InTheWay(t: Tables, g: Group, p: string, i: nat) {
    && ChunkKey(g.owner, p, g.material, i) in t.chunks && ChunkKey(g.owner, LIBRARY, g.material, i) in t.chunks
    && Row(g, LIBRARY) !in t.materials && Best(t.materials, g, Projects(t.materials, g), p)
  }

  lemma ClashIsInTheWay(t: Tables)
    ensures (exists g :: ChunkClash(BeforeMerge(t).materials, t.chunks, g)) <==> ChunkInTheWay(t)
  {
    hide Titled, Projects, Best;
    var ms := BeforeMerge(t).materials;
    if g :| ChunkClash(ms, t.chunks, g) {
      TitledKeeps(t.materials, g);
      GroupsProjects(t.materials, g);
      var p := Kept(t.materials, g);
      var i: nat :| ChunkKey(g.owner, p, g.material, i) in t.chunks && ChunkKey(g.owner, LIBRARY, g.material, i) in t.chunks;
      assert InTheWay(t, g, p, i);
    }
    if g: Group, p: string, i: nat :| InTheWay(t, g, p, i) {
      BestAmong(t.materials, g, p);
      GroupsProjects(t.materials, g);
      TitledKeeps(t.materials, g);
      BestUnique(t.materials, g, p, Kept(t.materials, g));
      assert ChunkClash(ms, t.chunks, g);
    }
  }

  lemma BestAmong(ms: map<MaterialKey, Material>, g: Group, p: string)
    requires Best(ms, g, Projects(ms, g), p)
    ensures p in Projects(ms, g)
  {
  }

  lemma LinksThere(t: Tables)
    ensures (exists l :: l in NewLinks(BeforeMerge(t).materials) && l in t.links) <==> LinkThere(t)
  {
    if LinkThere(t) {
      var k :| k in t.materials && k.project != LIBRARY && LinkKey(k.owner, k.project, k.material) in t.links;
      assert k in BeforeMerge(t).materials;
      assert LinkKey(k.owner, k.project, k.material) in NewLinks(BeforeMerge(t).materials);
    }
  }

  /** Two rows are of one owner's material, in different projects. */
  ghost predicate RowTwice(ms: map<MaterialKey, Material>) {
    exists k, project :: k in ms && k.(project := project) in ms && project != k.project
  }

  lemma UniqueIs(ms: map<MaterialKey, Material>)
    ensures UniqueMaterials(ms) <==> !RowTwice(ms)
  {
    if k, l :| k in ms && l in ms && GroupOf(k) == GroupOf(l) && k != l {
      assert k.(project := l.project) == l;
    }
    if k, project :| k in ms && k.(project := project) in ms && project != k.project {
      assert GroupOf(k) == GroupOf(k.(project := project));
    }
  }

  /**
   When the upgrade succeeds, what it makes of a database that is past the merge, and with which error it
   refuses: a new database and versions 3 to 5 need only unique materials and change in nothing but the
   version; versions 1 and 2 need no link to be there twice and no chunk in the way; any other is unsupported.
   */
  lemma UpgradeIs(t: Tables)
    ensures t.version.None? || 3 <= t.version.value <= 5 ==>
              Upgrade(t) == if RowTwice(t.materials) then Err(IntegrityError) else Ok(t.(version := Some(5)))
    ensures t.version == Some(1) || t.version == Some(2) ==>
              if LinkThere(t) || ChunkInTheWay(t) then Upgrade(t) == Err(IntegrityError)
              else Upgrade(t).Ok? && Upgrade(t).value.version == Some(5)
    ensures t.version.Some? && !(1 <= t.version.value <= 5) ==> Upgrade(t) == Err(UnsupportedSchema(t.version.value))
  {
    hide UniqueMaterials, LinkThere, ChunkInTheWay, RowTwice, Regrouped, RegroupedChunks, NewLinks, ChunkClash, Titled;
    UniqueIs(t.materials);
    if Merges(t) {
      ClashIsInTheWay(t);
      LinksThere(t);
      if Merge(BeforeMerge(t)).Ok? { MergeIsUnique(BeforeMerge(t)); }
    }
  }

  /** The first start of an installation. */
  lemma NewDatabase()
    ensures Upgrade(Tables(map[], map[], map[], None)) == Ok(Tables(map[], map[], map[], Some(5)))
  {
    UpgradeIs(Tables(map[], map[], map[], None));
  }

  /** A second run changes nothing. */
  lemma UpgradeIdempotent(t: Tables)
    requires Upgrade(t).Ok?
    ensures Upgrade(Upgrade(t).value) == Upgrade(t)
  {
  }
}
