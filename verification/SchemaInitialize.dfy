/** `Database.initialize`, statement by statement, on the tables the migration touches. */
module SchemaInitialize {
  import opened Wrappers
  import opened SchemaMigration

  /** The rows left by the delete of one group's duplicates. */
  function DropRows(ms: map<MaterialKey, Material>, g: Group, duplicates: set<string>): map<MaterialKey, Material> {
    map k | k in ms && !(GroupOf(k) == g && k.project in duplicates) :: ms[k]
  }

  function DropChunks(cs: map<ChunkKey, string>, g: Group, duplicates: set<string>): map<ChunkKey, string> {
    map k | k in cs && !(ChunkGroup(k) == g && k.project in duplicates) :: cs[k]
  }

  /** Chunk `k` is one the update of group `g` moves. */
  predicate Moves(g: Group, source: string, k: ChunkKey) {
    ChunkGroup(k) == g && k.project == source
  }

  /** The rows left by the update that sets the project of the kept row. */
  function MoveRow(ms: map<MaterialKey, Material>, g: Group, source: string): map<MaterialKey, Material>
    requires Row(g, source) in ms
  {
    (ms - {Row(g, source)})[Row(g, LIBRARY) := ms[Row(g, source)]]
  }

  function MoveChunks(cs: map<ChunkKey, string>, g: Group, source: string): map<ChunkKey, string> {
    (map k | k in cs && !Moves(g, source, k) :: cs[k])
    + (map k | k in cs && Moves(g, source, k) :: k.(project := LIBRARY) := cs[k])
  }

  lemma RegroupedHas(ms: map<MaterialKey, Material>, done: set<Group>, k: MaterialKey)
    ensures k in Regrouped(ms, done) <==>
            if GroupOf(k) in done then k.project == LIBRARY && Projects(ms, GroupOf(k)) != {} else k in ms
  {
    var g := GroupOf(k);
    if g in done && k.project == LIBRARY && Projects(ms, g) != {} {
      GroupsProjects(ms, g);
      assert Row(g, Kept(ms, g)).(project := LIBRARY) == k;
    }
  }

  lemma RegroupedChunksHas(ms: map<MaterialKey, Material>, cs: map<ChunkKey, string>, done: set<Group>, k: ChunkKey)
    ensures k in RegroupedChunks(ms, cs, done) <==> ChunkSource(ms, cs, done, k).Some?
    ensures ChunkSource(ms, cs, done, k).Some? ==> ChunkSource(ms, cs, done, k).value in cs
  {
    if ChunkSource(ms, cs, done, k).Some? {
      var c := ChunkSource(ms, cs, done, k).value;
      assert c == k || c.(project := LIBRARY) == k;
    }
  }

  lemma OnlyGroupsClash(ms: map<MaterialKey, Material>, cs: map<ChunkKey, string>, g: Group)
    requires ChunkClash(ms, cs, g)
    ensures g in Groups(ms)
  {
    GroupsProjects(ms, g);
  }

  lemma DropNothing(ms: map<MaterialKey, Material>, cs: map<ChunkKey, string>, g: Group, duplicates: set<string>)
    requires duplicates == {}
    ensures DropRows(ms, g, duplicates) == ms && DropChunks(cs, g, duplicates) == cs
  {
  }

  lemma NothingRegrouped(ms: map<MaterialKey, Material>, cs: map<ChunkKey, string>, done: set<Group>)
    requires done == {}
    ensures Regrouped(ms, done) == ms && RegroupedChunks(ms, cs, done) == cs
  {
    forall k ensures k in Regrouped(ms, done) <==> k in ms { RegroupedHas(ms, done, k); }
    forall k ensures k in RegroupedChunks(ms, cs, done) <==> k in cs { RegroupedChunksHas(ms, cs, done, k); }
  }

  /** Deleting the duplicates and relabelling the kept row is one more merged group. */
  lemma RowsStep(ms: map<MaterialKey, Material>, g: Group, done: set<Group>)
    requires g in Groups(ms) && g !in done
    ensures Projects(ms, g) != {}
    ensures var dropped := DropRows(Regrouped(ms, done), g, Projects(ms, g) - {Kept(ms, g)});
            && Row(g, Kept(ms, g)) in dropped
            && (Kept(ms, g) != LIBRARY ==> Row(g, LIBRARY) !in dropped)
            && Regrouped(ms, done + {g}) == if Kept(ms, g) == LIBRARY then dropped else MoveRow(dropped, g, Kept(ms, g))
  {
    GroupsProjects(ms, g);
    var dropped := DropRows(Regrouped(ms, done), g, Projects(ms, g) - {Kept(ms, g)});
    RegroupedHas(ms, done, Row(g, Kept(ms, g)));
    RegroupedHas(ms, done, Row(g, LIBRARY));
    var after := if Kept(ms, g) == LIBRARY then dropped else MoveRow(dropped, g, Kept(ms, g));
    forall k ensures k in Regrouped(ms, done + {g}) <==> k in after {
      RegroupedHas(ms, done, k);
      RegroupedHas(ms, done + {g}, k);
      if GroupOf(k) == g { assert Row(g, k.project) == k; }
    }
  }

  /** The chunks left of one group and of the others once its duplicates are deleted. */
  lemma DroppedChunk(ms: map<MaterialKey, Material>, cs: map<ChunkKey, string>, g: Group, done: set<Group>, k: ChunkKey)
    requires g !in done && Projects(ms, g) != {}
    ensures var dropped := DropChunks(RegroupedChunks(ms, cs, done), g, Projects(ms, g) - {Kept(ms, g)});
            && (k in dropped <==> ChunkSource(ms, cs, done, k).Some? && !(ChunkGroup(k) == g && k.project in Projects(ms, g) - {Kept(ms, g)}))
            && (k in dropped ==> ChunkSource(ms, cs, done, k).value in cs && dropped[k] == cs[ChunkSource(ms, cs, done, k).value])
  {
    RegroupedChunksHas(ms, cs, done, k);
  }

  /** The chunk that ends at `k` comes from the same old chunk whether the group is merged now or in the end. */
  lemma ChunkStep(ms: map<MaterialKey, Material>, cs: map<ChunkKey, string>, g: Group, done: set<Group>, k: ChunkKey)
    requires g in Groups(ms) && g !in done && Projects(ms, g) != {}
    requires Kept(ms, g) != LIBRARY ==> !ChunkClash(ms, cs, g)
    ensures var dropped := DropChunks(RegroupedChunks(ms, cs, done), g, Projects(ms, g) - {Kept(ms, g)});
            var next := RegroupedChunks(ms, cs, done + {g});
            var p := Kept(ms, g);
            var moved := ChunkGroup(k) == g && k.project == LIBRARY && k.(project := p) in dropped;
            && (k in next <==> moved || (k in dropped && (Moves(g, p, k) ==> p == LIBRARY)))
            && (k in next ==> next[k] == if moved then dropped[k.(project := p)] else dropped[k])
  {
    var p := Kept(ms, g);
    GroupsProjects(ms, g);
    RegroupedChunksHas(ms, cs, done + {g}, k);
    DroppedChunk(ms, cs, g, done, k);
    DroppedChunk(ms, cs, g, done, k.(project := p));
    hide RegroupedChunks, DropChunks;
    if ChunkGroup(k) == g && p != LIBRARY && k.project == LIBRARY && k in cs && k.(project := p) in cs {
      assert ChunkKey(g.owner, p, g.material, k.index) == k.(project := p);
      assert ChunkKey(g.owner, LIBRARY, g.material, k.index) == k;
      assert LIBRARY in Projects(ms, g);
    }
  }

  lemma ChunkClashes(ms: map<MaterialKey, Material>, cs: map<ChunkKey, string>, g: Group, done: set<Group>)
    requires g in Groups(ms) && g !in done && Projects(ms, g) != {}
    ensures var dropped := DropChunks(RegroupedChunks(ms, cs, done), g, Projects(ms, g) - {Kept(ms, g)});
            Kept(ms, g) != LIBRARY ==>
              (ChunkClash(ms, cs, g) <==> exists k :: k in dropped && Moves(g, Kept(ms, g), k) && k.(project := LIBRARY) in dropped)
    ensures Kept(ms, g) == LIBRARY ==> !ChunkClash(ms, cs, g)
  {
    var p := Kept(ms, g);
    var dropped := DropChunks(RegroupedChunks(ms, cs, done), g, Projects(ms, g) - {p});
    forall k ensures k in dropped && ChunkGroup(k) == g <==>
        k in cs && ChunkGroup(k) == g && k.project !in Projects(ms, g) - {p}
    {
      DroppedChunk(ms, cs, g, done, k);
    }
    hide RegroupedChunks, DropChunks, ChunkSource;
    if p != LIBRARY && ChunkClash(ms, cs, g) {
      var i: nat :| ChunkKey(g.owner, p, g.material, i) in cs && ChunkKey(g.owner, LIBRARY, g.material, i) in cs;
      var k := ChunkKey(g.owner, p, g.material, i);
      assert k in dropped && Moves(g, p, k) && k.(project := LIBRARY) in dropped;
    }
    if k :| k in dropped && Moves(g, p, k) && k.(project := LIBRARY) in dropped && p != LIBRARY {
      assert ChunkKey(g.owner, p, g.material, k.index) == k;
      assert ChunkKey(g.owner, LIBRARY, g.material, k.index) == k.(project := LIBRARY);
      assert k in cs && k.(project := LIBRARY) in cs;
      assert ChunkGroup(k.(project := LIBRARY)) == g;
    }
  }

  lemma MovedChunk(cs: map<ChunkKey, string>, g: Group, p: string, k: ChunkKey)
    ensures var moved := ChunkGroup(k) == g && k.project == LIBRARY && k.(project := p) in cs;
            && (k in MoveChunks(cs, g, p) <==> moved || (k in cs && !Moves(g, p, k)))
            && (k in MoveChunks(cs, g, p) ==> MoveChunks(cs, g, p)[k] == if moved then cs[k.(project := p)] else cs[k])
  {
    if ChunkGroup(k) == g && k.project == LIBRARY {
      assert k.(project := p).(project := LIBRARY) == k;
    }
  }

  /** The same for the chunks, unless an unowned library chunk is in the way. */
  lemma ChunksStep(ms: map<MaterialKey, Material>, cs: map<ChunkKey, string>, g: Group, done: set<Group>)
    requires g in Groups(ms) && g !in done && Projects(ms, g) != {} && !ChunkClash(ms, cs, g)
    ensures var dropped := DropChunks(RegroupedChunks(ms, cs, done), g, Projects(ms, g) - {Kept(ms, g)});
            RegroupedChunks(ms, cs, done + {g}) == if Kept(ms, g) == LIBRARY then dropped else MoveChunks(dropped, g, Kept(ms, g))
  {
    hide RegroupedChunks, DropChunks, ChunkSource, ChunkClash, MoveChunks, Projects;
    var p := Kept(ms, g);
    var dropped := DropChunks(RegroupedChunks(ms, cs, done), g, Projects(ms, g) - {p});
    var next := RegroupedChunks(ms, cs, done + {g});
    var after := if p == LIBRARY then dropped else MoveChunks(dropped, g, p);
    forall k ensures k in after <==> k in next
             ensures k in after ==> after[k] == next[k]
    {
      ChunkStep(ms, cs, g, done, k);
      MovedChunk(dropped, g, p, k);
    }
    assert next == after;
  }

  class Database {
    var materials: map<MaterialKey, Material>
    var chunks: map<ChunkKey, string>
    var links: map<LinkKey, int>
    var version: Option<int>

    function Contents(): Tables
      reads this
    {
      Tables(materials, chunks, links, version)
    }

    /** `max` over the candidate rows of one group. */
    method SelectSource(legacy: map<MaterialKey, Material>, g: Group) returns (source: string)
      requires Projects(legacy, g) != {}
      ensures source == Kept(legacy, g) && source in Projects(legacy, g)
    {
      GroupsProjects(legacy, g);
      var rest := Projects(legacy, g);
      source :| source in rest;
      rest := rest - {source};
      while rest != {}
        invariant rest <= Projects(legacy, g)
        invariant Best(legacy, g, Projects(legacy, g) - rest, source)
        decreases rest
      {
        var q :| q in rest;
        ghost var seen := Projects(legacy, g) - rest;
        BelowOrder(legacy, g, source, q, source);
        forall p | p in seen && p != source ensures Below(legacy, g, source, q) ==> Below(legacy, g, p, q) {
          BelowOrder(legacy, g, p, source, q);
        }
        if Below(legacy, g, source, q) { source := q; }
        rest := rest - {q};
        assert Projects(legacy, g) - rest == seen + {q};
      }
      BestUnique(legacy, g, source, Kept(legacy, g));
    }

    /** The two deletes of the duplicate rows and their chunks. */
    method DeleteDuplicates(g: Group, duplicates: set<string>)
      modifies `materials, `chunks
      ensures materials == DropRows(old(materials), g, duplicates)
      ensures chunks == DropChunks(old(chunks), g, duplicates)
    {
      chunks := DropChunks(chunks, g, duplicates);
      materials := DropRows(materials, g, duplicates);
    }

    /** The two updates that move the kept row and its chunks to the library; refused on a duplicate key. */
    method Relabel(g: Group, source: string) returns (ok: bool)
      requires source != LIBRARY && Row(g, source) in materials
      modifies `materials, `chunks
      ensures ok <==> Row(g, LIBRARY) !in old(materials)
                      && !exists k :: k in old(chunks) && Moves(g, source, k) && k.(project := LIBRARY) in old(chunks)
      ensures ok ==> materials == MoveRow(old(materials), g, source) && chunks == MoveChunks(old(chunks), g, source)
    {
      if Row(g, LIBRARY) in materials {
        return false;
      }
      materials := MoveRow(materials, g, source);
      if exists k :: k in chunks && Moves(g, source, k) && k.(project := LIBRARY) in chunks {
        return false;
      }
      chunks := MoveChunks(chunks, g, source);
      return true;
    }

    /** One turn of the outer loop: it fails exactly on a library chunk nobody owns. */
    method MergeGroup(legacy: map<MaterialKey, Material>, ghost cs: map<ChunkKey, string>, g: Group, ghost done: set<Group>)
      returns (ok: bool)
      requires g in Groups(legacy) && g !in done
      requires materials == Regrouped(legacy, done) && chunks == RegroupedChunks(legacy, cs, done)
      modifies `materials, `chunks
      ensures ok <==> !ChunkClash(legacy, cs, g)
      ensures ok ==> materials == Regrouped(legacy, done + {g}) && chunks == RegroupedChunks(legacy, cs, done + {g})
    {
      hide Regrouped, RegroupedChunks, ChunkClash, DropRows, DropChunks, MoveRow, MoveChunks;
      RowsStep(legacy, g, done);
      ChunkClashes(legacy, cs, g, done);
      if !ChunkClash(legacy, cs, g) {
        ChunksStep(legacy, cs, g, done);
      }
      var source := SelectSource(legacy, g);
      var duplicates := Projects(legacy, g) - {source};
      if duplicates != {} {
        DeleteDuplicates(g, duplicates);
      } else {
        DropNothing(materials, chunks, g, duplicates);
      }
      ok := true;
      if source != LIBRARY {
        ok := Relabel(g, source);
      }
    }

    /** The statements of `initialize`: what they leave behind is `Upgrade`, and an error leaves nothing. */
    method Migrate() returns (r: Result<int, SchemaError>)
      modifies this
      ensures r.Ok? <==> old(Upgrade(Contents())).Ok?
      ensures r.Ok? ==> Contents() == old(Upgrade(Contents())).value && r.value == SCHEMA_VERSION
      ensures r.Err? ==> Contents() == old(Contents()) && r.error == old(Upgrade(Contents())).error
    {
      hide Merge, Titled, UniqueMaterials;
      var saved := Contents();
      if version == None {
        version := Some(SCHEMA_VERSION);
      }
      var current := version.value;
      if current == 1 {
        materials := Titled(materials);
        current := 2;
      }
      if current == 2 {
        var ok := Regroup();
        if !ok {
          materials, chunks, links, version := saved.materials, saved.chunks, saved.links, saved.version;
          return Err(IntegrityError);
        }
        current := 3;
      }
      if current == 3 { current := 4; }
      if current == 4 { current := 5; }
      version := Some(current);
      if current != SCHEMA_VERSION {
        version := saved.version;
        return Err(UnsupportedSchema(current));
      }
      if !UniqueMaterials(materials) {
        materials, chunks, links, version := saved.materials, saved.chunks, saved.links, saved.version;
        return Err(IntegrityError);
      }
      return Ok(current);
    }

    /**
     `initialize` inside its transaction. A new database and versions 3 to 5 with unique materials only get the
     current version; versions 1 and 2 succeed unless a link or a chunk would be stored twice; every other
     version is refused by its number. An error leaves the tables as they were.
     */
    method Initialize() returns (r: Result<int, SchemaError>)
      modifies this
      ensures old(version).None? || 3 <= old(version).value <= 5 ==>
                if RowTwice(old(materials)) then r == Err(IntegrityError)
                else r == Ok(5) && Contents() == old(Contents()).(version := Some(5))
      ensures old(version) == Some(1) || old(version) == Some(2) ==>
                r == if LinkThere(old(Contents())) || ChunkInTheWay(old(Contents())) then Err(IntegrityError) else Ok(5)
      ensures old(version).Some? && !(1 <= old(version).value <= 5) ==> r == Err(UnsupportedSchema(old(version).value))
      ensures r.Ok? ==> old(Upgrade(Contents())) == Ok(Contents()) && version == Some(5)
      ensures r.Err? ==> Contents() == old(Contents())
    {
      hide Upgrade, LinkThere, ChunkInTheWay, RowTwice;
      UpgradeIs(Contents());
      r := Migrate();
    }

    /** The loop over the groups of the legacy rows. */
    method MergeGroups(legacy: map<MaterialKey, Material>, ghost cs: map<ChunkKey, string>) returns (ok: bool)
      requires materials == legacy && chunks == cs
      modifies `materials, `chunks
      ensures ok <==> forall g :: !ChunkClash(legacy, cs, g)
      ensures ok ==> materials == Regrouped(legacy, Groups(legacy)) && chunks == RegroupedChunks(legacy, cs, Groups(legacy))
    {
      var todo := Groups(legacy);
      ghost var done := {};
      NothingRegrouped(legacy, cs, done);
      hide Regrouped, RegroupedChunks, ChunkClash;
      while todo != {}
        invariant todo + done == Groups(legacy) && todo !! done
        invariant materials == Regrouped(legacy, done) && chunks == RegroupedChunks(legacy, cs, done)
        invariant forall g | g in done :: !ChunkClash(legacy, cs, g)
        decreases todo
      {
        var g :| g in todo;
        ok := MergeGroup(legacy, cs, g, done);
        if !ok {
          return;
        }
        todo, done := todo - {g}, done + {g};
      }
      forall g | ChunkClash(legacy, cs, g) ensures g in done {
        OnlyGroupsClash(legacy, cs, g);
      }
      assert done == Groups(legacy);
      return true;
    }

    /** The version 2 to 3 step. */
    method Regroup() returns (ok: bool)
      modifies `materials, `chunks, `links
      ensures if ok then Merge(old(Contents())).Ok? else Merge(old(Contents())) == Err(IntegrityError)
      ensures ok ==> var m := Merge(old(Contents())).value; materials == m.materials && chunks == m.chunks && links == m.links
    {
      hide Regrouped, RegroupedChunks, ChunkClash;
      if exists l :: l in NewLinks(materials) && l in links {
        return false;
      }
      links := links + NewLinks(materials);
      ok := MergeGroups(materials, chunks);
    }
  }
}
