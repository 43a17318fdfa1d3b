/**
 The bounded candidate list of the home dispatcher: the eight most recent open spaces, with room made
 for the spaces a text names.
 */
module DispatchCandidates {
  import opened SetCounting
  import opened TextOrder
  import opened Wrappers

  const MAX_DISPATCH_CANDIDATES := 8

  datatype Workspace = Workspace(id: string, title: string, terms: seq<string>, lastActiveAt: int, archived: bool)

  predicate DistinctIds(s: seq<Workspace>) { forall i, j | 0 <= i < j < |s| :: s[i].id != s[j].id }

  // ---------------------------------------------------------------- sorting

  /** The sort key, reversed: more recent first, then the greater id. */
  predicate Above(a: Workspace, b: Workspace) {
    a.lastActiveAt > b.lastActiveAt || (a.lastActiveAt == b.lastActiveAt && Before(b.id, a.id))
  }

  function Inserted(s: seq<Workspace>, w: Workspace): seq<Workspace> {
    if s == [] then [w] else if Above(s[0], w) then [s[0]] + Inserted(s[1..], w) else [w] + s
  }

  /** `sorted(..., reverse=True)`. */
  function Ranked(s: seq<Workspace>): seq<Workspace> {
    if s == [] then [] else Inserted(Ranked(s[1..]), s[0])
  }

  predicate Descending(s: seq<Workspace>) { forall i, j | 0 <= i < j < |s| :: Above(s[i], s[j]) }

  lemma AboveOrder(a: Workspace, b: Workspace, c: Workspace)
    ensures Above(a, b) && Above(b, c) ==> Above(a, c)
    ensures a.id == b.id || Above(a, b) || Above(b, a)
    ensures !(Above(a, b) && Above(b, a)) && !Above(a, a)
  {
    BeforeTotal(a.id, b.id);
    BeforeTotal(a.id, a.id);
    if Before(c.id, b.id) && Before(b.id, a.id) { BeforeTransitive(c.id, b.id, a.id); }
  }

  lemma {:induction false} InsertedSame(s: seq<Workspace>, w: Workspace)
    ensures multiset(Inserted(s, w)) == multiset(s) + multiset{w}
    ensures forall v | v in Inserted(s, w) :: v == w || v in s
  {
    if s != [] {
      assert s == [s[0]] + s[1..];
      InsertedSame(s[1..], w);
    }
    forall v | v in Inserted(s, w) ensures v == w || v in s { assert v in multiset(Inserted(s, w)); }
  }

  lemma Prepended(x: Workspace, s: seq<Workspace>)
    requires Descending(s) && forall v | v in s :: Above(x, v)
    ensures Descending([x] + s)
  {
    hide Above;
    var r := [x] + s;
    forall i, j | 0 <= i < j < |r| ensures Above(r[i], r[j]) {
      if i == 0 { assert r[j] == s[j - 1]; } else { assert r[i] == s[i - 1] && r[j] == s[j - 1]; }
    }
  }

  lemma HeadAbove(s: seq<Workspace>)
    requires s != [] && Descending(s)
    ensures Descending(s[1..]) && forall v | v in s[1..] :: Above(s[0], v)
  {
    hide Above;
    forall v | v in s[1..] ensures Above(s[0], v) {
      var i :| 0 <= i < |s[1..]| && s[1..][i] == v;
      assert s[i + 1] == v;
    }
  }

  lemma {:induction false} InsertedRanks(s: seq<Workspace>, w: Workspace)
    requires Descending(s) && forall v | v in s :: v.id != w.id
    ensures Descending(Inserted(s, w)) && multiset(Inserted(s, w)) == multiset(s) + multiset{w}
  {
    hide Above, Descending;
    InsertedSame(s, w);
    if s == [] {
      Single(w);
    } else {
      assert s == [s[0]] + s[1..] && s[0] in s;
      HeadAbove(s);
      if Above(s[0], w) {
        InsertedRanks(s[1..], w);
        InsertedSame(s[1..], w);
        Prepended(s[0], Inserted(s[1..], w));
      } else {
        forall v | v in s ensures Above(w, v) { AboveOrder(s[0], w, w); AboveOrder(w, s[0], v); }
        Prepended(w, s);
      }
    }
  }

  lemma Single(w: Workspace)
    ensures Descending([w])
  {
  }

  lemma NothingDescends()
    ensures Descending([])
  {
  }

  /** Sorting spaces with distinct ids gives the same spaces, strictly descending. */
  lemma {:induction false} RankedRanks(s: seq<Workspace>)
    requires DistinctIds(s)
    ensures Descending(Ranked(s)) && multiset(Ranked(s)) == multiset(s)
    ensures |Ranked(s)| == |s| && forall w :: w in Ranked(s) <==> w in s
  {
    hide Above, Inserted, Descending;
    if s == [] {
      assert Descending([]) by { NothingDescends(); }
    } else {
      assert s == [s[0]] + s[1..];
      RankedRanks(s[1..]);
      forall v | v in Ranked(s[1..]) ensures v.id != s[0].id {
        var i :| 0 <= i < |s[1..]| && s[1..][i] == v;
        assert s[i + 1] == v;
      }
      InsertedRanks(Ranked(s[1..]), s[0]);
    }
    assert |multiset(Ranked(s))| == |multiset(s)|;
    forall w ensures w in Ranked(s) <==> w in s {
      assert w in multiset(Ranked(s)) <==> w in multiset(s);
    }
  }

  // ---------------------------------------------------------------- selecting

  function Filtered(s: seq<Workspace>, keep: Workspace -> bool): (r: seq<Workspace>)
    ensures forall w :: w in r <==> w in s && keep(w)
  {
    if s == [] then [] else (if keep(s[0]) then [s[0]] else []) + Filtered(s[1..], keep)
  }

  /** The values of a dictionary keyed by id: each space once, where it first occurs. */
  function Deduplicated(s: seq<Workspace>): (r: seq<Workspace>)
    ensures forall w :: w in r <==> w in s
    ensures forall i, j | 0 <= i < j < |r| :: r[i] != r[j]
  {
    if s == [] then []
    else
      var earlier, w := Deduplicated(s[..|s| - 1]), s[|s| - 1];
      assert s == s[..|s| - 1] + [w];
      if w in earlier then earlier else earlier + [w]
  }

  function OpenMatching(matched: Workspace -> bool): Workspace -> bool { (w: Workspace) => !w.archived && matched(w) }

  /** Named spaces, open or archived, then open spaces whose topics or keywords match. */
  function Preserved(spaces: seq<Workspace>, named: Workspace -> bool, matched: Workspace -> bool): (r: seq<Workspace>)
    ensures forall w :: w in r <==> w in spaces && (named(w) || (!w.archived && matched(w)))
  {
    Deduplicated(Filtered(spaces, named) + Filtered(spaces, OpenMatching(matched)))
  }

  lemma {:induction false} FilteredSplits(s: seq<Workspace>, keep: Workspace -> bool, n: nat)
    requires n <= |s|
    ensures Filtered(s, keep) == Filtered(s[..n], keep) + Filtered(s[n..], keep)
    decreases n
  {
    if n == 0 {
      assert s[..0] == [] && s[0..] == s;
    } else {
      FilteredSplits(s[1..], keep, n - 1);
      assert s[1..][..n - 1] == s[..n][1..] && s[1..][n - 1..] == s[n..];
    }
  }

  lemma FilteredLast(s: seq<Workspace>, w: Workspace, keep: Workspace -> bool)
    ensures Filtered(s + [w], keep) == Filtered(s, keep) + if keep(w) then [w] else []
  {
    hide Filtered;
    FilteredSplits(s + [w], keep, |s|);
    assert (s + [w])[..|s|] == s && (s + [w])[|s|..] == [w];
    FilteredOne(w, keep);
  }

  lemma FilteredOne(w: Workspace, keep: Workspace -> bool)
    ensures Filtered([w], keep) == if keep(w) then [w] else []
  {
    assert [w][1..] == [];
  }

  /** Without repeats in `s`, appending it adds the elements that are not there yet, in order. */
  lemma {:induction false} DeduplicatedMore(a: seq<Workspace>, s: seq<Workspace>, unseen: Workspace -> bool)
    requires (forall i, j | 0 <= i < j < |a| :: a[i] != a[j]) && forall i, j | 0 <= i < j < |s| :: s[i] != s[j]
    requires forall w :: unseen(w) <==> w !in a
    ensures Deduplicated(a + s) == a + Filtered(s, unseen)
    decreases |s|
  {
    hide Deduplicated, Filtered;
    if s == [] {
      DeduplicatedSame(a);
      NothingFiltered(unseen);
      assert a + [] == a;
    } else {
      var before, w := s[..|s| - 1], s[|s| - 1];
      assert s == before + [w] && a + s == (a + before) + [w];
      DeduplicatedMore(a, before, unseen);
      DeduplicatedLast(a + before, w);
      FilteredLast(before, w, unseen);
      forall i | 0 <= i < |before| ensures before[i] != w { assert s[i] == before[i]; }
      assert a + (Filtered(before, unseen) + [w]) == (a + Filtered(before, unseen)) + [w];
      assert Filtered(before, unseen) + [] == Filtered(before, unseen);
    }
  }

  lemma DeduplicatedLast(s: seq<Workspace>, w: Workspace)
    ensures Deduplicated(s + [w]) == if w in s then Deduplicated(s) else Deduplicated(s) + [w]
  {
    assert (s + [w])[..|s|] == s;
  }

  lemma NothingFiltered(keep: Workspace -> bool)
    ensures Filtered([], keep) == []
  {
  }

  lemma {:induction false} DeduplicatedSame(a: seq<Workspace>)
    requires forall i, j | 0 <= i < j < |a| :: a[i] != a[j]
    ensures Deduplicated(a) == a
  {
    if a != [] {
      var before, w := a[..|a| - 1], a[|a| - 1];
      DeduplicatedSame(before);
      DeduplicatedLast(before, w);
      assert a == before + [w];
      forall i | 0 <= i < |before| ensures before[i] != w { assert a[i] == before[i]; }
    }
  }

  /** Open, and matching by topic or keyword only. */
  function OnlyMatching(named: Workspace -> bool, matched: Workspace -> bool): Workspace -> bool {
    (w: Workspace) => !w.archived && matched(w) && !named(w)
  }

  /**
   The preserved spaces are the named ones, open or archived, and then the open ones that only match by topic
   or keyword, each part in the order of the list: room is made for the named spaces first.
   */
  lemma PreservedIs(spaces: seq<Workspace>, named: Workspace -> bool, matched: Workspace -> bool)
    requires DistinctIds(spaces)
    ensures Preserved(spaces, named, matched) == Filtered(spaces, named) + Filtered(spaces, OnlyMatching(named, matched))
  {
    hide Deduplicated, DistinctIds;
    var a, b := Filtered(spaces, named), Filtered(spaces, OpenMatching(matched));
    var unseen := (w: Workspace) => w !in a;
    FilteredDistinct(spaces, named);
    FilteredDistinct(spaces, OpenMatching(matched));
    DifferentValues(a);
    DifferentValues(b);
    DeduplicatedMore(a, b, unseen);
    FilteredTwice(spaces, OpenMatching(matched), unseen, OnlyMatching(named, matched));
  }

  lemma DifferentValues(s: seq<Workspace>)
    requires DistinctIds(s)
    ensures forall i, j | 0 <= i < j < |s| :: s[i] != s[j]
  {
  }

  lemma {:induction false} FilteredTwice(s: seq<Workspace>, keep: Workspace -> bool, unseen: Workspace -> bool, both: Workspace -> bool)
    requires forall w | w in s :: both(w) <==> keep(w) && unseen(w)
    ensures Filtered(Filtered(s, keep), unseen) == Filtered(s, both)
  {
    if s != [] {
      assert s[0] in s && forall w | w in s[1..] :: w in s;
      FilteredTwice(s[1..], keep, unseen, both);
      var rest := Filtered(s[1..], keep);
      if keep(s[0]) {
        assert ([s[0]] + rest)[1..] == rest;
      } else {
        assert [] + rest == rest;
      }
    }
  }

  /** One pass of the loop: make room by dropping the last, and append. */
  function Added(selected: seq<Workspace>, w: Workspace): seq<Workspace> {
    if w in selected then selected
    else (if |selected| == MAX_DISPATCH_CANDIDATES then selected[..|selected| - 1] else selected) + [w]
  }

  function AddedAll(selected: seq<Workspace>, preserved: seq<Workspace>): seq<Workspace> {
    if preserved == [] then selected else Added(AddedAll(selected, preserved[..|preserved| - 1]), preserved[|preserved| - 1])
  }

  function Take(s: seq<Workspace>, n: nat): seq<Workspace> { if |s| <= n then s else s[..n] }

  function Ordered(spaces: seq<Workspace>): seq<Workspace> { Ranked(Filtered(spaces, (w: Workspace) => !w.archived)) }

  function Candidates(spaces: seq<Workspace>, preserved: seq<Workspace>): seq<Workspace> {
    Ranked(AddedAll(Take(Ordered(spaces), MAX_DISPATCH_CANDIDATES), preserved))
  }

  /** `select_dispatch_candidates`; the text enters through which spaces it names and matches. */
  method SelectDispatchCandidates(spaces: seq<Workspace>, named: Workspace -> bool, matched: Workspace -> bool)
    returns (selected: seq<Workspace>, truncated: bool)
    ensures selected == Candidates(spaces, Preserved(spaces, named, matched))
    ensures truncated <==> |Ordered(spaces)| > MAX_DISPATCH_CANDIDATES
  {
    hide Ranked, Ordered, Preserved;
    var ordered := Ordered(spaces);
    selected := Take(ordered, MAX_DISPATCH_CANDIDATES);
    var preserved := Preserved(spaces, named, matched);
    var i := 0;
    while i < |preserved|
      invariant 0 <= i <= |preserved|
      invariant selected == AddedAll(Take(ordered, MAX_DISPATCH_CANDIDATES), preserved[..i])
    {
      assert preserved[..i + 1][..i] == preserved[..i];
      if preserved[i] !in selected {
        if |selected| == MAX_DISPATCH_CANDIDATES { selected := selected[..|selected| - 1]; }
        selected := selected + [preserved[i]];
      }
      i := i + 1;
    }
    assert preserved[..i] == preserved;
    selected := Ranked(selected);
    truncated := |ordered| > MAX_DISPATCH_CANDIDATES;
  }

  // ---------------------------------------------------------------- what survives

  function Elements(s: seq<Workspace>): set<Workspace> { set w | w in s }

  /** While spaces are added, the list stays short, distinct and headed by the most recent seven. */
  ghost predicate Holding(ordered: seq<Workspace>, preserved: seq<Workspace>, selected: seq<Workspace>) {
    && |selected| <= MAX_DISPATCH_CANDIDATES
    && (forall i, j | 0 <= i < j < |selected| :: selected[i] != selected[j])
    && Take(ordered, MAX_DISPATCH_CANDIDATES - 1) <= selected
    && (|ordered| >= MAX_DISPATCH_CANDIDATES ==> |selected| == MAX_DISPATCH_CANDIDATES)
    && (forall w | w in selected :: w in Take(ordered, MAX_DISPATCH_CANDIDATES) || w in preserved)
  }

  lemma {:induction false} AddedAllHolds(ordered: seq<Workspace>, preserved: seq<Workspace>)
    requires forall i, j | 0 <= i < j < |ordered| :: ordered[i] != ordered[j]
    ensures Holding(ordered, preserved, AddedAll(Take(ordered, MAX_DISPATCH_CANDIDATES), preserved))
    decreases |preserved|
  {
    if preserved != [] {
      var before, w := preserved[..|preserved| - 1], preserved[|preserved| - 1];
      AddedAllHolds(ordered, before);
      assert forall v | v in before :: v in preserved;
      assert w in preserved;
    }
  }

  lemma {:induction false} CountDistinct(s: seq<Workspace>)
    requires forall i, j | 0 <= i < j < |s| :: s[i] != s[j]
    ensures |Elements(s)| == |s|
  {
    if s != [] {
      var before, w := s[..|s| - 1], s[|s| - 1];
      CountDistinct(before);
      assert s == before + [w];
      assert Elements(s) == Elements(before) + {w};
    }
  }

  /** A full list whose last is preserved leaves no room for another preserved space. */
  lemma FullRoom(ordered: seq<Workspace>, before: seq<Workspace>, selected: seq<Workspace>, w: Workspace, room: set<Workspace>)
    requires Holding(ordered, before, selected) && |selected| == MAX_DISPATCH_CANDIDATES && w !in selected && w in room
    requires Elements(before) + Elements(Take(ordered, MAX_DISPATCH_CANDIDATES - 1)) <= room
    requires selected[|selected| - 1] in before
    ensures |room| > MAX_DISPATCH_CANDIDATES
  {
    var recent := Take(ordered, MAX_DISPATCH_CANDIDATES - 1);
    forall v | v in selected ensures v in room {
      if v in before {
        assert v in Elements(before);
      } else {
        assert v in recent by {
          var i :| 0 <= i < |selected| && selected[i] == v;
          assert |ordered| >= MAX_DISPATCH_CANDIDATES ==> selected[i] == recent[i];
        }
        assert v in Elements(recent);
      }
    }
    CountDistinct(selected);
    Fewer(Elements(selected) + {w}, room);
  }

  /** When the preserved spaces and the most recent seven fit into eight, adding drops none of them. */
  lemma {:induction false} FittingSurvives(ordered: seq<Workspace>, preserved: seq<Workspace>, room: set<Workspace>)
    requires forall i, j | 0 <= i < j < |ordered| :: ordered[i] != ordered[j]
    requires Elements(preserved) + Elements(Take(ordered, MAX_DISPATCH_CANDIDATES - 1)) <= room && |room| <= MAX_DISPATCH_CANDIDATES
    ensures Elements(preserved) <= Elements(AddedAll(Take(ordered, MAX_DISPATCH_CANDIDATES), preserved))
    decreases |preserved|
  {
    if preserved != [] {
      var before, w := preserved[..|preserved| - 1], preserved[|preserved| - 1];
      assert preserved == before + [w];
      assert Elements(preserved) == Elements(before) + {w};
      FittingSurvives(ordered, before, room);
      AddedAllHolds(ordered, before);
      var selected := AddedAll(Take(ordered, MAX_DISPATCH_CANDIDATES), before);
      if w !in selected && |selected| == MAX_DISPATCH_CANDIDATES {
        if selected[|selected| - 1] in before { FullRoom(ordered, before, selected, w, room); }
        DroppedLast(selected, before, w);
      }
    }
  }

  lemma DroppedLast(selected: seq<Workspace>, before: seq<Workspace>, w: Workspace)
    requires selected != [] && Elements(before) <= Elements(selected) && selected[|selected| - 1] !in before
    ensures Elements(before) + {w} <= Elements(selected[..|selected| - 1] + [w])
  {
    var kept := selected[..|selected| - 1];
    assert selected == kept + [selected[|selected| - 1]];
    forall v | v in Elements(before) ensures v in kept { assert v in Elements(selected); }
  }

  // ---------------------------------------------------------------- the list that is offered

  lemma OrderedIs(spaces: seq<Workspace>)
    requires DistinctIds(spaces)
    ensures Descending(Ordered(spaces)) && (forall w :: w in Ordered(spaces) <==> w in spaces && !w.archived)
    ensures forall i, j | 0 <= i < j < |Ordered(spaces)| :: Ordered(spaces)[i] != Ordered(spaces)[j]
  {
    FilteredDistinct(spaces, (w: Workspace) => !w.archived);
    RankedRanks(Filtered(spaces, (w: Workspace) => !w.archived));
    DescendingDistinct(Ordered(spaces));
  }

  lemma DescendingDistinct(s: seq<Workspace>)
    requires Descending(s)
    ensures forall i, j | 0 <= i < j < |s| :: s[i] != s[j]
  {
    forall i, j | 0 <= i < j < |s| ensures s[i] != s[j] { AboveOrder(s[i], s[j], s[j]); }
  }

  lemma {:induction false} FilteredDistinct(s: seq<Workspace>, keep: Workspace -> bool)
    requires DistinctIds(s)
    ensures DistinctIds(Filtered(s, keep))
  {
    if s != [] {
      FilteredDistinct(s[1..], keep);
      var rest := Filtered(s[1..], keep);
      forall v | v in rest ensures v.id != s[0].id {
        var i :| 0 <= i < |s[1..]| && s[1..][i] == v;
        assert s[i + 1] == v;
      }
    }
  }

  lemma AmongSpaces(spaces: seq<Workspace>, s: seq<Workspace>)
    requires DistinctIds(spaces) && (forall w | w in s :: w in spaces) && forall i, j | 0 <= i < j < |s| :: s[i] != s[j]
    ensures DistinctIds(s)
  {
    forall i, j | 0 <= i < j < |s| ensures s[i].id != s[j].id {
      assert s[i] in s && s[j] in s;
      var k :| 0 <= k < |spaces| && spaces[k] == s[i];
      var l :| 0 <= l < |spaces| && spaces[l] == s[j];
    }
  }

  /** What the list is before the last sort, said of the spaces. */
  lemma SelectedHolds(spaces: seq<Workspace>, preserved: seq<Workspace>)
    requires DistinctIds(spaces) && forall w | w in preserved :: w in spaces
    ensures var selected := AddedAll(Take(Ordered(spaces), MAX_DISPATCH_CANDIDATES), preserved);
            && Holding(Ordered(spaces), preserved, selected) && DistinctIds(selected)
            && Descending(Candidates(spaces, preserved)) && |Candidates(spaces, preserved)| == |selected|
            && (forall w :: w in Candidates(spaces, preserved) <==> w in selected)
  {
    hide Ranked;
    var selected := AddedAll(Take(Ordered(spaces), MAX_DISPATCH_CANDIDATES), preserved);
    OrderedIs(spaces);
    AddedAllHolds(Ordered(spaces), preserved);
    forall w | w in selected ensures w in spaces { assert w in Take(Ordered(spaces), MAX_DISPATCH_CANDIDATES) || w in preserved; }
    AmongSpaces(spaces, selected);
    RankedRanks(selected);
  }

  /**
   The offered list: at most eight spaces, strictly descending, each preserved or among the eight most
   recent open ones, and always the seven most recent open ones (all, if there are fewer).
   */
  lemma OfferedSpaces(spaces: seq<Workspace>, preserved: seq<Workspace>)
    requires DistinctIds(spaces) && forall w | w in preserved :: w in spaces
    ensures var offered, ordered := Candidates(spaces, preserved), Ordered(spaces);
            && |offered| <= MAX_DISPATCH_CANDIDATES && Descending(offered)
            && (forall w | w in Take(ordered, MAX_DISPATCH_CANDIDATES - 1) :: w in offered)
            && (forall w | w in offered :: w in Take(ordered, MAX_DISPATCH_CANDIDATES) || w in preserved)
            && (preserved != [] ==> preserved[|preserved| - 1] in offered)
  {
    hide Ranked, Ordered, Candidates, Descending;
    SelectedHolds(spaces, preserved);
    var selected := AddedAll(Take(Ordered(spaces), MAX_DISPATCH_CANDIDATES), preserved);
    forall w | w in Take(Ordered(spaces), MAX_DISPATCH_CANDIDATES - 1) ensures w in selected {}
  }

  /** The open spaces that were active more recently than `w`, or at the same time with a greater id. */
  function MoreRecent(spaces: seq<Workspace>, w: Workspace): set<Workspace> {
    set v | v in spaces && !v.archived && (v.lastActiveAt > w.lastActiveAt || (v.lastActiveAt == w.lastActiveAt && Before(w.id, v.id)))
  }

  /** In a descending list the place of a space is the number of those above it. */
  lemma PlaceIs(s: seq<Workspace>, i: nat)
    requires Descending(s) && i < |s|
    ensures forall v :: v in s[..i] <==> v in s && Above(v, s[i])
  {
    hide Above;
    forall v ensures v in s[..i] <==> v in s && Above(v, s[i]) {
      if v in s[..i] {
        var j :| 0 <= j < i && s[..i][j] == v;
        assert s[j] == v;
      }
      if v in s && Above(v, s[i]) {
        var j :| 0 <= j < |s| && s[j] == v;
        AboveOrder(s[i], v, v);
        if j >= i { AboveOrder(v, s[i], v); }
        assert j < i ==> s[..i][j] == v;
      }
    }
  }

  /** The offered list is in order of activity, and an open space with fewer than seven more recent ones is in it. */
  lemma RecentAreOffered(spaces: seq<Workspace>, preserved: seq<Workspace>, w: Workspace)
    requires DistinctIds(spaces) && forall v | v in preserved :: v in spaces
    ensures var offered := Candidates(spaces, preserved);
            && (forall i, j | 0 <= i < j < |offered| ::
                  offered[i].lastActiveAt > offered[j].lastActiveAt
                  || (offered[i].lastActiveAt == offered[j].lastActiveAt && Before(offered[j].id, offered[i].id)))
            && (w in spaces && !w.archived && |MoreRecent(spaces, w)| < 7 ==> w in offered)
  {
    hide Ranked, Ordered, Candidates;
    OfferedSpaces(spaces, preserved);
    OrderedIs(spaces);
    var ordered := Ordered(spaces);
    if w in spaces && !w.archived && |MoreRecent(spaces, w)| < 7 {
      var i :| 0 <= i < |ordered| && ordered[i] == w;
      PlaceIs(ordered, i);
      assert Elements(ordered[..i]) == MoreRecent(spaces, w);
      assert forall j, k | 0 <= j < k < |ordered[..i]| :: ordered[..i][j] != ordered[..i][k];
      CountDistinct(ordered[..i]);
      assert Take(ordered, MAX_DISPATCH_CANDIDATES - 1)[i] == w;
    }
  }

  /**
   Every preserved space is offered exactly when the preserved spaces and the seven most recent open
   ones are together no more than eight; otherwise making room drops an earlier preserved one.
   */
  lemma AllPreservedOfferedIff(spaces: seq<Workspace>, preserved: seq<Workspace>)
    requires DistinctIds(spaces) && forall w | w in preserved :: w in spaces
    ensures (forall w | w in preserved :: w in Candidates(spaces, preserved)) <==>
              |Elements(preserved) + Elements(Take(Ordered(spaces), MAX_DISPATCH_CANDIDATES - 1))| <= MAX_DISPATCH_CANDIDATES
  {
    hide Ranked, Ordered, Candidates, Descending, Holding;
    var ordered := Ordered(spaces);
    var room := Elements(preserved) + Elements(Take(ordered, MAX_DISPATCH_CANDIDATES - 1));
    SelectedHolds(spaces, preserved);
    OfferedSpaces(spaces, preserved);
    OrderedIs(spaces);
    var selected := AddedAll(Take(ordered, MAX_DISPATCH_CANDIDATES), preserved);
    if |room| <= MAX_DISPATCH_CANDIDATES {
      FittingSurvives(ordered, preserved, room);
      forall w | w in preserved ensures w in Candidates(spaces, preserved) { assert w in Elements(preserved); }
    }
    if forall w | w in preserved :: w in Candidates(spaces, preserved) {
      forall w | w in room ensures w in Elements(selected) {}
      assert forall i, j | 0 <= i < j < |selected| :: selected[i] != selected[j] by { DifferentValues(selected); }
      CountDistinct(selected);
      Fewer(room, Elements(selected));
    }
  }

  /** With seven open spaces a text that names two archived ones is never offered both. */
  lemma TwoNamedDoNotFit(opens: seq<Workspace>, a: Workspace, b: Workspace)
    requires DistinctIds(opens + [a, b]) && |opens| == 7 && (forall w | w in opens :: !w.archived) && a.archived && b.archived
    ensures a !in Candidates(opens + [a, b], [a, b]) || b !in Candidates(opens + [a, b], [a, b])
  {
    hide Ranked, Ordered, Candidates, Descending, DistinctIds;
    var spaces := opens + [a, b];
    AmongThem(opens, a, b);
    AllPreservedOfferedIff(spaces, [a, b]);
    OrderedIs(spaces);
    var ordered := Ordered(spaces);
    assert Elements(ordered) == Elements(opens);
    CountDistinct(ordered);
    CountDistinct(opens);
    assert Take(ordered, MAX_DISPATCH_CANDIDATES - 1) == ordered;
    assert Elements([a, b]) == {a, b} && a !in Elements(opens) && b !in Elements(opens);
    var w :| w in [a, b] && w !in Candidates(spaces, [a, b]);
  }

  lemma AmongThem(opens: seq<Workspace>, a: Workspace, b: Workspace)
    requires DistinctIds(opens + [a, b])
    ensures forall w :: w in opens + [a, b] <==> w in opens || w == a || w == b
    ensures a != b && forall i, j | 0 <= i < j < |opens| :: opens[i] != opens[j]
  {
    var spaces := opens + [a, b];
    assert spaces[|opens|] == a && spaces[|opens| + 1] == b;
    assert forall i | 0 <= i < |opens| :: spaces[i] == opens[i];
  }

  /** Such spaces there are: seven open ones and the archived "a" and "b". */
  lemma NineSpaces()
    ensures DistinctIds(Open(7) + [Archived("a"), Archived("b")]) && |Open(7)| == 7 && forall w | w in Open(7) :: !w.archived
    ensures var offered := Candidates(Open(7) + [Archived("a"), Archived("b")], [Archived("a"), Archived("b")]);
            Archived("a") !in offered || Archived("b") !in offered
  {
    hide Candidates;
    var spaces := Open(7) + [Archived("a"), Archived("b")];
    forall i, j | 0 <= i < j < |spaces| ensures spaces[i].id != spaces[j].id {
      if j < 7 {
        assert |spaces[i].id| == i && |spaces[j].id| == j;
      } else {
        assert spaces[7].id == "a" && spaces[8].id == "b";
        if 1 <= i < 7 { assert spaces[i].id[0] == 'o'; }
      }
    }
    TwoNamedDoNotFit(Open(7), Archived("a"), Archived("b"));
  }

  /** `n` open spaces, the later the more recent. */
  function Open(n: nat): seq<Workspace> { seq(n, i requires 0 <= i => Workspace(seq(i, _ => 'o'), "", [], i, false)) }

  function Archived(id: string): Workspace { Workspace(id, "", [], 0, true) }
}
