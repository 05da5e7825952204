/** The round trip: listing a selection, turning it into a document and spawning that copies the
    selected part of the forest (crates/zlim-core/src/scene.rs). */
module SceneRoundTrip {
  import opened Wrappers
  import opened Forests
  import opened SceneBuilder
  import opened SceneListing
  import opened SceneDocument
  import opened SpawnPlan
  import opened SceneSpawn
  import opened SpawnShape

  /** Which new entity each listed one became. */
  type Copies = map<EntityId, EntityId>

  /** What a listed forest, copied, looks like: the copies are the new entities, one each. A copy
      hangs below the copy of the parent, its children are the copies of the listed children in
      world order, and its references inside the selection lead to copies, any other nowhere. */
  ghost predicate IsCopy(f: Forest, chosen: set<EntityId>, g: Forest, copies: Copies, outer: Option<EntityId>)
    requires chosen <= f.nodes.Keys
  {
    && copies.Keys == chosen
    && (forall x, y {:trigger SameNumber(copies, x, y)} :: SameNumber(copies, x, y) ==> x == y)
    && (forall x :: x in chosen ==> NodeCopied(f, chosen, g, copies, outer, x))
  }

  ghost predicate NodeCopied(f: Forest, chosen: set<EntityId>, g: Forest, copies: Copies, outer: Option<EntityId>,
                             x: EntityId)
    requires x in f.nodes && x in copies
  {
    var node := f.nodes[x];
    && copies[x] in g.nodes
    && g.nodes[copies[x]] == Node(
         if node.parent.Some? && node.parent.value in chosen && node.parent.value in copies
           then Some(copies[node.parent.value]) else outer,
         Copied(node.children, copies), RefsCopied(node.refs, copies))
  }

  /** The copies of those that have one, in order. */
  function Copied(s: seq<EntityId>, copies: Copies): seq<EntityId> {
    if s == [] then []
    else
      var last := s[|s| - 1];
      Copied(s[..|s| - 1], copies) + if last in copies then [copies[last]] else []
  }

  function RefsCopied(refs: seq<EntityId>, copies: Copies): seq<EntityId> {
    seq(|refs|, k requires 0 <= k < |refs| => if refs[k] in copies then copies[refs[k]] else PLACEHOLDER)
  }

  // ------------------------------------------------------------------------------------------
  // The document of a listing
  // ------------------------------------------------------------------------------------------

  lemma {:induction false} IndexOfDocument(listing: seq<Listed>, docs: seq<DocEntity>, m: map<EntityId, EntityId>,
                                           k: nat)
    requires IsDocument(listing, docs, m) && k < |docs|
    ensures k + 1 in IndexOf(docs) && IndexOf(docs)[k + 1] == k
  {
    assert EntityRenamed(listing[k], docs[k], m);
    assert docs[k].id in IndexOf(docs);
    var i := IndexOf(docs)[docs[k].id];
    assert EntityRenamed(listing[i], docs[i], m) && docs[i].id == i + 1;
  }

  lemma ParentInDocument(listing: seq<Listed>, docs: seq<DocEntity>, m: map<EntityId, EntityId>,
                         k: nat) returns (j: nat)
    requires IsDocument(listing, docs, m) && ParentsEarlier(listing) && k < |docs| && listing[k].parent.Some?
    ensures j < k && listing[j].id == listing[k].parent.value && docs[k].parent == Some(j + 1)
  {
    assert ParentListed(listing, k);
    j :| 0 <= j < k && listing[j].id == listing[k].parent.value;
    assert EntityRenamed(listing[k], docs[k], m) && EntityRenamed(listing[j], docs[j], m) && docs[j].id == j + 1;
  }

  /** In the document of a listing every entity hangs below an earlier one: the one its listed parent
      became. */
  lemma AboveInDocument(listing: seq<Listed>, docs: seq<DocEntity>, m: map<EntityId, EntityId>, k: nat)
    requires IsDocument(listing, docs, m) && ParentsEarlier(listing) && k < |docs|
    ensures Declared(docs, IndexOf(docs), k)
    ensures match Above(docs, k)
      case None => listing[k].parent == None
      case Some(j) => j < k && listing[k].parent == Some(listing[j].id)
  {
    assert EntityRenamed(listing[k], docs[k], m);
    if listing[k].parent.Some? {
      var j := ParentInDocument(listing, docs, m, k);
      IndexOfDocument(listing, docs, m, j);
    }
  }

  /** Every turn attaches its entity to the copy of the listed parent. */
  ghost predicate FollowsListing(listing: seq<Listed>, order: seq<nat>, attached: Turns) {
    && |order| == |attached| == |listing|
    && forall q :: 0 <= q < |order| ==> TurnFollows(listing, order, attached, q)
  }

  ghost predicate TurnFollows(listing: seq<Listed>, order: seq<nat>, attached: Turns, q: nat)
    requires q < |order| == |attached| == |listing|
  {
    && order[q] < |listing|
    && match attached[q]
       case None => listing[order[q]].parent == None
       case Some(a) => a < q && order[a] < |listing| && listing[order[q]].parent == Some(listing[order[a]].id)
  }

  lemma TurnsFollowListing(listing: seq<Listed>, docs: seq<DocEntity>, m: map<EntityId, EntityId>,
                           depth: seq<Option<nat>>, order: seq<nat>)
    requires IsDocument(listing, docs, m) && ParentsEarlier(listing)
    requires IsDepth(Links(docs), depth) && IsOrder(depth, order, |docs|)
    ensures FollowsListing(listing, order, Attachments(docs, IndexOf(docs), order))
  {
    var attached := Attachments(docs, IndexOf(docs), order);
    forall q | 0 <= q < |order| ensures TurnFollows(listing, order, attached, q) {
      assert attached[q] == AttachedAt(docs, IndexOf(docs), order, q);
      AboveInDocument(listing, docs, m, order[q]);
      TurnsFollowPlan(docs, depth, order, q);
    }
  }

  /** Siblings have their turns in listing order. */
  ghost predicate SiblingsInTurn(listing: seq<Listed>, order: seq<nat>) {
    forall p, q {:trigger SiblingTurns(listing, order, p, q)} :: 0 <= p < q < |order| ==>
      SiblingTurns(listing, order, p, q)
  }

  ghost predicate SiblingTurns(listing: seq<Listed>, order: seq<nat>, p: nat, q: nat)
    requires p < |order| && q < |order|
  {
    order[p] < |listing| && order[q] < |listing| &&
    (listing[order[p]].parent == listing[order[q]].parent ==> order[p] < order[q])
  }

  lemma SameDepth(up: Ups, depth: seq<Option<nat>>, i: nat, j: nat)
    requires IsDepth(up, depth) && i < |up| && j < |up| && up[i] == up[j]
    ensures depth[i] == depth[j]
  {
    assert DepthAt(up, depth[i], i) && DepthAt(up, depth[j], j);
    assert depth[j].Some? ==> Reaches(up, i, depth[j].value);
    if depth[i].Some? {
      assert Reaches(up, j, depth[i].value);
      ReachesOnce(up, j, depth[i].value, depth[j].value);
    }
  }

  lemma AboveOnce(listing: seq<Listed>, docs: seq<DocEntity>, m: map<EntityId, EntityId>, i: nat, j: nat)
    requires IsDocument(listing, docs, m) && ParentsEarlier(listing) && Distinct(listing) && i < |docs| && j < |docs|
    requires listing[i].parent == listing[j].parent
    ensures Above(docs, i) == Above(docs, j)
  {
    AboveInDocument(listing, docs, m, i);
    AboveInDocument(listing, docs, m, j);
  }

  lemma SiblingsFollowListing(listing: seq<Listed>, docs: seq<DocEntity>, m: map<EntityId, EntityId>,
                              depth: seq<Option<nat>>, order: seq<nat>)
    requires IsDocument(listing, docs, m) && ParentsEarlier(listing) && Distinct(listing)
    requires IsDepth(Links(docs), depth) && IsOrder(depth, order, |docs|)
    ensures SiblingsInTurn(listing, order)
  {
    forall p, q | 0 <= p < q < |order| ensures SiblingTurns(listing, order, p, q) {
      var i, j := order[p], order[q];
      assert SortedAt(depth, order, p, q);
      if listing[i].parent == listing[j].parent {
        AboveOnce(listing, docs, m, i, j);
        SameDepth(Links(docs), depth, i, j);
      }
    }
  }

  // ------------------------------------------------------------------------------------------
  // Copies and turns
  // ------------------------------------------------------------------------------------------

  /** The copies are the ids that the turns hand out. */
  ghost predicate Placed(listing: seq<Listed>, order: seq<nat>, first: EntityId, copies: Copies) {
    && IsPermutation(order, |listing|) && copies.Keys == Ids(listing)
    && forall q :: 0 <= q < |order| ==> PlacedAt(listing, order, first, copies, q)
  }

  ghost predicate PlacedAt(listing: seq<Listed>, order: seq<nat>, first: EntityId, copies: Copies, q: nat)
    requires q < |order| && order[q] < |listing|
  {
    listing[order[q]].id in copies && copies[listing[order[q]].id] == first + q
  }

  lemma CopyTurn(listing: seq<Listed>, order: seq<nat>, first: EntityId, copies: Copies, x: EntityId) returns (q: nat)
    requires Placed(listing, order, first, copies) && x in copies
    ensures q < |order| && order[q] < |listing| && listing[order[q]].id == x && copies[x] == first + q
  {
    var k :| 0 <= k < |listing| && listing[k].id == x;
    assert k in order;
    q :| 0 <= q < |order| && order[q] == k;
    assert PlacedAt(listing, order, first, copies, q);
  }

  lemma IncreasingAppend(s: seq<EntityId>, x: EntityId)
    requires Increasing(s) && forall y :: y in s ==> y < x
    ensures Increasing(s + [x])
  {
    assert forall j :: 0 <= j < |s| ==> s[j] in s;
  }

  lemma IncreasingFront(s: seq<EntityId>) returns (front: seq<EntityId>, last: EntityId)
    requires Increasing(s) && s != []
    ensures s == front + [last] && Increasing(front) && last !in front && forall y :: y in s ==> y <= last
  {
    front, last := s[..|s| - 1], s[|s| - 1];
  }

  lemma {:induction false} SameIncreasing(a: seq<EntityId>, b: seq<EntityId>)
    requires Increasing(a) && Increasing(b) && forall x :: x in a <==> x in b
    ensures a == b
    decreases |a|
  {
    assert (|a| > 0 ==> a[0] in a) && (|b| > 0 ==> b[0] in b);
    if |a| > 0 && |b| > 0 {
      var a', x := IncreasingFront(a);
      var b', y := IncreasingFront(b);
      assert x in a && y in b && x == y;
      forall z ensures z in a' <==> z in b' {
        assert z in a <==> z in a' || z == x;
        assert z in b <==> z in b' || z == x;
      }
      SameIncreasing(a', b');
    }
  }

  lemma {:induction false} KidsAre(attached: Turns, a: Option<nat>, n: nat, first: EntityId)
    requires n <= |attached|
    ensures Increasing(Kids(attached, a, n, first))
    ensures forall id :: id in Kids(attached, a, n, first) <==> first <= id < first + n && attached[id - first] == a
  {
    if n > 0 {
      KidsAre(attached, a, n - 1, first);
      IncreasingAppend(Kids(attached, a, n - 1, first), first + n - 1);
    }
  }

  ghost predicate CopyOfOne(s: seq<EntityId>, copies: Copies, y: EntityId) {
    exists k :: 0 <= k < |s| && s[k] in copies && copies[s[k]] == y
  }

  lemma {:induction false} CopiedHolds(s: seq<EntityId>, copies: Copies, y: EntityId)
    ensures y in Copied(s, copies) <==> CopyOfOne(s, copies, y)
  {
    if s != [] {
      var last := |s| - 1;
      CopiedHolds(s[..last], copies, y);
      if CopyOfOne(s, copies, y) {
        var k :| 0 <= k < |s| && s[k] in copies && copies[s[k]] == y;
        assert k < last ==> s[..last][k] == s[k];
      }
    }
  }

  ghost predicate CopiesIncrease(s: seq<EntityId>, copies: Copies) {
    forall j, k :: 0 <= j < k < |s| && s[j] in copies && s[k] in copies ==> copies[s[j]] < copies[s[k]]
  }

  lemma {:induction false} CopiedIncreasing(s: seq<EntityId>, copies: Copies)
    requires CopiesIncrease(s, copies)
    ensures Increasing(Copied(s, copies))
  {
    if s != [] {
      var last := |s| - 1;
      CopiedIncreasing(s[..last], copies);
      forall y | y in Copied(s[..last], copies) && s[last] in copies ensures y < copies[s[last]] {
        CopiedHolds(s[..last], copies, y);
      }
      if s[last] in copies {
        IncreasingAppend(Copied(s[..last], copies), copies[s[last]]);
      }
    }
  }

  // ------------------------------------------------------------------------------------------
  // Families
  // ------------------------------------------------------------------------------------------

  /** The listed entities with one listed parent, in listing order; the sequence may have others in
      between, which are not listed. */
  ghost predicate Family(listing: seq<Listed>, parent: Option<EntityId>, family: seq<EntityId>) {
    && (forall k :: 0 <= k < |listing| ==> (listing[k].id in family <==> listing[k].parent == parent))
    && (forall j, k :: 0 <= j < k < |family| ==> ListedBefore(listing, family[j], family[k]))
  }

  ghost predicate ListedBefore(listing: seq<Listed>, x: EntityId, y: EntityId) {
    forall a, b :: 0 <= a < |listing| && 0 <= b < |listing| && listing[a].id == x && listing[b].id == y ==> a < b
  }

  /** The entities attached in the turn of a listed parent are exactly its listed children. */
  lemma AttachedIsListed(listing: seq<Listed>, order: seq<nat>, attached: Turns, a: Option<nat>,
                         parent: Option<EntityId>, q: nat)
    requires Distinct(listing) && FollowsListing(listing, order, attached) && IsPermutation(order, |listing|)
    requires q < |order| && (a.Some? ==> a.value < |order|)
    requires parent == if a.Some? then Some(listing[order[a.value]].id) else None
    ensures attached[q] == a <==> listing[order[q]].parent == parent
  {
    assert TurnFollows(listing, order, attached, q);
    if attached[q].Some? && a.Some? {
      var b, c := attached[q].value, a.value;
      if listing[order[b]].id == listing[order[c]].id {
        SamePlace(listing, order[b], order[c]);
      }
      assert b < c ==> Differ(order, b, c);
      assert c < b ==> Differ(order, c, b);
    }
  }

  lemma FamilyIncreases(listing: seq<Listed>, order: seq<nat>, first: EntityId, copies: Copies,
                        parent: Option<EntityId>, family: seq<EntityId>)
    requires Distinct(listing) && SiblingsInTurn(listing, order) && Placed(listing, order, first, copies)
    requires Family(listing, parent, family)
    ensures CopiesIncrease(family, copies)
  {
    forall j, k | 0 <= j < k < |family| && family[j] in copies && family[k] in copies
      ensures copies[family[j]] < copies[family[k]]
    {
      var p := CopyTurn(listing, order, first, copies, family[j]);
      var q := CopyTurn(listing, order, first, copies, family[k]);
      assert ListedBefore(listing, family[j], family[k]);
      assert q < p ==> SiblingTurns(listing, order, q, p);
    }
  }

  lemma CopyIsKid(listing: seq<Listed>, order: seq<nat>, attached: Turns, first: EntityId, copies: Copies,
                  a: Option<nat>, parent: Option<EntityId>, family: seq<EntityId>, y: EntityId)
    requires Distinct(listing) && FollowsListing(listing, order, attached)
    requires Placed(listing, order, first, copies) && Family(listing, parent, family)
    requires a.Some? ==> a.value < |order|
    requires parent == if a.Some? then Some(listing[order[a.value]].id) else None
    requires CopyOfOne(family, copies, y)
    ensures first <= y < first + |order| && attached[y - first] == a
  {
    var k :| 0 <= k < |family| && family[k] in copies && copies[family[k]] == y;
    var q := CopyTurn(listing, order, first, copies, family[k]);
    AttachedIsListed(listing, order, attached, a, parent, q);
  }

  lemma KidIsCopy(listing: seq<Listed>, order: seq<nat>, attached: Turns, first: EntityId, copies: Copies,
                  a: Option<nat>, parent: Option<EntityId>, family: seq<EntityId>, q: nat)
    requires Distinct(listing) && FollowsListing(listing, order, attached)
    requires Placed(listing, order, first, copies) && Family(listing, parent, family)
    requires a.Some? ==> a.value < |order|
    requires parent == if a.Some? then Some(listing[order[a.value]].id) else None
    requires q < |order| && attached[q] == a
    ensures CopyOfOne(family, copies, first + q)
  {
    AttachedIsListed(listing, order, attached, a, parent, q);
    assert PlacedAt(listing, order, first, copies, q);
    var k :| 0 <= k < |family| && family[k] == listing[order[q]].id;
    assert family[k] in copies;
  }

  /** What was attached to a copy are the copies of the family, in order. */
  lemma FamilyCopied(listing: seq<Listed>, order: seq<nat>, attached: Turns, first: EntityId, copies: Copies,
                     a: Option<nat>, parent: Option<EntityId>, family: seq<EntityId>)
    requires Distinct(listing) && FollowsListing(listing, order, attached) && SiblingsInTurn(listing, order)
    requires Placed(listing, order, first, copies) && Family(listing, parent, family)
    requires a.Some? ==> a.value < |order|
    requires parent == if a.Some? then Some(listing[order[a.value]].id) else None
    ensures Copied(family, copies) == Kids(attached, a, |order|, first)
  {
    var kids := Kids(attached, a, |order|, first);
    KidsAre(attached, a, |order|, first);
    FamilyIncreases(listing, order, first, copies, parent, family);
    CopiedIncreasing(family, copies);
    forall y: EntityId ensures y in Copied(family, copies) <==> y in kids {
      CopiedHolds(family, copies, y);
      if CopyOfOne(family, copies, y) {
        CopyIsKid(listing, order, attached, first, copies, a, parent, family, y);
      }
      if y in kids {
        KidIsCopy(listing, order, attached, first, copies, a, parent, family, y - first);
      }
    }
    SameIncreasing(Copied(family, copies), kids);
  }

  // ------------------------------------------------------------------------------------------
  // The two kinds of family
  // ------------------------------------------------------------------------------------------

  lemma EntryOf(f: Forest, chosen: set<EntityId>, listing: seq<Listed>, k: nat)
    requires IsListing(f, chosen, listing) && k < |listing|
    ensures listing[k].id in chosen && listing[k].id in f.nodes
    ensures listing[k].parent == SceneParent(f, chosen, listing[k].id) && listing[k].refs == f.nodes[listing[k].id].refs
  {
    assert Entry(f, chosen, listing[k]);
  }

  lemma ChildrenInOrder(f: Forest, chosen: set<EntityId>, listing: seq<Listed>, x: EntityId, j: nat, k: nat)
    requires f.Linked() && IsListing(f, chosen, listing) && x in chosen && x in f.nodes
    requires j < k < |f.Children(x)|
    ensures ListedBefore(listing, f.Children(x)[j], f.Children(x)[k])
  {
    var children := f.Children(x);
    ChildPlaces(f, x);
    assert f.LinkedDown(x);
    forall a, b |
      0 <= a < |listing| && 0 <= b < |listing| && listing[a].id == children[j] && listing[b].id == children[k]
      ensures a < b
    {
      EntryOf(f, chosen, listing, a);
      EntryOf(f, chosen, listing, b);
      assert listing[a].parent == Some(x) && listing[b].parent == Some(x);
      assert b < a ==> SiblingsPlaced(f, listing, b, a);
    }
  }

  /** The children of a listed entity, in world order. */
  lemma ChildrenAreFamily(f: Forest, chosen: set<EntityId>, listing: seq<Listed>, x: EntityId)
    requires f.Linked() && IsListing(f, chosen, listing) && x in chosen && x in f.nodes
    ensures Family(listing, Some(x), f.Children(x))
  {
    var children := f.Children(x);
    assert f.LinkedDown(x);
    forall k | 0 <= k < |listing| ensures listing[k].id in children <==> listing[k].parent == Some(x) {
      EntryOf(f, chosen, listing, k);
      assert f.LinkedUp(listing[k].id);
    }
    forall j, k | 0 <= j < k < |children| ensures ListedBefore(listing, children[j], children[k]) {
      ChildrenInOrder(f, chosen, listing, x, j, k);
    }
  }

  lemma TopsInOrder(listing: seq<Listed>, e: Listed, x: EntityId, y: EntityId)
    requires Distinct(listing + [e]) && x in Ids(listing)
    requires (y in Ids(listing) && ListedBefore(listing, x, y)) || y == e.id
    ensures ListedBefore(listing + [e], x, y)
  {
    var listing' := listing + [e];
    assert listing'[|listing|] == e && forall k :: 0 <= k < |listing| ==> listing'[k] == listing[k];
    var i :| 0 <= i < |listing| && listing[i].id == x;
    assert DifferentIds(listing', i, |listing|);
    forall a, b | 0 <= a < |listing'| && 0 <= b < |listing'| && listing'[a].id == x && listing'[b].id == y
      ensures a < b
    {
      SamePlace(listing', a, i);
      assert b < |listing| && y == e.id ==> DifferentIds(listing', b, |listing|);
      if b == |listing| && y != e.id {
        assert false;
      }
    }
  }

  lemma DistinctFront(listing: seq<Listed>, e: Listed)
    requires Distinct(listing + [e])
    ensures Distinct(listing) && e.id !in Ids(listing) && Ids(listing + [e]) == Ids(listing) + {e.id}
  {
    var listing' := listing + [e];
    assert listing'[|listing|] == e && forall k :: 0 <= k < |listing| ==> listing'[k] == listing[k];
    forall j, k | 0 <= j < k < |listing| ensures DifferentIds(listing, j, k) {
      assert DifferentIds(listing', j, k);
    }
    forall j | 0 <= j < |listing| ensures listing[j].id != e.id {
      assert DifferentIds(listing', j, |listing|);
    }
    IdsAppend(listing, e);
  }

  lemma TopsNext(listing: seq<Listed>, e: Listed)
    requires Distinct(listing + [e]) && Distinct(listing) && e.id !in Ids(listing)
    requires Family(listing, None, Tops(listing))
    requires Ids(listing + [e]) == Ids(listing) + {e.id} && forall x :: x in Tops(listing) ==> x in Ids(listing)
    ensures Family(listing + [e], None, Tops(listing) + if e.parent.None? then [e.id] else [])
  {
    var listing', tops := listing + [e], Tops(listing) + if e.parent.None? then [e.id] else [];
    assert listing'[|listing|] == e;
    forall j, k | 0 <= j < k < |tops| ensures ListedBefore(listing', tops[j], tops[k]) {
      TopsInOrder(listing, e, tops[j], tops[k]);
    }
  }

  lemma {:induction false} TopsAreFamily(listing: seq<Listed>)
    requires Distinct(listing)
    ensures Family(listing, None, Tops(listing)) && forall x :: x in Tops(listing) ==> x in Ids(listing)
  {
    if listing != [] {
      var before, e := listing[..|listing| - 1], listing[|listing| - 1];
      assert listing == before + [e];
      DistinctFront(before, e);
      TopsAreFamily(before);
      TopsNext(before, e);
    }
  }

  // ------------------------------------------------------------------------------------------
  // References
  // ------------------------------------------------------------------------------------------

  /** Document ids are the positions, counted from one. */
  ghost predicate Numbered(docs: seq<DocEntity>) {
    forall k :: 0 <= k < |docs| ==> docs[k].id == k + 1
  }

  lemma {:induction false} IdMapHolds(docs: seq<DocEntity>, order: seq<nat>, n: nat, first: EntityId, q: nat)
    requires Numbered(docs) && IsPermutation(order, |docs|) && q < n <= |docs|
    ensures order[q] + 1 in IdMap(docs, order, n, first) && IdMap(docs, order, n, first)[order[q] + 1] == first + q
  {
    if q < n - 1 {
      IdMapHolds(docs, order, n - 1, first, q);
      assert Differ(order, q, n - 1);
    }
  }

  lemma {:induction false} IdMapOnly(docs: seq<DocEntity>, order: seq<nat>, n: nat, first: EntityId, id: EntityId)
    requires Numbered(docs) && IsPermutation(order, |docs|) && n <= |docs| && id in IdMap(docs, order, n, first)
    ensures 1 <= id <= |docs|
  {
    if id != docs[order[n - 1]].id {
      IdMapOnly(docs, order, n - 1, first, id);
    }
  }

  function CopyMap(listing: seq<Listed>, m: map<EntityId, EntityId>, idMap: map<EntityId, EntityId>): Copies {
    map x | x in Ids(listing) && x in m && m[x] in idMap :: idMap[m[x]]
  }

  lemma CopiesPlaced(listing: seq<Listed>, docs: seq<DocEntity>, m: map<EntityId, EntityId>, order: seq<nat>,
                     first: EntityId)
    requires IsDocument(listing, docs, m) && IsPermutation(order, |docs|)
    ensures Placed(listing, order, first, CopyMap(listing, m, IdMap(docs, order, |docs|, first)))
  {
    var n := |docs|;
    var idMap := IdMap(docs, order, n, first);
    var copies := CopyMap(listing, m, idMap);
    forall q | 0 <= q < n ensures PlacedAt(listing, order, first, copies, q) {
      assert EntityRenamed(listing[order[q]], docs[order[q]], m);
      IdMapHolds(docs, order, n, first, q);
    }
    forall x | x in Ids(listing) ensures x in copies {
      var k :| 0 <= k < |listing| && listing[k].id == x;
      assert k in order;
      var q :| 0 <= q < n && order[q] == k;
      assert PlacedAt(listing, order, first, copies, q);
    }
  }

  /** A reference inside the selection leads to the copy, any other to the placeholder. */
  lemma RefCopied(listing: seq<Listed>, docs: seq<DocEntity>, m: map<EntityId, EntityId>, order: seq<nat>,
                  first: EntityId, live: set<EntityId>, r: EntityId)
    requires IsDocument(listing, docs, m) && IsPermutation(order, |docs|) && |m| < FIRST_ID && r in m
    requires NewIds(first, |docs|) <= live && forall id :: id in live ==> id >= FIRST_ID
    ensures var idMap := IdMap(docs, order, |docs|, first);
      var copies := CopyMap(listing, m, idMap);
      Resolved(m[r], idMap, live) == if r in copies then copies[r] else PLACEHOLDER
  {
    var idMap := IdMap(docs, order, |docs|, first);
    var copies := CopyMap(listing, m, idMap);
    CopiesPlaced(listing, docs, m, order, first);
    if r in copies {
      var q := CopyTurn(listing, order, first, copies, r);
      assert first + q in NewIds(first, |docs|);
    } else if m[r] in idMap {
      IdMapOnly(docs, order, |docs|, first, m[r]);
      var k := m[r] - 1;
      assert EntityRenamed(listing[k], docs[k], m);
      assert SameNumber(m, r, listing[k].id);
    }
  }

  // ------------------------------------------------------------------------------------------
  // The round trip
  // ------------------------------------------------------------------------------------------

  /** What was there before is untouched, but for the copies of the topmost entities, which stand last
      among the outer parent's children or among the roots. */
  ghost predicate Extended(f: Forest, g: Forest, outer: Option<EntityId>, tops: seq<EntityId>, created: set<EntityId>) {
    && g.nodes.Keys == f.nodes.Keys + created && f.nodes.Keys !! created
    && (forall x :: x in f.nodes ==> Kept(f, g, outer, tops, x))
    && g.roots == f.roots + (if outer.None? then Elements(tops) else {})
  }

  ghost predicate Kept(f: Forest, g: Forest, outer: Option<EntityId>, tops: seq<EntityId>, x: EntityId)
    requires x in f.nodes
  {
    x in g.nodes && g.nodes[x] == f.nodes[x].(children := f.Children(x) + if outer == Some(x) then tops else [])
  }

  lemma RefsAreCopied(listing: seq<Listed>, docs: seq<DocEntity>, m: map<EntityId, EntityId>, order: seq<nat>,
                      first: EntityId, live: set<EntityId>, i: nat)
    requires IsDocument(listing, docs, m) && IsPermutation(order, |docs|) && |m| < FIRST_ID && i < |docs|
    requires NewIds(first, |docs|) <= live && forall id :: id in live ==> id >= FIRST_ID
    ensures var idMap := IdMap(docs, order, |docs|, first);
      ResolvedAll(docs[i].refs, idMap, live) == RefsCopied(listing[i].refs, CopyMap(listing, m, idMap))
  {
    assert EntityRenamed(listing[i], docs[i], m);
    var refs := listing[i].refs;
    forall k | 0 <= k < |refs|
      ensures Resolved(docs[i].refs[k], IdMap(docs, order, |docs|, first), live) ==
        RefsCopied(refs, CopyMap(listing, m, IdMap(docs, order, |docs|, first)))[k]
    {
      RefCopied(listing, docs, m, order, first, live, refs[k]);
    }
  }

  /** The links of one copy. */
  lemma LinksCopied(f: Forest, chosen: set<EntityId>, listing: seq<Listed>, order: seq<nat>, attached: Turns,
                    first: EntityId, outer: Option<EntityId>, copies: Copies, q: nat)
    requires f.Linked() && IsListing(f, chosen, listing) && q < |order|
    requires FollowsListing(listing, order, attached) && SiblingsInTurn(listing, order)
    requires Placed(listing, order, first, copies)
    ensures var x := listing[order[q]].id;
      && x in f.nodes && x in chosen && x in copies && copies[x] == first + q
      && Copied(f.Children(x), copies) == Kids(attached, Some(q), |order|, first)
      && SceneSpawn.Under(attached, q, outer, first) ==
           (var p := SceneParent(f, chosen, x); if p.Some? && p.value in copies then Some(copies[p.value]) else outer)
  {
    var x := listing[order[q]].id;
    EntryOf(f, chosen, listing, order[q]);
    assert PlacedAt(listing, order, first, copies, q);
    ChildrenAreFamily(f, chosen, listing, x);
    FamilyCopied(listing, order, attached, first, copies, Some(q), Some(x), f.Children(x));
    UnderCopied(f, chosen, listing, order, attached, first, outer, copies, q);
  }

  lemma UnderCopied(f: Forest, chosen: set<EntityId>, listing: seq<Listed>, order: seq<nat>, attached: Turns,
                    first: EntityId, outer: Option<EntityId>, copies: Copies, q: nat)
    requires IsListing(f, chosen, listing) && q < |order|
    requires FollowsListing(listing, order, attached) && Placed(listing, order, first, copies)
    ensures var x := listing[order[q]].id;
      && x in f.nodes
      && SceneSpawn.Under(attached, q, outer, first) ==
           (var p := SceneParent(f, chosen, x); if p.Some? && p.value in copies then Some(copies[p.value]) else outer)
  {
    EntryOf(f, chosen, listing, order[q]);
    assert TurnFollows(listing, order, attached, q);
    if attached[q].Some? {
      assert PlacedAt(listing, order, first, copies, attached[q].value);
    }
  }

  /** One new entity as a spawn leaves it. */
  ghost predicate Built(listing: seq<Listed>, order: seq<nat>, attached: Turns, g: Forest, outer: Option<EntityId>,
                        first: EntityId, copies: Copies, q: nat)
    requires q < |order| == |attached| && order[q] < |listing|
  {
    first + q in g.nodes &&
    g.nodes[first + q] == Node(SceneSpawn.Under(attached, q, outer, first), Kids(attached, Some(q), |order|, first),
                               RefsCopied(listing[order[q]].refs, copies))
  }

  lemma NodeIsCopied(f: Forest, chosen: set<EntityId>, listing: seq<Listed>, order: seq<nat>, attached: Turns,
                     g: Forest, outer: Option<EntityId>, first: EntityId, copies: Copies, q: nat)
    requires f.Linked() && IsListing(f, chosen, listing) && q < |order|
    requires FollowsListing(listing, order, attached) && SiblingsInTurn(listing, order)
    requires Placed(listing, order, first, copies)
    requires Built(listing, order, attached, g, outer, first, copies, q)
    ensures var x := listing[order[q]].id;
      x in f.nodes && x in copies && NodeCopied(f, chosen, g, copies, outer, x)
  {
    LinksCopied(f, chosen, listing, order, attached, first, outer, copies, q);
    EntryOf(f, chosen, listing, order[q]);
  }

  /** One copy after its components were filled in. */
  lemma FilledNode(listing: seq<Listed>, docs: seq<DocEntity>, m: map<EntityId, EntityId>, order: seq<nat>,
                   attached: Turns, grown: Forest, outer: Option<EntityId>, first: EntityId, q: nat)
    requires IsDocument(listing, docs, m) && |m| < FIRST_ID && IsPermutation(order, |docs|) && q < |order| == |attached|
    requires NewShape(grown, attached, |docs|, outer, first, q)
    requires NewIds(first, |docs|) <= grown.nodes.Keys && forall id :: id in grown.nodes ==> id >= FIRST_ID
    ensures var idMap := IdMap(docs, order, |docs|, first);
      var g := Furnished(grown, docs, order, first, idMap);
      Built(listing, order, attached, g, outer, first, CopyMap(listing, m, idMap), q)
  {
    RefsAreCopied(listing, docs, m, order, first, grown.nodes.Keys, order[q]);
  }

  lemma AllCopied(f: Forest, chosen: set<EntityId>, listing: seq<Listed>, order: seq<nat>, attached: Turns,
                  g: Forest, outer: Option<EntityId>, first: EntityId, copies: Copies)
    requires f.Linked() && IsListing(f, chosen, listing) && chosen <= f.nodes.Keys
    requires FollowsListing(listing, order, attached) && SiblingsInTurn(listing, order)
    requires Placed(listing, order, first, copies)
    requires forall q :: 0 <= q < |order| ==> Built(listing, order, attached, g, outer, first, copies, q)
    ensures IsCopy(f, chosen, g, copies, outer)
  {
    forall x | x in chosen ensures NodeCopied(f, chosen, g, copies, outer, x) {
      var q := CopyTurn(listing, order, first, copies, x);
      NodeIsCopied(f, chosen, listing, order, attached, g, outer, first, copies, q);
    }
    CopiesDiffer(listing, order, first, copies);
  }

  lemma CopiesDiffer(listing: seq<Listed>, order: seq<nat>, first: EntityId, copies: Copies)
    requires Placed(listing, order, first, copies)
    ensures forall x, y {:trigger SameNumber(copies, x, y)} :: SameNumber(copies, x, y) ==> x == y
  {
    forall x, y | SameNumber(copies, x, y) ensures x == y {
      var p := CopyTurn(listing, order, first, copies, x);
      var q := CopyTurn(listing, order, first, copies, y);
    }
  }

  /** Filling in components leaves the rest of the shape alone. */
  lemma OldStays(f: Forest, grown: Forest, g: Forest, listing: seq<Listed>, docs: seq<DocEntity>, order: seq<nat>,
                 attached: Turns, outer: Option<EntityId>, first: EntityId, idMap: map<EntityId, EntityId>,
                 copies: Copies)
    requires IsPermutation(order, |docs|) && |attached| == |docs| == |listing| && Distinct(listing)
    requires Shape(f, grown, attached, |docs|, outer, first) && forall id :: id in f.nodes ==> id < first
    requires g == Furnished(grown, docs, order, first, idMap)
    requires FollowsListing(listing, order, attached) && SiblingsInTurn(listing, order)
    requires Placed(listing, order, first, copies)
    ensures Extended(f, g, outer, Copied(Tops(listing), copies), NewIds(first, |docs|))
  {
    TopsAreFamily(listing);
    FamilyCopied(listing, order, attached, first, copies, None, None, Tops(listing));
    forall x | x in f.nodes
      ensures Kept(f, g, outer, Kids(attached, None, |docs|, first), x)
    {
      assert OldShape(f, grown, attached, |docs|, outer, first, x);
    }
  }

  lemma AllBuilt(listing: seq<Listed>, docs: seq<DocEntity>, m: map<EntityId, EntityId>, order: seq<nat>,
                 attached: Turns, f: Forest, grown: Forest, g: Forest, outer: Option<EntityId>, first: EntityId,
                 idMap: map<EntityId, EntityId>)
    requires IsDocument(listing, docs, m) && |m| < FIRST_ID && IsPermutation(order, |docs|) && |attached| == |docs|
    requires Shape(f, grown, attached, |docs|, outer, first) && first >= FIRST_ID
    requires (forall id :: id in f.nodes ==> id >= FIRST_ID) && idMap == IdMap(docs, order, |docs|, first)
    requires g == Furnished(grown, docs, order, first, idMap)
    ensures forall q :: 0 <= q < |order| ==>
      Built(listing, order, attached, g, outer, first, CopyMap(listing, m, idMap), q)
  {
    forall q | 0 <= q < |order|
      ensures Built(listing, order, attached, g, outer, first, CopyMap(listing, m, idMap), q)
    {
      FilledNode(listing, docs, m, order, attached, grown, outer, first, q);
    }
  }

  /** A forest of the spawned shape, with the components filled in. */
  ghost predicate Finished(f: Forest, g: Forest, docs: seq<DocEntity>, order: seq<nat>, attached: Turns,
                           outer: Option<EntityId>, first: EntityId, idMap: map<EntityId, EntityId>, grown: Forest)
    requires IsPermutation(order, |docs|) && |attached| == |docs|
  {
    && Shape(f, grown, attached, |docs|, outer, first)
    && g == Furnished(grown, docs, order, first, idMap)
  }

  lemma OutgrownIsFinished(f: Forest, g: Forest, docs: seq<DocEntity>, order: seq<nat>, outer: Option<EntityId>,
                           first: EntityId)
    requires IsPermutation(order, |docs|) && (outer.Some? ==> outer.value in f.nodes)
    requires Outgrown(f, g, docs, order, outer, first) && forall id :: id in f.nodes ==> id < first
    ensures exists grown :: Finished(f, g, docs, order, Attachments(docs, IndexOf(docs), order), outer, first,
                                     IdMap(docs, order, |docs|, first), grown)
  {
    var attached := Attachments(docs, IndexOf(docs), order);
    GrownShape(f, attached, |docs|, outer, first);
    assert Finished(f, g, docs, order, attached, outer, first, IdMap(docs, order, |docs|, first),
                    Grown(f, attached, |docs|, outer, first));
  }

  /** Spawning the document of a listing adds a copy of the listed part of the forest. */
  lemma SpawnCopies(f0: Forest, chosen: set<EntityId>, listing: seq<Listed>, docs: seq<DocEntity>,
                    m: map<EntityId, EntityId>, depth: seq<Option<nat>>, order: seq<nat>, attached: Turns, f: Forest,
                    g: Forest, outer: Option<EntityId>, first: EntityId, idMap: map<EntityId, EntityId>)
    requires f0.Linked() && chosen <= f0.nodes.Keys && IsListing(f0, chosen, listing)
    requires IsDocument(listing, docs, m) && |m| < FIRST_ID
    requires IsDepth(Links(docs), depth) && IsOrder(depth, order, |docs|) && IsPermutation(order, |docs|)
    requires first >= FIRST_ID && forall id :: id in f.nodes ==> FIRST_ID <= id < first
    requires attached == Attachments(docs, IndexOf(docs), order) && idMap == IdMap(docs, order, |docs|, first)
    requires exists grown :: Finished(f, g, docs, order, attached, outer, first, idMap, grown)
    ensures var copies := CopyMap(listing, m, idMap);
      && IsCopy(f0, chosen, g, copies, outer)
      && Extended(f, g, outer, Copied(Tops(listing), copies), copies.Values)
  {
    var grown :| Finished(f, g, docs, order, attached, outer, first, idMap, grown);
    DocumentFollows(f0, chosen, listing, docs, m, depth, order, attached, first, idMap);
    ShapeCopies(f0, chosen, listing, docs, m, order, attached, f, grown, g, outer, first, idMap);
  }

  lemma DocumentFollows(f0: Forest, chosen: set<EntityId>, listing: seq<Listed>, docs: seq<DocEntity>,
                        m: map<EntityId, EntityId>, depth: seq<Option<nat>>, order: seq<nat>, attached: Turns,
                        first: EntityId, idMap: map<EntityId, EntityId>)
    requires IsListing(f0, chosen, listing) && IsDocument(listing, docs, m)
    requires IsDepth(Links(docs), depth) && IsOrder(depth, order, |docs|) && IsPermutation(order, |docs|)
    requires attached == Attachments(docs, IndexOf(docs), order) && idMap == IdMap(docs, order, |docs|, first)
    ensures FollowsListing(listing, order, attached) && SiblingsInTurn(listing, order)
    ensures Placed(listing, order, first, CopyMap(listing, m, idMap))
    ensures CopyMap(listing, m, idMap).Values == NewIds(first, |docs|)
  {
    TurnsFollowListing(listing, docs, m, depth, order);
    SiblingsFollowListing(listing, docs, m, depth, order);
    CopiesPlaced(listing, docs, m, order, first);
    CopiesAreNew(listing, order, first, CopyMap(listing, m, idMap));
  }

  lemma ShapeCopies(f0: Forest, chosen: set<EntityId>, listing: seq<Listed>, docs: seq<DocEntity>,
                    m: map<EntityId, EntityId>, order: seq<nat>, attached: Turns, f: Forest, grown: Forest, g: Forest,
                    outer: Option<EntityId>, first: EntityId, idMap: map<EntityId, EntityId>)
    requires f0.Linked() && chosen <= f0.nodes.Keys && IsListing(f0, chosen, listing)
    requires IsDocument(listing, docs, m) && |m| < FIRST_ID && IsPermutation(order, |docs|) && |attached| == |docs|
    requires FollowsListing(listing, order, attached) && SiblingsInTurn(listing, order)
    requires Placed(listing, order, first, CopyMap(listing, m, idMap)) && idMap == IdMap(docs, order, |docs|, first)
    requires first >= FIRST_ID && forall id :: id in f.nodes ==> FIRST_ID <= id < first
    requires Shape(f, grown, attached, |docs|, outer, first)
    requires g == Furnished(grown, docs, order, first, idMap)
    ensures IsCopy(f0, chosen, g, CopyMap(listing, m, idMap), outer)
    ensures Extended(f, g, outer, Copied(Tops(listing), CopyMap(listing, m, idMap)), NewIds(first, |docs|))
  {
    var copies := CopyMap(listing, m, idMap);
    AllBuilt(listing, docs, m, order, attached, f, grown, g, outer, first, idMap);
    AllCopied(f0, chosen, listing, order, attached, g, outer, first, copies);
    OldStays(f, grown, g, listing, docs, order, attached, outer, first, idMap, copies);
  }

  lemma CopiesAreNew(listing: seq<Listed>, order: seq<nat>, first: EntityId, copies: Copies)
    requires Placed(listing, order, first, copies)
    ensures copies.Values == NewIds(first, |order|)
  {
    forall id | id in NewIds(first, |order|) ensures id in copies.Values {
      assert PlacedAt(listing, order, first, copies, id - first);
    }
    forall id | id in copies.Values ensures id in NewIds(first, |order|) {
      var x :| x in copies && copies[x] == id;
      var q := CopyTurn(listing, order, first, copies, x);
    }
  }

  /** What a part of a forest mentions: its entities, and those their components refer to. */
  function MentionedIn(f: Forest, chosen: set<EntityId>): set<EntityId>
    requires chosen <= f.nodes.Keys
  {
    chosen + set x, k | x in chosen && 0 <= k < |f.nodes[x].refs| :: f.nodes[x].refs[k]
  }

  /** The document of a listing numbers what the listed part mentions, and nothing else. */
  lemma ListingMentions(f: Forest, chosen: set<EntityId>, listing: seq<Listed>)
    requires IsListing(f, chosen, listing) && chosen <= f.nodes.Keys
    ensures Mentioned(listing) == MentionedIn(f, chosen)
  {
    MentionedAre(listing);
    forall y | y in Mentioned(listing) ensures y in MentionedIn(f, chosen) {
      var k :| 0 <= k < |listing| && y in MentionedBy(listing[k]);
      EntryMentions(f, chosen, listing, k, y);
    }
    forall y | y in MentionedIn(f, chosen) ensures y in Mentioned(listing) {
      var k := MentionedByEntry(f, chosen, listing, y);
      assert y in MentionedBy(listing[k]);
    }
  }

  lemma MentionedByEntry(f: Forest, chosen: set<EntityId>, listing: seq<Listed>, y: EntityId) returns (k: nat)
    requires IsListing(f, chosen, listing) && chosen <= f.nodes.Keys && y in MentionedIn(f, chosen)
    ensures k < |listing| && y in MentionedBy(listing[k])
  {
    var x :| x in chosen && (y == x || y in f.nodes[x].refs);
    k :| 0 <= k < |listing| && listing[k].id == x;
    EntryOf(f, chosen, listing, k);
  }

  lemma FewNumbers(f: Forest, chosen: set<EntityId>, listing: seq<Listed>, m: map<EntityId, EntityId>)
    requires IsListing(f, chosen, listing) && chosen <= f.nodes.Keys && m.Keys == Mentioned(listing)
    ensures |m| == |MentionedIn(f, chosen)|
  {
    ListingMentions(f, chosen, listing);
    assert |m| == |m.Keys|;
  }

  lemma EntryMentions(f: Forest, chosen: set<EntityId>, listing: seq<Listed>, k: nat, y: EntityId)
    requires IsListing(f, chosen, listing) && chosen <= f.nodes.Keys && k < |listing| && y in MentionedBy(listing[k])
    ensures y in MentionedIn(f, chosen)
  {
    EntryOf(f, chosen, listing, k);
    var refs := f.nodes[listing[k].id].refs;
    if y in refs {
      var i :| 0 <= i < |refs| && refs[i] == y;
    }
  }

  lemma ListingDeclared(listing: seq<Listed>, docs: seq<DocEntity>, m: map<EntityId, EntityId>)
    requires IsDocument(listing, docs, m) && ParentsEarlier(listing)
    ensures AllDeclared(docs, IndexOf(docs))
  {
    forall k | 0 <= k < |docs| ensures Declared(docs, IndexOf(docs), k) {
      AboveInDocument(listing, docs, m, k);
    }
  }

  lemma OutgrownCopies(f0: Forest, chosen: set<EntityId>, listing: seq<Listed>, docs: seq<DocEntity>,
                       m: map<EntityId, EntityId>, depth: seq<Option<nat>>, order: seq<nat>, f: Forest, g: Forest,
                       outer: Option<EntityId>, first: EntityId) returns (copies: Copies)
    requires f0.Linked() && chosen <= f0.nodes.Keys && IsListing(f0, chosen, listing)
    requires IsDocument(listing, docs, m) && |m| < FIRST_ID
    requires IsDepth(Links(docs), depth) && IsOrder(depth, order, |docs|) && IsPermutation(order, |docs|)
    requires first >= FIRST_ID && forall id :: id in f.nodes ==> FIRST_ID <= id < first
    requires (outer.Some? ==> outer.value in f.nodes) && Outgrown(f, g, docs, order, outer, first)
    ensures IsCopy(f0, chosen, g, copies, outer)
    ensures Extended(f, g, outer, Copied(Tops(listing), copies), copies.Values)
  {
    var idMap := IdMap(docs, order, |docs|, first);
    OutgrownIsFinished(f, g, docs, order, outer, first);
    SpawnCopies(f0, chosen, listing, docs, m, depth, order, Attachments(docs, IndexOf(docs), order), f, g, outer, first,
                idMap);
    copies := CopyMap(listing, m, idMap);
  }

  /** Selects, lists, renames and spawns. Unless a demanded entity is missing, or `outer` is not live,
      the target holds a copy of the selection afterwards. The document's ids must stay below the
      ids of live entities, which is so when the selection mentions fewer than 2^32 entities. */
  method CopyScene(f0: Forest, requests: seq<Request>, skipMissing: bool, target: World, outer: Option<EntityId>)
    returns (done: bool, ghost listing: seq<Listed>, ghost copies: Copies)
    requires f0.WellFormed() && target.Valid()
    modifies target
    ensures Selection(f0, requests) <= f0.nodes.Keys
    ensures forall x :: x in Selection(f0, requests) <==> LastWord(f0, requests, x)
    ensures done <==>
      && (skipMissing || !exists k: nat :: FailsAt(f0, requests, k))
      && (outer.Some? ==> outer.value in old(target.nodes))
    ensures target.Valid() && (!done ==> target.State() == old(target.State()))
    ensures done && |MentionedIn(f0, Selection(f0, requests))| < FIRST_ID ==>
      var chosen := Selection(f0, requests);
      && IsListing(f0, chosen, listing)
      && IsCopy(f0, chosen, target.State(), copies, outer)
      && Extended(old(target.State()), target.State(), outer, Copied(Tops(listing), copies), copies.Values)
      && (AddsOnly(requests) ==> TopsByRequest(f0, requests, listing))
  {
    listing, copies := [], map[];
    SelectedLive(f0, requests);
    forall x ensures x in Selection(f0, requests) <==> LastWord(f0, requests, x) {
      SelectionExactly(f0, requests, x);
    }
    var listed := Finish(f0, requests, skipMissing);
    if listed.Failure? {
      return false, listing, copies;
    }
    var docs;
    ghost var m;
    listing := listed.value;
    docs, m := IntoDynamic(listed.value);
    FewNumbers(f0, Selection(f0, requests), listing, m);
    ghost var first := target.nextId;
    var r, depth, order := SpawnDynamicScene(target, docs, outer, None, None);
    ListingDeclared(listed.value, docs, m);
    done := r == Done;
    if done && |MentionedIn(f0, Selection(f0, requests))| < FIRST_ID {
      copies := OutgrownCopies(f0, Selection(f0, requests), listed.value, docs, m, depth, order, old(target.State()),
                               target.State(), outer, first);
    }
  }
}
