/** Turning a listed scene into a document with ids of its own: `SceneEntityMapper` and
    `BorrowedScene::into_dynamic` of crates/zlim-core/src/scene.rs. */
module SceneDocument {
  import opened Wrappers
  import opened Forests
  import opened SceneBuilder

  /** One entity of a document. */
  datatype DocEntity = DocEntity(id: EntityId, parent: Option<EntityId>, refs: seq<EntityId>)

  /** The ids handed out so far are 1, 2, ... and no two sources share one. */
  ghost predicate Numbering(m: map<EntityId, EntityId>) {
    && (forall x :: x in m ==> 1 <= m[x] <= |m|)
    && (forall x, y {:trigger SameNumber(m, x, y)} :: SameNumber(m, x, y) ==> x == y)
  }

  predicate SameNumber(m: map<EntityId, EntityId>, x: EntityId, y: EntityId) {
    x in m && y in m && m[x] == m[y]
  }

  class SceneEntityMapper {
    var allocator: nat
    var mapper: map<EntityId, EntityId>

    ghost predicate Valid()
      reads this
    {
      allocator == |mapper| + 1 && Numbering(mapper)
    }

    constructor ()
      ensures Valid() && mapper == map[]
    {
      allocator, mapper := 1, map[];
    }

    method GetMapped(source: EntityId) returns (id: EntityId)
      requires Valid()
      modifies this
      ensures Valid()
      ensures source in mapper && id == mapper[source]
      ensures Extends(old(mapper), mapper) && mapper.Keys == old(mapper).Keys + {source}
      ensures mapper == if source in old(mapper) then old(mapper) else old(mapper)[source := |old(mapper)| + 1]
    {
      if source in mapper {
        return mapper[source];
      }
      id := allocator;
      mapper := mapper[source := id];
      allocator := allocator + 1;
      forall x, y | SameNumber(mapper, x, y) ensures x == y {
        assert x != source && y != source ==> SameNumber(old(mapper), x, y);
      }
    }
  }

  ghost predicate Extends(m: map<EntityId, EntityId>, m': map<EntityId, EntityId>) {
    forall x :: x in m ==> x in m' && m'[x] == m[x]
  }

  ghost predicate Renamed(refs: seq<EntityId>, docs: seq<EntityId>, m: map<EntityId, EntityId>) {
    && |docs| == |refs|
    && forall k :: 0 <= k < |refs| ==> refs[k] in m && docs[k] == m[refs[k]]
  }

  ghost predicate EntityRenamed(e: Listed, d: DocEntity, m: map<EntityId, EntityId>) {
    && e.id in m && d.id == m[e.id]
    && (if e.parent.Some? then e.parent.value in m && d.parent == Some(m[e.parent.value]) else d.parent == None)
    && Renamed(e.refs, d.refs, m)
  }

  /** The document is the listing renamed: the listed entities get the ids 1, 2, ... in order, and
      every other entity that a component refers to some further id. */
  ghost predicate IsDocument(entities: seq<Listed>, docs: seq<DocEntity>, m: map<EntityId, EntityId>) {
    && |docs| == |entities| && Numbering(m)
    && (forall k :: 0 <= k < |entities| ==> EntityRenamed(entities[k], docs[k], m) && docs[k].id == k + 1)
  }

  lemma RefsExtend(refs: seq<EntityId>, docs: seq<EntityId>, m: map<EntityId, EntityId>, m': map<EntityId, EntityId>)
    requires Renamed(refs, docs, m) && Extends(m, m')
    ensures Renamed(refs, docs, m')
  {
  }

  /** The references renamed so far; only they were numbered meanwhile. */
  ghost predicate Numbered(first: map<EntityId, EntityId>, refs: seq<EntityId>, mapped: seq<EntityId>,
                           m: map<EntityId, EntityId>) {
    Extends(first, m) && Renamed(refs, mapped, m) && m.Keys == first.Keys + Elements(refs)
  }

  lemma NumberedNext(first: map<EntityId, EntityId>, refs: seq<EntityId>, k: nat, mapped: seq<EntityId>,
                     m: map<EntityId, EntityId>, m': map<EntityId, EntityId>)
    requires k < |refs| && Numbered(first, refs[..k], mapped, m)
    requires Extends(m, m') && refs[k] in m' && m'.Keys == m.Keys + {refs[k]}
    ensures Numbered(first, refs[..k + 1], mapped + [m'[refs[k]]], m')
  {
    assert refs[..k + 1] == refs[..k] + [refs[k]];
    RefsExtend(refs[..k], mapped, m, m');
    ElementsAppend(refs[..k], refs[k]);
  }

  method MapEntities(mapper: SceneEntityMapper, refs: seq<EntityId>) returns (mapped: seq<EntityId>)
    requires mapper.Valid()
    modifies mapper
    ensures mapper.Valid() && Numbered(old(mapper.mapper), refs, mapped, mapper.mapper)
  {
    ghost var first := mapper.mapper;
    mapped := [];
    var k := 0;
    while k < |refs|
      invariant 0 <= k <= |refs| && mapper.Valid() && Numbered(first, refs[..k], mapped, mapper.mapper)
    {
      ghost var before := mapper.mapper;
      var id := mapper.GetMapped(refs[k]);
      NumberedNext(first, refs, k, mapped, before, mapper.mapper);
      mapped := mapped + [id];
      k := k + 1;
    }
    assert refs[..k] == refs;
  }

  /** The entities that a listed one mentions: itself, its parent, and those its components refer to. */
  function MentionedBy(e: Listed): set<EntityId> {
    {e.id} + (if e.parent.Some? then {e.parent.value} else {}) + Elements(e.refs)
  }

  function Mentioned(entities: seq<Listed>): set<EntityId> {
    if entities == [] then {}
    else Mentioned(entities[..|entities| - 1]) + MentionedBy(entities[|entities| - 1])
  }

  lemma {:induction false} MentionedAre(entities: seq<Listed>)
    ensures forall x :: x in Mentioned(entities) <==> exists k :: 0 <= k < |entities| && x in MentionedBy(entities[k])
  {
    if entities != [] {
      var last := |entities| - 1;
      var front := entities[..last];
      MentionedAre(front);
      forall x ensures x in Mentioned(entities) <==> exists k :: 0 <= k < |entities| && x in MentionedBy(entities[k]) {
        if k :| 0 <= k < |entities| && x in MentionedBy(entities[k]) {
          assert k < last ==> x in MentionedBy(front[k]);
        }
        if k :| 0 <= k < last && x in MentionedBy(front[k]) {
          assert x in MentionedBy(entities[k]);
        }
      }
    }
  }

  /** The first `n` listed entities have the ids 1 to `n`. */
  ghost predicate Collected(entities: seq<Listed>, n: nat, m: map<EntityId, EntityId>) {
    && n <= |entities|
    && (forall j :: 0 <= j < n ==> entities[j].id in m && m[entities[j].id] == j + 1)
    && (forall x :: x in m ==> 1 <= m[x] <= n && entities[m[x] - 1].id == x)
  }

  lemma CollectedNext(entities: seq<Listed>, n: nat, m: map<EntityId, EntityId>)
    requires n < |entities| && Distinct(entities) && Collected(entities, n, m)
    ensures entities[n].id !in m && Collected(entities, n + 1, m[entities[n].id := n + 1])
  {
    forall j | 0 <= j < n ensures entities[j].id != entities[n].id {
      assert DifferentIds(entities, j, n);
    }
  }

  method CollectIds(mapper: SceneEntityMapper, entities: seq<Listed>)
    requires mapper.Valid() && mapper.mapper == map[] && Distinct(entities)
    modifies mapper
    ensures mapper.Valid() && Collected(entities, |entities|, mapper.mapper)
  {
    var k := 0;
    while k < |entities|
      invariant 0 <= k <= |entities| && mapper.Valid() && |mapper.mapper| == k
      invariant Collected(entities, k, mapper.mapper)
    {
      CollectedNext(entities, k, mapper.mapper);
      var _ := mapper.GetMapped(entities[k].id);
      k := k + 1;
    }
  }

  method MapEntity(mapper: SceneEntityMapper, e: Listed) returns (d: DocEntity)
    requires mapper.Valid()
    modifies mapper
    ensures mapper.Valid() && Extends(old(mapper.mapper), mapper.mapper)
    ensures EntityRenamed(e, d, mapper.mapper)
    ensures mapper.mapper.Keys == old(mapper.mapper).Keys + MentionedBy(e)
  {
    var id := mapper.GetMapped(e.id);
    var parent := None;
    if e.parent.Some? {
      var p := mapper.GetMapped(e.parent.value);
      parent := Some(p);
    }
    var refs := MapEntities(mapper, e.refs);
    d := DocEntity(id, parent, refs);
  }

  /** The document so far: only what its entities mention was numbered. */
  ghost predicate DocumentSoFar(first: map<EntityId, EntityId>, entities: seq<Listed>, docs: seq<DocEntity>,
                                m: map<EntityId, EntityId>) {
    && |docs| <= |entities| && Extends(first, m)
    && (forall j :: 0 <= j < |docs| ==> EntityRenamed(entities[j], docs[j], m))
    && m.Keys == first.Keys + Mentioned(entities[..|docs|])
  }

  lemma DocumentNext(first: map<EntityId, EntityId>, entities: seq<Listed>, docs: seq<DocEntity>, d: DocEntity,
                     m: map<EntityId, EntityId>, m': map<EntityId, EntityId>)
    requires DocumentSoFar(first, entities, docs, m) && |docs| < |entities| && Extends(m, m')
    requires EntityRenamed(entities[|docs|], d, m') && m'.Keys == m.Keys + MentionedBy(entities[|docs|])
    ensures DocumentSoFar(first, entities, docs + [d], m')
  {
    assert entities[..|docs| + 1][..|docs|] == entities[..|docs|];
    forall j | 0 <= j < |docs| ensures EntityRenamed(entities[j], docs[j], m') {
      RenamedExtends(entities[j], docs[j], m, m');
    }
  }

  lemma DocumentDone(first: map<EntityId, EntityId>, entities: seq<Listed>, docs: seq<DocEntity>,
                     m: map<EntityId, EntityId>)
    requires Collected(entities, |entities|, first) && DocumentSoFar(first, entities, docs, m) && Numbering(m)
    requires |docs| == |entities|
    ensures IsDocument(entities, docs, m) && m.Keys == Mentioned(entities)
  {
    assert entities[..|docs|] == entities;
    OnlyMentioned(entities, first);
    forall k | 0 <= k < |docs| ensures docs[k].id == k + 1 {
      assert EntityRenamed(entities[k], docs[k], m) && entities[k].id in first;
    }
  }

  /** Ids are collected first, so that they follow the order of the listing. Whatever else is mentioned
      gets an id, and nothing more. */
  method IntoDynamic(entities: seq<Listed>) returns (docs: seq<DocEntity>, ghost m: map<EntityId, EntityId>)
    requires Distinct(entities)
    ensures IsDocument(entities, docs, m) && m.Keys == Mentioned(entities)
    ensures |docs| == |entities| && forall k :: 0 <= k < |docs| ==> docs[k].id == k + 1
  {
    var mapper := new SceneEntityMapper();
    CollectIds(mapper, entities);
    ghost var first := mapper.mapper;
    docs := [];
    var k := 0;
    while k < |entities|
      invariant 0 <= k <= |entities| && |docs| == k && mapper.Valid()
      invariant DocumentSoFar(first, entities, docs, mapper.mapper)
    {
      ghost var before := mapper.mapper;
      var d := MapEntity(mapper, entities[k]);
      DocumentNext(first, entities, docs, d, before, mapper.mapper);
      docs := docs + [d];
      k := k + 1;
    }
    m := mapper.mapper;
    DocumentDone(first, entities, docs, m);
  }

  lemma OnlyMentioned(entities: seq<Listed>, m: map<EntityId, EntityId>)
    requires Collected(entities, |entities|, m)
    ensures m.Keys <= Mentioned(entities)
  {
    MentionedAre(entities);
    forall x | x in m ensures x in Mentioned(entities) {
      assert x in MentionedBy(entities[m[x] - 1]);
    }
  }

  lemma RenamedExtends(e: Listed, d: DocEntity, m: map<EntityId, EntityId>, m': map<EntityId, EntityId>)
    requires EntityRenamed(e, d, m) && Extends(m, m')
    ensures EntityRenamed(e, d, m')
  {
    RefsExtend(e.refs, d.refs, m, m');
  }
}
