/** The `Section` and `Page` tables as the maintenance scripts see them: an
    in-memory store whose records are deleted and updated in place. */
module SectionStore {
  import opened Json
  import opened Sections
  import Sequences
  import HomePage

  predicate UniqueIds(ss: seq<Section>)
  {
    forall i, j :: 0 <= i < j < |ss| ==> ss[i].id != ss[j].id
  }

  /** Records are kept in creation order: `createdAt` never decreases along the table. */
  predicate CreationOrdered(ss: seq<Section>)
  {
    forall i, j :: 0 <= i < j < |ss| ==> ss[i].createdAt <= ss[j].createdAt
  }

  function IdsOf(ss: seq<Section>): set<string>
  {
    set s | s in ss :: s.id
  }

  /** The table once every record whose id is in `ids` is deleted. */
  function WithoutIds(ss: seq<Section>, ids: set<string>): (r: seq<Section>)
    ensures |r| <= |ss|
  {
    if ss == [] then []
    else (if ss[0].id in ids then [] else [ss[0]]) + WithoutIds(ss[1..], ids)
  }

  /** The sections of one page, in table order. */
  function SectionsOfPage(ss: seq<Section>, pageId: string): (r: seq<Section>)
    ensures |r| <= |ss|
  {
    if ss == [] then []
    else (if ss[0].pageId == pageId then [ss[0]] else []) + SectionsOfPage(ss[1..], pageId)
  }

  /** Deleting by id keeps exactly the records whose id is not named. */
  lemma {:induction false} WithoutIdsMembership(ss: seq<Section>, ids: set<string>)
    ensures forall x :: x in WithoutIds(ss, ids) <==> x in ss && x.id !in ids
  {
    if ss != [] {
      WithoutIdsMembership(ss[1..], ids);
      assert forall x :: x in ss <==> x == ss[0] || x in ss[1..];
    }
  }

  /** A page's sections are exactly the records whose `pageId` is that page. */
  lemma {:induction false} SectionsOfPageMembership(ss: seq<Section>, pageId: string)
    ensures forall x :: x in SectionsOfPage(ss, pageId) <==> x in ss && x.pageId == pageId
  {
    if ss != [] {
      SectionsOfPageMembership(ss[1..], pageId);
      assert forall x :: x in ss <==> x == ss[0] || x in ss[1..];
    }
  }

  lemma {:induction false} WithoutIdsTwice(ss: seq<Section>, a: set<string>, b: set<string>)
    ensures WithoutIds(WithoutIds(ss, a), b) == WithoutIds(ss, a + b)
  {
    if ss != [] {
      WithoutIdsTwice(ss[1..], a, b);
      var w := WithoutIds(ss, a);
      if ss[0].id in a {
        assert w == WithoutIds(ss[1..], a);
      } else {
        assert w == [ss[0]] + WithoutIds(ss[1..], a);
        assert w[0] == ss[0] && w[1..] == WithoutIds(ss[1..], a);
      }
    }
  }

  lemma WithoutNothing(ss: seq<Section>)
    ensures WithoutIds(ss, {}) == ss
  {
  }

  lemma ConsValid(h: Section, rest: seq<Section>)
    requires UniqueIds(rest) && CreationOrdered(rest)
    requires forall x :: x in rest ==> x.id != h.id && h.createdAt <= x.createdAt
    ensures UniqueIds([h] + rest) && CreationOrdered([h] + rest)
  {
    forall i, j | 0 <= i < j < |[h] + rest|
      ensures ([h] + rest)[i].id != ([h] + rest)[j].id
      ensures ([h] + rest)[i].createdAt <= ([h] + rest)[j].createdAt
    {
      assert ([h] + rest)[j] == rest[j - 1];
      if i > 0 {
        assert ([h] + rest)[i] == rest[i - 1];
      }
    }
  }

  lemma TailFacts(ss: seq<Section>)
    requires ss != [] && UniqueIds(ss) && CreationOrdered(ss)
    ensures UniqueIds(ss[1..]) && CreationOrdered(ss[1..])
    ensures forall x :: x in ss[1..] ==> x.id != ss[0].id && ss[0].createdAt <= x.createdAt
  {
    forall x | x in ss[1..] ensures x.id != ss[0].id && ss[0].createdAt <= x.createdAt {
      var i :| 0 <= i < |ss[1..]| && ss[1..][i] == x;
      assert ss[i + 1] == x;
    }
  }

  /** Deleting records keeps ids unique and creation order. */
  lemma {:induction false} WithoutIdsKeepsValid(ss: seq<Section>, ids: set<string>)
    requires UniqueIds(ss) && CreationOrdered(ss)
    ensures UniqueIds(WithoutIds(ss, ids)) && CreationOrdered(WithoutIds(ss, ids))
  {
    if ss != [] {
      TailFacts(ss);
      WithoutIdsKeepsValid(ss[1..], ids);
      WithoutIdsMembership(ss[1..], ids);
      var rest := WithoutIds(ss[1..], ids);
      if ss[0].id !in ids {
        assert WithoutIds(ss, ids) == [ss[0]] + rest;
        ConsValid(ss[0], rest);
      }
    }
  }

  lemma {:induction false} PageSectionsKeepValid(ss: seq<Section>, pageId: string)
    requires UniqueIds(ss) && CreationOrdered(ss)
    ensures UniqueIds(SectionsOfPage(ss, pageId)) && CreationOrdered(SectionsOfPage(ss, pageId))
  {
    if ss != [] {
      TailFacts(ss);
      PageSectionsKeepValid(ss[1..], pageId);
      SectionsOfPageMembership(ss[1..], pageId);
      var rest := SectionsOfPage(ss[1..], pageId);
      if ss[0].pageId == pageId {
        assert SectionsOfPage(ss, pageId) == [ss[0]] + rest;
        ConsValid(ss[0], rest);
      }
    }
  }

  /** A record whose id is not named survives the deletion. */
  lemma IdStillPresent(ss: seq<Section>, ids: set<string>, id: string)
    requires id in IdsOf(ss) && id !in ids
    ensures id in IdsOf(WithoutIds(ss, ids))
  {
    var x :| x in ss && x.id == id;
    WithoutIdsMembership(ss, ids);
    assert x in WithoutIds(ss, ids);
  }

  /** In a table with unique ids a record is identified by its id. */
  lemma SameIdSameRecord(ss: seq<Section>, x: Section, y: Section)
    requires UniqueIds(ss) && x in ss && y in ss && x.id == y.id
    ensures x == y
  {
    var i :| 0 <= i < |ss| && ss[i] == x;
    var j :| 0 <= j < |ss| && ss[j] == y;
    if i < j { } else if j < i { }
  }

  /** `content` replaced on the record with that id. */
  function WithContent(ss: seq<Section>, id: string, content: Json): (r: seq<Section>)
    ensures |r| == |ss|
  {
    seq(|ss|, i requires 0 <= i < |ss| => if ss[i].id == id then ss[i].(content := content) else ss[i])
  }

  /** What the scripts delete of a list in creation order: `slice(1)`, i.e. all
      but the first, when there is more than one. */
  function Tail(g: seq<Section>): seq<Section>
  {
    if |g| > 1 then g[1..] else []
  }

  lemma UniqueConcat(a: seq<Section>, b: seq<Section>)
    requires UniqueIds(a) && UniqueIds(b)
    requires forall x, y :: x in a && y in b ==> x.id != y.id
    ensures UniqueIds(a + b)
  {
    forall i, j | 0 <= i < j < |a + b| ensures (a + b)[i].id != (a + b)[j].id {
      if j < |a| {
      } else if i >= |a| {
        assert (a + b)[i] == b[i - |a|] && (a + b)[j] == b[j - |a|];
      } else {
        assert (a + b)[i] in a && (a + b)[j] in b;
      }
    }
  }

  lemma TailIff(g: seq<Section>, x: Section)
    requires UniqueIds(g) && x in g
    ensures x in Tail(g) <==> x != g[0]
  {
    var j :| 0 <= j < |g| && g[j] == x;
    if x in Tail(g) {
      var m :| 0 <= m < |g[1..]| && g[1..][m] == x;
      assert g[m + 1] == x;
    }
  }

  /** Keeping the records that pass a test keeps ids unique and creation order. */
  lemma {:induction false} FilterKeepsValid(ss: seq<Section>, p: Section -> bool)
    requires UniqueIds(ss) && CreationOrdered(ss)
    ensures UniqueIds(Sequences.Filter(ss, p)) && CreationOrdered(Sequences.Filter(ss, p))
  {
    if ss != [] {
      TailFacts(ss);
      FilterKeepsValid(ss[1..], p);
      var rest := Sequences.Filter(ss[1..], p);
      forall x | x in rest ensures x.id != ss[0].id && ss[0].createdAt <= x.createdAt {
        Sequences.FilterMembership(ss[1..], p, x);
      }
      if p(ss[0]) {
        assert Sequences.Filter(ss, p) == [ss[0]] + rest;
        ConsValid(ss[0], rest);
      }
    }
  }

  lemma IdsOfConcat(a: seq<Section>, b: seq<Section>)
    ensures IdsOf(a + b) == IdsOf(a) + IdsOf(b)
  {
    forall id | id in IdsOf(a + b) ensures id in IdsOf(a) + IdsOf(b) {
      var x :| x in a + b && x.id == id;
    }
  }

  lemma DeleteStep(table: seq<Section>, prefix: seq<Section>, x: Section)
    ensures WithoutIds(WithoutIds(table, IdsOf(prefix)), {x.id}) == WithoutIds(table, IdsOf(prefix + [x]))
  {
    WithoutIdsTwice(table, IdsOf(prefix), {x.id});
    IdsOfConcat(prefix, [x]);
    assert IdsOf([x]) == {x.id};
  }

  lemma NotYetDeleted(s: seq<Section>, j: nat)
    requires UniqueIds(s) && j < |s|
    ensures s[j].id !in IdsOf(s[..j])
  {
    forall y | y in s[..j] ensures y.id != s[j].id {
      var m :| 0 <= m < j && s[..j][m] == y;
    }
  }

  /** The scripts' deletion loop: one `section.delete` per record of `toDelete`, in order. */
  method DeleteEach(store: Store, toDelete: seq<Section>)
    requires store.Valid() && UniqueIds(toDelete)
    requires forall x :: x in toDelete ==> x.id in IdsOf(store.sections)
    modifies store
    ensures store.Valid() && store.pages == old(store.pages)
    ensures store.sections == WithoutIds(old(store.sections), IdsOf(toDelete))
  {
    ghost var table := store.sections;
    WithoutNothing(table);
    assert IdsOf(toDelete[..0]) == {};
    var j := 0;
    while j < |toDelete|
      invariant 0 <= j <= |toDelete|
      invariant store.Valid() && store.pages == old(store.pages)
      invariant store.sections == WithoutIds(table, IdsOf(toDelete[..j]))
    {
      var section := toDelete[j];
      NotYetDeleted(toDelete, j);
      IdStillPresent(table, IdsOf(toDelete[..j]), section.id);
      store.Delete(section.id);
      DeleteStep(table, toDelete[..j], section);
      assert toDelete[..j + 1] == toDelete[..j] + [section];
      j := j + 1;
    }
    assert toDelete[..j] == toDelete;
  }

  class Store {
    var pages: seq<HomePage.Page>
    var sections: seq<Section>

    ghost predicate Valid()
      reads this
    {
      UniqueIds(sections) && CreationOrdered(sections)
    }

    constructor (pages0: seq<HomePage.Page>, sections0: seq<Section>)
      requires UniqueIds(sections0) && CreationOrdered(sections0)
      ensures Valid() && pages == pages0 && sections == sections0
    {
      pages := pages0;
      sections := sections0;
    }

    /** `section.delete({ where: { id } })`; the record must exist, as Prisma
        throws otherwise. */
    method Delete(id: string)
      requires Valid() && id in IdsOf(sections)
      modifies this
      ensures Valid()
      ensures pages == old(pages)
      ensures sections == WithoutIds(old(sections), {id})
    {
      WithoutIdsKeepsValid(sections, {id});
      sections := WithoutIds(sections, {id});
    }

    /** `section.update({ where: { id }, data: { content } })`. */
    method Update(id: string, content: Json)
      requires Valid() && id in IdsOf(sections)
      modifies this
      ensures Valid()
      ensures pages == old(pages)
      ensures sections == WithContent(old(sections), id, content)
    {
      sections := WithContent(sections, id, content);
    }
  }
}
