/** The maintenance script that keeps only the oldest `SERVICES_GRID` section
    of the home page. */
module RemoveDuplicateServices {
  import opened Json
  import opened Sections
  import opened SectionStore
  import HomePage
  import Sequences

  const ServicesGrid := "SERVICES_GRID"

  predicate IsGrid(s: Section)
  {
    s.sectionType == ServicesGrid
  }

  /** The home page's services grids in creation order: the query's
      `where: { type }` clause. */
  function Grids(table: seq<Section>, homeId: string): seq<Section>
  {
    Sequences.Filter(SectionsOfPage(table, homeId), IsGrid)
  }

  lemma GridsFacts(table: seq<Section>, homeId: string)
    requires UniqueIds(table) && CreationOrdered(table)
    ensures UniqueIds(Grids(table, homeId)) && CreationOrdered(Grids(table, homeId))
    ensures forall x :: x in Grids(table, homeId) <==> x in table && x.pageId == homeId && IsGrid(x)
  {
    PageSectionsKeepValid(table, homeId);
    FilterKeepsValid(SectionsOfPage(table, homeId), IsGrid);
    SectionsOfPageMembership(table, homeId);
    forall x ensures x in Grids(table, homeId) <==> x in table && x.pageId == homeId && IsGrid(x) {
      Sequences.FilterMembership(SectionsOfPage(table, homeId), IsGrid, x);
    }
  }

  /** What the script leaves: a record survives exactly when it is not a
      services grid of the home page, or is the first (oldest) one. */
  lemma OnlyOldestGridRemains(table: seq<Section>, homeId: string, x: Section)
    requires UniqueIds(table) && CreationOrdered(table) && x in table
    ensures var g := Grids(table, homeId);
      x in WithoutIds(table, IdsOf(Tail(g))) <==> !(x.pageId == homeId && IsGrid(x)) || (g != [] && x == g[0])
    ensures forall y :: y in Grids(table, homeId) ==> Grids(table, homeId)[0].createdAt <= y.createdAt
  {
    var g := Grids(table, homeId);
    GridsFacts(table, homeId);
    WithoutIdsMembership(table, IdsOf(Tail(g)));
    assert forall y :: y in Tail(g) ==> y in g;
    if x.id in IdsOf(Tail(g)) {
      var y :| y in Tail(g) && y.id == x.id;
      SameIdSameRecord(table, x, y);
      TailIff(g, x);
    } else if x in g {
      TailIff(g, x);
    }
    forall y | y in g ensures g[0].createdAt <= y.createdAt {
      var j :| 0 <= j < |g| && g[j] == y;
      if j > 0 { }
    }
  }

  method RemoveDuplicateServices(store: Store)
    requires store.Valid()
    modifies store
    ensures store.Valid() && store.pages == old(store.pages)
    ensures HomePage.FindBySlug(old(store.pages), "home").None? ==> store.sections == old(store.sections)
    ensures HomePage.FindBySlug(old(store.pages), "home").Some? ==>
      var grids := Grids(old(store.sections), HomePage.FindBySlug(old(store.pages), "home").value.id);
      store.sections == WithoutIds(old(store.sections), IdsOf(Tail(grids)))
  {
    var homePage := HomePage.FindBySlug(store.pages, "home");
    if homePage.None? {
      return;
    }
    var sections := Grids(store.sections, homePage.value.id);
    var servicesGrids := Sequences.Filter(sections, IsGrid);
    assert servicesGrids == sections by {
      Sequences.FilterIdempotent(SectionsOfPage(store.sections, homePage.value.id), IsGrid);
    }
    assert UniqueIds(servicesGrids) && CreationOrdered(servicesGrids) &&
      forall x :: x in servicesGrids ==> x.id in IdsOf(store.sections) by {
      GridsFacts(store.sections, homePage.value.id);
    }
    if |servicesGrids| > 1 {
      var toDelete := servicesGrids[1..];
      assert UniqueIds(toDelete) && forall x :: x in toDelete ==> x.id in IdsOf(store.sections) by {
        TailFacts(servicesGrids);
        assert forall x :: x in toDelete ==> x in servicesGrids;
      }
      DeleteEach(store, toDelete);
    } else {
      assert Tail(servicesGrids) == [];
      assert IdsOf([]) == {};
      WithoutNothing(store.sections);
    }
  }
}
