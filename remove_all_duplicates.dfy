/** The maintenance script that removes duplicated sections of the home page:
    the page's sections are grouped by type and display order, and of every
    group only the oldest record is kept. */
module RemoveAllDuplicates {
  import opened Json
  import opened Sections
  import opened SectionStore
  import HomePage
  import opened Text

  /** The grouping key. The script writes it as the string `type_order`;
      `KeyStringInjective` shows that string determines the pair. */
  datatype Key = Key(sectionType: string, order: int)

  function KeyOf(s: Section): Key
  {
    Key(s.sectionType, s.order)
  }

  /** The key string `${type}_${order}`. */
  function KeyString(k: Key): string
  {
    k.sectionType + "_" + IntString(k.order)
  }

  lemma UnderscorePosition(t: string, s: string)
    requires '_' !in s
    ensures (t + "_" + s)[|t|] == '_'
    ensures forall k :: |t| < k < |t + "_" + s| ==> (t + "_" + s)[k] != '_'
  {
    forall k | |t| < k < |t + "_" + s| ensures (t + "_" + s)[k] != '_' {
      assert (t + "_" + s)[k] == s[k - |t| - 1];
    }
  }

  /** Splitting at the last `_` recovers both parts. */
  lemma SplitAtLastUnderscore(t1: string, s1: string, t2: string, s2: string)
    requires '_' !in s1 && '_' !in s2
    requires t1 + "_" + s1 == t2 + "_" + s2
    ensures t1 == t2 && s1 == s2
  {
    var w := t1 + "_" + s1;
    UnderscorePosition(t1, s1);
    UnderscorePosition(t2, s2);
    if |s1| == |s2| {
      assert t1 == w[..|t1|] && t2 == w[..|t2|];
      assert s1 == w[|t1| + 1..] && s2 == w[|t2| + 1..];
    }
  }

  /** Two sections share a key string exactly when they share type and order. */
  lemma KeyStringInjective(a: Key, b: Key)
    ensures KeyString(a) == KeyString(b) <==> a == b
  {
    if KeyString(a) == KeyString(b) {
      assert '_' !in IntString(a.order) && '_' !in IntString(b.order);
      SplitAtLastUnderscore(a.sectionType, IntString(a.order), b.sectionType, IntString(b.order));
      IntStringInjective(a.order, b.order);
    }
  }

  predicate DistinctKeys(ks: seq<Key>)
  {
    forall i, j :: 0 <= i < j < |ks| ==> ks[i] != ks[j]
  }

  /** The group keys in order of first occurrence (the object's insertion order). */
  function Keys(ss: seq<Section>): seq<Key>
    decreases |ss|
  {
    if ss == [] then []
    else
      var ks := Keys(ss[..|ss| - 1]);
      if KeyOf(ss[|ss| - 1]) in ks then ks else ks + [KeyOf(ss[|ss| - 1])]
  }

  /** The sections that were pushed onto the group of key `k`, in push order. */
  function Group(ss: seq<Section>, k: Key): seq<Section>
    decreases |ss|
  {
    if ss == [] then []
    else Group(ss[..|ss| - 1], k) + (if KeyOf(ss[|ss| - 1]) == k then [ss[|ss| - 1]] else [])
  }

  function Tails(ks: seq<Key>, ss: seq<Section>): seq<Section>
    decreases |ks|
  {
    if ks == [] then [] else Tails(ks[..|ks| - 1], ss) + Tail(Group(ss, ks[|ks| - 1]))
  }

  /** The sections the script deletes, in deletion order. */
  function Duplicates(ss: seq<Section>): seq<Section>
  {
    Tails(Keys(ss), ss)
  }

  function SumSizes(ks: seq<Key>, ss: seq<Section>): nat
    decreases |ks|
  {
    if ks == [] then 0 else SumSizes(ks[..|ks| - 1], ss) + |Group(ss, ks[|ks| - 1])|
  }

  // ---------------------------------------------------------------- grouping

  lemma {:induction false} KeysMembership(ss: seq<Section>)
    ensures forall k :: k in Keys(ss) <==> exists x :: x in ss && KeyOf(x) == k
    ensures DistinctKeys(Keys(ss))
    decreases |ss|
  {
    if ss != [] {
      var init := ss[..|ss| - 1];
      KeysMembership(init);
      assert ss == init + [ss[|ss| - 1]];
      forall k ensures k in Keys(ss) <==> exists x :: x in ss && KeyOf(x) == k {
        if k in Keys(ss) && k !in Keys(init) {
          assert KeyOf(ss[|ss| - 1]) == k;
        }
        if exists x :: x in ss && KeyOf(x) == k {
          var x :| x in ss && KeyOf(x) == k;
          if x != ss[|ss| - 1] {
            assert x in init;
          }
        }
      }
    }
  }

  lemma {:induction false} GroupMembership(ss: seq<Section>, k: Key)
    ensures forall x :: x in Group(ss, k) <==> x in ss && KeyOf(x) == k
    decreases |ss|
  {
    if ss != [] {
      var init := ss[..|ss| - 1];
      GroupMembership(init, k);
      assert ss == init + [ss[|ss| - 1]];
    }
  }

  lemma GroupNonEmpty(ss: seq<Section>, k: Key)
    ensures Group(ss, k) != [] <==> k in Keys(ss)
  {
    KeysMembership(ss);
    GroupMembership(ss, k);
    if Group(ss, k) != [] {
      assert Group(ss, k)[0] in Group(ss, k);
    }
  }

  /** A group inherits unique ids and creation order from the table. */
  lemma {:induction false} GroupValid(ss: seq<Section>, k: Key)
    requires UniqueIds(ss) && CreationOrdered(ss)
    ensures UniqueIds(Group(ss, k)) && CreationOrdered(Group(ss, k))
    decreases |ss|
  {
    if ss != [] {
      var init := ss[..|ss| - 1];
      var last := ss[|ss| - 1];
      GroupValid(init, k);
      GroupMembership(init, k);
      var g := Group(init, k);
      forall x | x in g ensures x.id != last.id && x.createdAt <= last.createdAt {
        var i :| 0 <= i < |init| && init[i] == x;
        assert ss[i] == x;
      }
      if KeyOf(last) == k {
        UniqueConcat(g, [last]);
        forall i, j | 0 <= i < j < |g + [last]|
          ensures (g + [last])[i].createdAt <= (g + [last])[j].createdAt
        {
          if j < |g| {
            assert (g + [last])[i] == g[i] && (g + [last])[j] == g[j];
          } else {
            assert (g + [last])[i] in g;
          }
        }
      }
    }
  }

  lemma {:induction false} TailsMembership(ks: seq<Key>, ss: seq<Section>)
    ensures forall x :: x in Tails(ks, ss) <==> KeyOf(x) in ks && x in Tail(Group(ss, KeyOf(x)))
    decreases |ks|
  {
    if ks != [] {
      var init := ks[..|ks| - 1];
      var k := ks[|ks| - 1];
      TailsMembership(init, ss);
      GroupMembership(ss, k);
      assert ks == init + [k];
      forall x ensures x in Tails(ks, ss) <==> KeyOf(x) in ks && x in Tail(Group(ss, KeyOf(x))) {
        if x in Tail(Group(ss, k)) {
          assert x in Group(ss, k);
        }
      }
    }
  }

  /** The deletion list holds no record twice, and only records of the page. */
  lemma {:induction false} TailsUnique(ks: seq<Key>, ss: seq<Section>)
    requires UniqueIds(ss) && CreationOrdered(ss) && DistinctKeys(ks)
    ensures UniqueIds(Tails(ks, ss))
    ensures forall x :: x in Tails(ks, ss) ==> x in ss
    decreases |ks|
  {
    if ks != [] {
      var init := ks[..|ks| - 1];
      var k := ks[|ks| - 1];
      TailsUnique(init, ss);
      TailsMembership(init, ss);
      GroupValid(ss, k);
      GroupMembership(ss, k);
      var t := Tail(Group(ss, k));
      assert forall y :: y in t ==> y in Group(ss, k);
      assert k !in init by {
        forall i | 0 <= i < |init| ensures init[i] != k {
          assert ks[i] == init[i];
        }
      }
      forall x, y | x in Tails(init, ss) && y in t ensures x.id != y.id {
        if x.id == y.id {
          SameIdSameRecord(ss, x, y);
        }
      }
      UniqueConcat(Tails(init, ss), t);
    }
  }

  lemma DuplicatesFacts(ss: seq<Section>)
    requires UniqueIds(ss) && CreationOrdered(ss)
    ensures UniqueIds(Duplicates(ss))
    ensures forall x :: x in Duplicates(ss) ==> x in ss
  {
    KeysMembership(ss);
    TailsUnique(Keys(ss), ss);
  }

  // ---------------------------------------------------------------- properties

  /** Every section of the page falls in the group of its own pair, whose first
      record is its oldest. */
  lemma GroupHeadOldest(ss: seq<Section>, x: Section)
    requires UniqueIds(ss) && CreationOrdered(ss) && x in ss
    ensures x in Group(ss, KeyOf(x))
    ensures forall y :: y in Group(ss, KeyOf(x)) ==> Group(ss, KeyOf(x))[0].createdAt <= y.createdAt
  {
    var g := Group(ss, KeyOf(x));
    GroupMembership(ss, KeyOf(x));
    GroupValid(ss, KeyOf(x));
    forall y | y in g ensures g[0].createdAt <= y.createdAt {
      var j :| 0 <= j < |g| && g[j] == y;
      if j > 0 { }
    }
  }

  /** Of every (type, order) group the first record in creation order, which is
      the oldest, survives, and every other record of the page is deleted. */
  lemma OldestSurvives(ss: seq<Section>, x: Section)
    requires UniqueIds(ss) && CreationOrdered(ss) && x in ss
    ensures x in Group(ss, KeyOf(x))
    ensures forall y :: y in Group(ss, KeyOf(x)) ==> Group(ss, KeyOf(x))[0].createdAt <= y.createdAt
    ensures x.id in IdsOf(Duplicates(ss)) <==> x != Group(ss, KeyOf(x))[0]
  {
    GroupHeadOldest(ss, x);
    GroupValid(ss, KeyOf(x));
    KeysMembership(ss);
    TailsMembership(Keys(ss), ss);
    DuplicatesFacts(ss);
    TailIff(Group(ss, KeyOf(x)), x);
    if x.id in IdsOf(Duplicates(ss)) {
      var y :| y in Duplicates(ss) && y.id == x.id;
      SameIdSameRecord(ss, x, y);
    } else {
      assert x !in Duplicates(ss);
    }
  }

  /** Afterwards the page holds exactly one section of every (type, order) pair
      it held before. */
  lemma OnePerKeyRemains(ss: seq<Section>)
    requires UniqueIds(ss) && CreationOrdered(ss)
    ensures var rest := WithoutIds(ss, IdsOf(Duplicates(ss)));
      (forall i, j :: 0 <= i < j < |rest| ==> KeyOf(rest[i]) != KeyOf(rest[j])) &&
      (forall x :: x in ss ==> exists y :: y in rest && KeyOf(y) == KeyOf(x))
  {
    var rest := WithoutIds(ss, IdsOf(Duplicates(ss)));
    WithoutIdsKeepsValid(ss, IdsOf(Duplicates(ss)));
    WithoutIdsMembership(ss, IdsOf(Duplicates(ss)));
    forall i, j | 0 <= i < j < |rest| ensures KeyOf(rest[i]) != KeyOf(rest[j]) {
      OldestSurvives(ss, rest[i]);
      OldestSurvives(ss, rest[j]);
    }
    forall x | x in ss ensures exists y :: y in rest && KeyOf(y) == KeyOf(x) {
      OldestSurvives(ss, x);
      var g := Group(ss, KeyOf(x));
      GroupMembership(ss, KeyOf(x));
      assert g[0] in g;
      OldestSurvives(ss, g[0]);
      assert g[0] in rest;
    }
  }

  lemma {:induction false} SumStep(ks: seq<Key>, ss: seq<Section>, x: Section)
    requires DistinctKeys(ks)
    ensures SumSizes(ks, ss + [x]) == SumSizes(ks, ss) + (if KeyOf(x) in ks then 1 else 0)
    decreases |ks|
  {
    if ks != [] {
      var init := ks[..|ks| - 1];
      SumStep(init, ss, x);
      assert (ss + [x])[..|ss + [x]| - 1] == ss;
      assert ks == init + [ks[|ks| - 1]];
    }
  }

  lemma {:induction false} SumOfGroups(ss: seq<Section>)
    ensures SumSizes(Keys(ss), ss) == |ss|
    decreases |ss|
  {
    if ss != [] {
      var init := ss[..|ss| - 1];
      var x := ss[|ss| - 1];
      var ki := Keys(init);
      SumOfGroups(init);
      KeysMembership(init);
      assert ss == init + [x];
      SumStep(ki, init, x);
      assert SumSizes(ki, ss) == |init| + (if KeyOf(x) in ki then 1 else 0);
      if KeyOf(x) in ki {
        assert Keys(ss) == ki;
      } else {
        GroupNonEmpty(init, KeyOf(x));
        assert Group(ss, KeyOf(x)) == Group(init, KeyOf(x)) + [x];
        var ks := ki + [KeyOf(x)];
        assert Keys(ss) == ks;
        assert ks[..|ks| - 1] == ki;
        assert SumSizes(ks, ss) == SumSizes(ki, ss) + |Group(ss, KeyOf(x))|;
      }
    }
  }

  lemma {:induction false} TailsLength(ks: seq<Key>, ss: seq<Section>)
    requires forall k :: k in ks ==> k in Keys(ss)
    ensures |Tails(ks, ss)| + |ks| == SumSizes(ks, ss)
    decreases |ks|
  {
    if ks != [] {
      var init := ks[..|ks| - 1];
      assert forall k :: k in init ==> k in ks;
      TailsLength(init, ss);
      GroupNonEmpty(ss, ks[|ks| - 1]);
    }
  }

  /** The count the script reports: every group contributes its size less one,
      which is the number of sections less the number of distinct pairs. */
  lemma DuplicateCount(ss: seq<Section>)
    ensures |Duplicates(ss)| == |ss| - |Keys(ss)|
  {
    TailsLength(Keys(ss), ss);
    SumOfGroups(ss);
  }

  /** Only sections of the home page are deleted. */
  lemma OtherPagesUntouched(table: seq<Section>, pageId: string, x: Section)
    requires UniqueIds(table) && CreationOrdered(table) && x in table && x.pageId != pageId
    ensures x in WithoutIds(table, IdsOf(Duplicates(SectionsOfPage(table, pageId))))
  {
    var page := SectionsOfPage(table, pageId);
    PageSectionsKeepValid(table, pageId);
    SectionsOfPageMembership(table, pageId);
    WithoutIdsMembership(table, IdsOf(Duplicates(page)));
    DuplicatesFacts(page);
    if x.id in IdsOf(Duplicates(page)) {
      var y :| y in Duplicates(page) && y.id == x.id;
      SameIdSameRecord(table, x, y);
    }
  }

  // ---------------------------------------------------------------- the script

  /** What the next group adds to the deletion list: records of the page, none
      deleted already, none twice. */
  lemma NextDeletions(ks: seq<Key>, g: nat, ss: seq<Section>)
    requires UniqueIds(ss) && CreationOrdered(ss) && DistinctKeys(ks) && g < |ks|
    ensures Tails(ks[..g + 1], ss) == Tails(ks[..g], ss) + Tail(Group(ss, ks[g]))
    ensures UniqueIds(Tail(Group(ss, ks[g])))
    ensures forall x :: x in Tail(Group(ss, ks[g])) ==> x in ss && x.id !in IdsOf(Tails(ks[..g], ss))
  {
    assert ks[..g + 1][..g] == ks[..g];
    assert DistinctKeys(ks[..g + 1]);
    TailsUnique(ks[..g + 1], ss);
    var done := Tails(ks[..g], ss);
    var t := Tail(Group(ss, ks[g]));
    var all := done + t;
    forall x | x in t ensures x in ss && x.id !in IdsOf(done) {
      var m :| 0 <= m < |t| && t[m] == x;
      assert all[|done| + m] == x;
      forall y | y in done ensures y.id != x.id {
        var n :| 0 <= n < |done| && done[n] == y;
        assert all[n] == y;
      }
    }
    forall a, b | 0 <= a < b < |t| ensures t[a].id != t[b].id {
      assert all[|done| + a] == t[a] && all[|done| + b] == t[b];
    }
  }

  /** The `forEach` that fills the groups object, keys in insertion order. */
  method GroupByKey(sections: seq<Section>) returns (groups: map<Key, seq<Section>>, keys: seq<Key>)
    ensures keys == Keys(sections)
    ensures forall k :: k in groups <==> k in keys
    ensures forall k :: k in groups ==> groups[k] == Group(sections, k)
  {
    groups := map[];
    keys := [];
    var i := 0;
    while i < |sections|
      invariant 0 <= i <= |sections|
      invariant keys == Keys(sections[..i])
      invariant forall k :: k in groups <==> k in keys
      invariant forall k :: k in groups ==> groups[k] == Group(sections[..i], k)
    {
      var section := sections[i];
      var key := KeyOf(section);
      assert sections[..i + 1][..i] == sections[..i];
      assert sections[..i + 1][i] == section;
      if key !in groups {
        GroupNonEmpty(sections[..i], key);
        groups := groups[key := []];
        keys := keys + [key];
      }
      groups := groups[key := groups[key] + [section]];
      i := i + 1;
    }
    assert sections[..i] == sections;
  }

  lemma GroupStep(table: seq<Section>, done: seq<Section>, t: seq<Section>)
    requires forall x :: x in t ==> x in table && x.id !in IdsOf(done)
    ensures forall x :: x in t ==> x.id in IdsOf(WithoutIds(table, IdsOf(done)))
    ensures WithoutIds(WithoutIds(table, IdsOf(done)), IdsOf(t)) == WithoutIds(table, IdsOf(done + t))
  {
    WithoutIdsMembership(table, IdsOf(done));
    forall x | x in t ensures x.id in IdsOf(WithoutIds(table, IdsOf(done))) {
      assert x in WithoutIds(table, IdsOf(done));
    }
    WithoutIdsTwice(table, IdsOf(done), IdsOf(t));
    IdsOfConcat(done, t);
  }

  /** One round of the outer loop: the tail of group `g` is deletable from what
      the earlier rounds left, and deleting it gives the table of round `g + 1`. */
  lemma DeleteRound(table: seq<Section>, sections: seq<Section>, keys: seq<Key>, g: nat)
    requires UniqueIds(sections) && CreationOrdered(sections) && DistinctKeys(keys) && g < |keys|
    requires forall x :: x in sections ==> x in table
    ensures var done, t := Tails(keys[..g], sections), Tail(Group(sections, keys[g]));
      UniqueIds(t) &&
      (forall x :: x in t ==> x.id in IdsOf(WithoutIds(table, IdsOf(done)))) &&
      WithoutIds(WithoutIds(table, IdsOf(done)), IdsOf(t)) ==
        WithoutIds(table, IdsOf(Tails(keys[..g + 1], sections))) &&
      |Tails(keys[..g + 1], sections)| == |done| + |t|
  {
    NextDeletions(keys, g, sections);
    GroupStep(table, Tails(keys[..g], sections), Tail(Group(sections, keys[g])));
  }

  /** The body of the outer loop: a group of more than one section loses all
      but its first; the count of deletions is returned. */
  method DeleteGroup(store: Store, group: seq<Section>) returns (n: nat)
    requires store.Valid() && UniqueIds(Tail(group))
    requires forall x :: x in Tail(group) ==> x.id in IdsOf(store.sections)
    modifies store
    ensures store.Valid() && store.pages == old(store.pages)
    ensures store.sections == WithoutIds(old(store.sections), IdsOf(Tail(group)))
    ensures n == |Tail(group)|
  {
    if |group| > 1 {
      DeleteEach(store, group[1..]);
      n := |group| - 1;
    } else {
      assert IdsOf([]) == {};
      WithoutNothing(store.sections);
      n := 0;
    }
  }

  /** The outer loop over the groups, in key order. */
  method DeleteGroups(store: Store, sections: seq<Section>, groups: map<Key, seq<Section>>, keys: seq<Key>)
      returns (deletedCount: nat)
    requires store.Valid() && UniqueIds(sections) && CreationOrdered(sections) && DistinctKeys(keys)
    requires forall x :: x in sections ==> x in store.sections
    requires forall k :: k in groups <==> k in keys
    requires forall k :: k in groups ==> groups[k] == Group(sections, k)
    modifies store
    ensures store.Valid() && store.pages == old(store.pages)
    ensures store.sections == WithoutIds(old(store.sections), IdsOf(Tails(keys, sections)))
    ensures deletedCount == |Tails(keys, sections)|
  {
    deletedCount := 0;
    ghost var table := store.sections;
    WithoutNothing(table);
    assert IdsOf(Tails(keys[..0], sections)) == {};
    var g := 0;
    while g < |keys|
      invariant 0 <= g <= |keys|
      invariant store.Valid() && store.pages == old(store.pages)
      invariant store.sections == WithoutIds(table, IdsOf(Tails(keys[..g], sections)))
      invariant deletedCount == |Tails(keys[..g], sections)|
    {
      var group := groups[keys[g]];
      DeleteRound(table, sections, keys, g);
      var n := DeleteGroup(store, group);
      deletedCount := deletedCount + n;
      g := g + 1;
    }
    assert keys[..g] == keys;
  }

  /** The whole script: find the home page with its sections in creation order,
      group them, delete all but the first of every group. */
  method RemoveAllDuplicates(store: Store) returns (deletedCount: nat)
    requires store.Valid()
    modifies store
    ensures store.Valid() && store.pages == old(store.pages)
    ensures HomePage.FindBySlug(old(store.pages), "home").None? ==>
      store.sections == old(store.sections) && deletedCount == 0
    ensures HomePage.FindBySlug(old(store.pages), "home").Some? ==>
      var home := SectionsOfPage(old(store.sections), HomePage.FindBySlug(old(store.pages), "home").value.id);
      store.sections == WithoutIds(old(store.sections), IdsOf(Duplicates(home))) &&
      deletedCount == |Duplicates(home)|
  {
    var homePage := HomePage.FindBySlug(store.pages, "home");
    if homePage.None? {
      return 0;
    }
    var sections := SectionsOfPage(store.sections, homePage.value.id);
    PageSectionsKeepValid(store.sections, homePage.value.id);
    SectionsOfPageMembership(store.sections, homePage.value.id);
    var groups, keys := GroupByKey(sections);
    KeysMembership(sections);
    deletedCount := DeleteGroups(store, sections, groups, keys);
  }
}
