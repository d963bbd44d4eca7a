/** `sitemap.xml`: the fixed routes plus one entry per published page, published
    post and active product. */
module Sitemap {
  import opened Json
  import opened Sequences

  const DefaultBase := "http://localhost:3000"

  datatype PageRow = PageRow(slug: string, published: bool, updatedAt: int)
  datatype PostRow = PostRow(slug: string, status: string, publishedAt: Option<int>, updatedAt: int)
  datatype ProductRow = ProductRow(slug: string, active: bool, updatedAt: int)

  /** One sitemap entry; `priority` is in tenths (priority 0.8 is 8). */
  datatype Entry = Entry(url: string, lastModified: int, changeFrequency: string, priority: int)

  /** `process.env.NEXTAUTH_URL || 'http://localhost:3000'`. */
  function BaseUrl(env: Option<string>): string
  {
    if env.Some? && env.value != "" then env.value else DefaultBase
  }

  /** The three queries' filters; a post without `publishedAt` fails `lte`. */
  predicate Published(p: PageRow)
  {
    p.published
  }

  function PublishedBy(now: int): PostRow -> bool
  {
    (p: PostRow) => p.status == "PUBLISHED" && p.publishedAt.Some? && p.publishedAt.value <= now
  }

  predicate Active(p: ProductRow)
  {
    p.active
  }

  /** `rows.map(...)` of one table: the URL is `prefix` and the row's slug, and the
      row's `updatedAt` is the last modification. */
  function Entries<T>(prefix: string, rows: seq<T>, slug: T -> string, updatedAt: T -> int,
                      changeFrequency: string, priority: int): (r: seq<Entry>)
    ensures |r| == |rows|
    ensures forall i :: 0 <= i < |rows| ==>
      r[i] == Entry(prefix + slug(rows[i]), updatedAt(rows[i]), changeFrequency, priority)
  {
    seq(|rows|, i requires 0 <= i < |rows| => Entry(prefix + slug(rows[i]), updatedAt(rows[i]), changeFrequency, priority))
  }

  function PageEntries(base: string, pages: seq<PageRow>): (r: seq<Entry>)
    ensures |r| == |pages|
    ensures forall i :: 0 <= i < |pages| ==> r[i].url == base + "/" + pages[i].slug && r[i].lastModified == pages[i].updatedAt
  {
    Entries(base + "/", pages, (p: PageRow) => p.slug, (p: PageRow) => p.updatedAt, "weekly", 8)
  }

  function PostEntries(base: string, posts: seq<PostRow>): (r: seq<Entry>)
    ensures |r| == |posts|
    ensures forall i :: 0 <= i < |posts| ==> r[i].url == base + "/noticias/" + posts[i].slug && r[i].lastModified == posts[i].updatedAt
  {
    Entries(base + "/noticias/", posts, (p: PostRow) => p.slug, (p: PostRow) => p.updatedAt, "monthly", 6)
  }

  function ProductEntries(base: string, products: seq<ProductRow>): (r: seq<Entry>)
    ensures |r| == |products|
    ensures forall i :: 0 <= i < |products| ==>
      r[i].url == base + "/importadora/minorista/productos/" + products[i].slug && r[i].lastModified == products[i].updatedAt
  {
    Entries(base + "/importadora/minorista/productos/", products,
            (p: ProductRow) => p.slug, (p: ProductRow) => p.updatedAt, "weekly", 6)
  }

  /** `routes`, from the three tables in store order and the current time. */
  function Routes(env: Option<string>, now: int, pages: seq<PageRow>, posts: seq<PostRow>,
                  products: seq<ProductRow>): seq<Entry>
  {
    var base := BaseUrl(env);
    [Entry(base, now, "daily", 10)] +
    PageEntries(base, Filter(pages, Published)) +
    [Entry(base + "/noticias", now, "daily", 7)] +
    PostEntries(base, Filter(posts, PublishedBy(now))) +
    [Entry(base + "/importadora", now, "weekly", 8), Entry(base + "/importadora/minorista", now, "daily", 7)] +
    ProductEntries(base, Filter(products, Active))
  }

  // ---------------------------------------------------------------- properties

  /** The sitemap's first entry is the site root: the configured URL when one is
      set, and `http://localhost:3000` when it is missing or empty. */
  lemma DefaultBaseUrl(env: Option<string>, now: int, pages: seq<PageRow>, posts: seq<PostRow>, products: seq<ProductRow>)
    ensures var r := Routes(env, now, pages, posts, products);
      |r| >= 4 &&
      (env.None? || env == Some("") ==> r[0].url == "http://localhost:3000") &&
      (env.Some? && env.value != "" ==> r[0].url == env.value)
  {
    Layout(env, now, pages, posts, products);
  }

  /** The fixed entries: the home entry first with priority 1, the news index
      after the pages, the two shop entries after the posts, and the length. */
  lemma Layout(env: Option<string>, now: int, pages: seq<PageRow>, posts: seq<PostRow>, products: seq<ProductRow>)
    ensures var r := Routes(env, now, pages, posts, products);
      var base := BaseUrl(env);
      var pg := Filter(pages, Published);
      var ps := Filter(posts, PublishedBy(now));
      var pr := Filter(products, Active);
      |r| == 4 + |pg| + |ps| + |pr| &&
      r[0] == Entry(base, now, "daily", 10) &&
      r[1 + |pg|] == Entry(base + "/noticias", now, "daily", 7) &&
      r[2 + |pg| + |ps|] == Entry(base + "/importadora", now, "weekly", 8) &&
      r[3 + |pg| + |ps|] == Entry(base + "/importadora/minorista", now, "daily", 7)
  {
    var base := BaseUrl(env);
    var pe := PageEntries(base, Filter(pages, Published));
    var qe := PostEntries(base, Filter(posts, PublishedBy(now)));
    var de := ProductEntries(base, Filter(products, Active));
    var x1 := [Entry(base, now, "daily", 10)] + pe;
    var x2 := x1 + [Entry(base + "/noticias", now, "daily", 7)];
    var x3 := x2 + qe;
    var x4 := x3 + [Entry(base + "/importadora", now, "weekly", 8), Entry(base + "/importadora/minorista", now, "daily", 7)];
    assert Routes(env, now, pages, posts, products) == x4 + de;
    assert x4[0] == x3[0] == x2[0] == x1[0];
    assert x4[|x1|] == x3[|x1|] == x2[|x1|];
    assert x4[|x3|] == Entry(base + "/importadora", now, "weekly", 8);
  }

  /** Between the fixed entries: one entry per published page at `/slug`, one per
      published post under `/noticias/` and one per active product under the shop,
      each in table order. */
  lemma LayoutRows(env: Option<string>, now: int, pages: seq<PageRow>, posts: seq<PostRow>, products: seq<ProductRow>)
    ensures var r := Routes(env, now, pages, posts, products);
      var base := BaseUrl(env);
      var pg := Filter(pages, Published);
      var ps := Filter(posts, PublishedBy(now));
      var pr := Filter(products, Active);
      |r| == 4 + |pg| + |ps| + |pr| &&
      (forall i :: 0 <= i < |pg| ==> r[1 + i].url == base + "/" + pg[i].slug) &&
      (forall i :: 0 <= i < |ps| ==> r[2 + |pg| + i].url == base + "/noticias/" + ps[i].slug) &&
      (forall i :: 0 <= i < |pr| ==> r[4 + |pg| + |ps| + i].url == base + "/importadora/minorista/productos/" + pr[i].slug)
  {
    PageRows(env, now, pages, posts, products);
    PostRows(env, now, pages, posts, products);
    ProductRows(env, now, pages, posts, products);
  }

  /** `Routes` cut at its six parts, with the length of each. */
  lemma RoutesParts(env: Option<string>, now: int, pages: seq<PageRow>, posts: seq<PostRow>, products: seq<ProductRow>)
    ensures var base := BaseUrl(env);
      var pe := PageEntries(base, Filter(pages, Published));
      var qe := PostEntries(base, Filter(posts, PublishedBy(now)));
      var x1 := [Entry(base, now, "daily", 10)] + pe;
      var x3 := x1 + [Entry(base + "/noticias", now, "daily", 7)] + qe;
      var x4 := x3 + [Entry(base + "/importadora", now, "weekly", 8), Entry(base + "/importadora/minorista", now, "daily", 7)];
      Routes(env, now, pages, posts, products) == x4 + ProductEntries(base, Filter(products, Active)) &&
      |x1| == 1 + |pe| && |x3| == 2 + |pe| + |qe| && |x4| == 4 + |pe| + |qe|
  {
  }

  lemma PageRows(env: Option<string>, now: int, pages: seq<PageRow>, posts: seq<PostRow>, products: seq<ProductRow>)
    ensures var r := Routes(env, now, pages, posts, products);
      var pg := Filter(pages, Published);
      |r| >= 1 + |pg| && forall i :: 0 <= i < |pg| ==> r[1 + i].url == BaseUrl(env) + "/" + pg[i].slug
  {
    var base := BaseUrl(env);
    var pg := Filter(pages, Published);
    var pe := PageEntries(base, pg);
    var qe := PostEntries(base, Filter(posts, PublishedBy(now)));
    var head := [Entry(base, now, "daily", 10)];
    var x1 := head + pe;
    var x2 := x1 + [Entry(base + "/noticias", now, "daily", 7)];
    var x3 := x2 + qe;
    var x4 := x3 + [Entry(base + "/importadora", now, "weekly", 8), Entry(base + "/importadora/minorista", now, "daily", 7)];
    var r := x4 + ProductEntries(base, Filter(products, Active));
    RoutesParts(env, now, pages, posts, products);
    forall i | 0 <= i < |pg| ensures r[1 + i].url == base + "/" + pg[i].slug {
      assert |head| == 1 && x1[|head| + i] == pe[i];
      assert r[1 + i] == x4[1 + i] == x3[1 + i] == x2[1 + i] == x1[1 + i];
    }
  }

  lemma PostRows(env: Option<string>, now: int, pages: seq<PageRow>, posts: seq<PostRow>, products: seq<ProductRow>)
    ensures var r := Routes(env, now, pages, posts, products);
      var pg := Filter(pages, Published);
      var ps := Filter(posts, PublishedBy(now));
      |r| >= 2 + |pg| + |ps| && forall i :: 0 <= i < |ps| ==> r[2 + |pg| + i].url == BaseUrl(env) + "/noticias/" + ps[i].slug
  {
    var base := BaseUrl(env);
    var pg := Filter(pages, Published);
    var ps := Filter(posts, PublishedBy(now));
    var pe := PageEntries(base, pg);
    var qe := PostEntries(base, ps);
    var x1 := [Entry(base, now, "daily", 10)] + pe;
    var x2 := x1 + [Entry(base + "/noticias", now, "daily", 7)];
    var x3 := x2 + qe;
    var x4 := x3 + [Entry(base + "/importadora", now, "weekly", 8), Entry(base + "/importadora/minorista", now, "daily", 7)];
    var r := x4 + ProductEntries(base, Filter(products, Active));
    RoutesParts(env, now, pages, posts, products);
    forall i | 0 <= i < |ps| ensures r[2 + |pg| + i].url == base + "/noticias/" + ps[i].slug {
      assert r[2 + |pg| + i] == x4[2 + |pg| + i] == x3[|x2| + i] == qe[i];
    }
  }

  lemma ProductRows(env: Option<string>, now: int, pages: seq<PageRow>, posts: seq<PostRow>, products: seq<ProductRow>)
    ensures var r := Routes(env, now, pages, posts, products);
      var pg := Filter(pages, Published);
      var ps := Filter(posts, PublishedBy(now));
      var pr := Filter(products, Active);
      |r| == 4 + |pg| + |ps| + |pr| &&
      forall i :: 0 <= i < |pr| ==> r[4 + |pg| + |ps| + i].url == BaseUrl(env) + "/importadora/minorista/productos/" + pr[i].slug
  {
    var base := BaseUrl(env);
    var pg := Filter(pages, Published);
    var ps := Filter(posts, PublishedBy(now));
    var pr := Filter(products, Active);
    var pe := PageEntries(base, pg);
    var qe := PostEntries(base, ps);
    var x3 := [Entry(base, now, "daily", 10)] + pe + [Entry(base + "/noticias", now, "daily", 7)] + qe;
    var x4 := x3 + [Entry(base + "/importadora", now, "weekly", 8), Entry(base + "/importadora/minorista", now, "daily", 7)];
    var de := ProductEntries(base, pr);
    var r := x4 + de;
    RoutesParts(env, now, pages, posts, products);
    forall i | 0 <= i < |pr| ensures r[4 + |pg| + |ps| + i].url == base + "/importadora/minorista/productos/" + pr[i].slug {
      var k := 4 + |pg| + |ps| + i;
      assert k == |x4| + i && r[k] == de[i];
    }
  }

  /** Exactly the published pages, the posts published by now and the active
      products are listed, each from its own row. */
  lemma Listed(now: int, pages: seq<PageRow>, posts: seq<PostRow>, products: seq<ProductRow>)
    ensures forall p :: p in Filter(pages, Published) <==> p in pages && p.published
    ensures forall p :: p in Filter(posts, PublishedBy(now)) <==>
      p in posts && p.status == "PUBLISHED" && p.publishedAt.Some? && p.publishedAt.value <= now
    ensures forall p :: p in Filter(products, Active) <==> p in products && p.active
  {
    forall p { FilterMembership(pages, Published, p); }
    forall p { FilterMembership(posts, PublishedBy(now), p); }
    forall p { FilterMembership(products, Active, p); }
  }
}
