/** The admin inbox: contact queries, orders and wholesale leads in one table,
    with a tab per collection. */
module Inbox {
  import opened Json
  import Sequences

  /** A table row: the fetched record's fields with the tag fields added by the spread. */
  type Item = map<string, Json>

  datatype Tab = All | Queries | Orders | Leads

  /** `Array.isArray(data) ? data : []`. */
  function Safe(data: Json): (r: seq<Json>)
    ensures data.JArr? ==> r == data.elems
    ensures !data.JArr? ==> r == []
  {
    if data.JArr? then data.elems else []
  }

  /** `{ ...record }` of a fetched JSON object. */
  function Spread(record: Json): map<string, Json>
  {
    if record.JObj? then record.fields else map[]
  }

  function AsQuery(q: Json): Item
  {
    Spread(q)["type" := JStr("query")]["typeLabel" := JStr("Consulta")]
  }

  /** An order row also takes `name: o.customerName`; an absent customer name
      leaves `name` undefined. */
  function AsOrder(o: Json): Item
  {
    var tagged := Spread(o)["type" := JStr("order")]["typeLabel" := JStr("Pedido")];
    var customer := Get(Spread(o), "customerName");
    if customer.Some? then tagged["name" := customer.value] else tagged - {"name"}
  }

  function AsLead(l: Json): Item
  {
    Spread(l)["type" := JStr("lead")]["typeLabel" := JStr("Lead Mayorista")]
  }

  function QueryRows(qs: seq<Json>): (r: seq<Item>)
    ensures |r| == |qs| && forall i :: 0 <= i < |qs| ==> r[i] == AsQuery(qs[i])
  {
    seq(|qs|, i requires 0 <= i < |qs| => AsQuery(qs[i]))
  }

  function OrderRows(os: seq<Json>): (r: seq<Item>)
    ensures |r| == |os| && forall i :: 0 <= i < |os| ==> r[i] == AsOrder(os[i])
  {
    seq(|os|, i requires 0 <= i < |os| => AsOrder(os[i]))
  }

  function LeadRows(ls: seq<Json>): (r: seq<Item>)
    ensures |r| == |ls| && forall i :: 0 <= i < |ls| ==> r[i] == AsLead(ls[i])
  {
    seq(|ls|, i requires 0 <= i < |ls| => AsLead(ls[i]))
  }

  /** The comparator `b.createdAt - a.createdAt`: `a` may stay ahead of `b` when it
      is not older. `time` stands for `new Date(x).getTime()`. */
  function Newer(time: Option<Json> -> int): (Item, Item) -> bool
  {
    (a: Item, b: Item) => time(Get(a, "createdAt")) >= time(Get(b, "createdAt"))
  }

  /** The three collections tagged and concatenated, before the sort. */
  function Merged(queries: Json, orders: Json, leads: Json): seq<Item>
  {
    QueryRows(Safe(queries)) + OrderRows(Safe(orders)) + LeadRows(Safe(leads))
  }

  /** What `getAllItems` returns. */
  function AllItems(queries: Json, orders: Json, leads: Json, time: Option<Json> -> int): seq<Item>
  {
    Sequences.SortBy(Merged(queries, orders, leads), Newer(time))
  }

  /** `getFilteredItems` for the active tab. */
  function FilteredItems(tab: Tab, queries: Json, orders: Json, leads: Json, time: Option<Json> -> int): seq<Item>
  {
    match tab
    case Queries => QueryRows(Safe(queries))
    case Orders => OrderRows(Safe(orders))
    case Leads => LeadRows(Safe(leads))
    case All => AllItems(queries, orders, leads, time)
  }

  /** The count shown on a tab's button. */
  function Count(tab: Tab, queries: Json, orders: Json, leads: Json): nat
  {
    match tab
    case Queries => |Safe(queries)|
    case Orders => |Safe(orders)|
    case Leads => |Safe(leads)|
    case All => |Safe(queries)| + |Safe(orders)| + |Safe(leads)|
  }

  // ---------------------------------------------------------------- status colour

  const Blue := "bg-blue-100 text-blue-800"
  const Yellow := "bg-yellow-100 text-yellow-800"
  const Green := "bg-green-100 text-green-800"
  const Red := "bg-red-100 text-red-800"
  const Gray := "bg-gray-100 text-gray-800"

  /** `getStatusColor`: a total map from status to badge classes. */
  function StatusColor(status: Option<Json>): (r: string)
    ensures r in {Blue, Yellow, Green, Red, Gray}
  {
    if status.Some? && status.value.JStr? then
      match status.value.s
      case "NEW" => Blue
      case "CONTACTED" => Yellow
      case "IN_PROGRESS" => Yellow
      case "RESOLVED" => Green
      case "DONE" => Green
      case "APPROVED" => Green
      case "ARCHIVED" => Red
      case "CANCELLED" => Red
      case "REJECTED" => Red
      case _ => Gray
    else Gray
  }

  /** Every status falls in exactly one colour group, and anything unlisted is gray. */
  lemma StatusGroups(status: Option<Json>)
    ensures StatusColor(status) == Blue <==> status == Some(JStr("NEW"))
    ensures StatusColor(status) == Yellow <==> status in {Some(JStr("CONTACTED")), Some(JStr("IN_PROGRESS"))}
    ensures StatusColor(status) == Green <==>
      status in {Some(JStr("RESOLVED")), Some(JStr("DONE")), Some(JStr("APPROVED"))}
    ensures StatusColor(status) == Red <==>
      status in {Some(JStr("ARCHIVED")), Some(JStr("CANCELLED")), Some(JStr("REJECTED"))}
  {
  }

  // ---------------------------------------------------------------- getAllItems

  /** `getAllItems`: three `forEach` loops push the tagged records, then the
      array is sorted newest first. */
  method GetAllItems(queries: Json, orders: Json, leads: Json, time: Option<Json> -> int) returns (all: seq<Item>)
    ensures all == AllItems(queries, orders, leads, time)
  {
    all := [];
    var safeQueries := Safe(queries);
    var safeOrders := Safe(orders);
    var safeLeads := Safe(leads);
    var i := 0;
    while i < |safeQueries|
      invariant 0 <= i <= |safeQueries|
      invariant all == QueryRows(safeQueries[..i])
    {
      all := all + [AsQuery(safeQueries[i])];
      i := i + 1;
    }
    assert safeQueries[..i] == safeQueries;
    ghost var head := all;
    i := 0;
    while i < |safeOrders|
      invariant 0 <= i <= |safeOrders|
      invariant all == head + OrderRows(safeOrders[..i])
    {
      all := all + [AsOrder(safeOrders[i])];
      i := i + 1;
    }
    assert safeOrders[..i] == safeOrders;
    head := all;
    i := 0;
    while i < |safeLeads|
      invariant 0 <= i <= |safeLeads|
      invariant all == head + LeadRows(safeLeads[..i])
    {
      all := all + [AsLead(safeLeads[i])];
      i := i + 1;
    }
    assert safeLeads[..i] == safeLeads;
    all := Sequences.SortBy(all, Newer(time));
  }

  /** The merged list holds every record of the three collections once, tagged,
      and is ordered newest first; records with the same timestamp keep the
      queries-orders-leads order. */
  lemma AllItemsShape(queries: Json, orders: Json, leads: Json, time: Option<Json> -> int, t: int)
    ensures var all := AllItems(queries, orders, leads, time);
      |all| == |Safe(queries)| + |Safe(orders)| + |Safe(leads)| &&
      multiset(all) == multiset(Merged(queries, orders, leads)) &&
      (forall i, j :: 0 <= i < j < |all| ==>
        time(Get(all[i], "createdAt")) >= time(Get(all[j], "createdAt"))) &&
      Sequences.Filter(all, (x: Item) => time(Get(x, "createdAt")) == t) ==
        Sequences.Filter(Merged(queries, orders, leads), (x: Item) => time(Get(x, "createdAt")) == t)
  {
    var lte := Newer(time);
    var all := AllItems(queries, orders, leads, time);
    Sequences.SortBySorted(Merged(queries, orders, leads), lte);
    Sequences.SortByPermutes(Merged(queries, orders, leads), lte);
    Sequences.SortByStable(Merged(queries, orders, leads), lte, (x: Item) => time(Get(x, "createdAt")) == t);
    forall i, j | 0 <= i < j < |all|
      ensures time(Get(all[i], "createdAt")) >= time(Get(all[j], "createdAt"))
    {
      assert lte(all[i], all[j]);
    }
  }

  predicate Tagged(x: Item)
  {
    Get(x, "type") == Some(JStr("query")) || Get(x, "type") == Some(JStr("order")) ||
    Get(x, "type") == Some(JStr("lead"))
  }

  lemma MergedTagged(queries: Json, orders: Json, leads: Json)
    ensures forall k :: 0 <= k < |Merged(queries, orders, leads)| ==> Tagged(Merged(queries, orders, leads)[k])
  {
    var a := QueryRows(Safe(queries));
    var b := OrderRows(Safe(orders));
    var c := LeadRows(Safe(leads));
    forall k | 0 <= k < |a + b + c| ensures Tagged((a + b + c)[k]) {
      if k < |a| {
        assert (a + b + c)[k] == a[k];
      } else if k < |a| + |b| {
        assert (a + b + c)[k] == b[k - |a|];
      } else {
        assert (a + b + c)[k] == c[k - |a| - |b|];
      }
    }
  }

  /** Every row is tagged with its collection. */
  lemma RowsTagged(queries: Json, orders: Json, leads: Json, time: Option<Json> -> int)
    ensures forall x :: x in AllItems(queries, orders, leads, time) ==> Tagged(x)
  {
    var merged := Merged(queries, orders, leads);
    MergedTagged(queries, orders, leads);
    Sequences.SortByPermutes(merged, Newer(time));
    forall x | x in AllItems(queries, orders, leads, time) ensures Tagged(x) {
      assert x in multiset(merged);
      var k :| 0 <= k < |merged| && merged[k] == x;
    }
  }

  /** Order rows are named after the customer. */
  lemma OrderRowsNamed(o: Json)
    ensures Get(AsOrder(o), "name") == Get(Spread(o), "customerName")
    ensures Get(AsOrder(o), "type") == Some(JStr("order"))
  {
  }

  /** A tab shows as many rows as its button counts; a single-collection tab shows
      that collection alone, in fetch order. */
  lemma TabsAgreeWithCounts(tab: Tab, queries: Json, orders: Json, leads: Json, time: Option<Json> -> int)
    ensures |FilteredItems(tab, queries, orders, leads, time)| == Count(tab, queries, orders, leads)
    ensures Count(All, queries, orders, leads) ==
      Count(Queries, queries, orders, leads) + Count(Orders, queries, orders, leads) + Count(Leads, queries, orders, leads)
    ensures tab == Orders ==> forall i :: 0 <= i < |Safe(orders)| ==>
      FilteredItems(tab, queries, orders, leads, time)[i] == AsOrder(Safe(orders)[i])
  {
  }

  // ---------------------------------------------------------------- company column

  /** What the company column shows. `toText` renders a value as JSX text;
      `total?.toLocaleString()` of a missing total renders as "undefined". */
  function TotalText(item: Item, toLocale: Json -> string): string
  {
    var total := Get(item, "total");
    if total.None? || total.value.JNull? then "undefined" else toLocale(total.value)
  }

  function Text(v: Json, toText: Json -> string): string
  {
    if v.JStr? then v.s else toText(v)
  }

  /** The cell as written: the conditional operator binds loosest, so the whole
      `company || companyName || type === 'order'` chain is its condition. */
  function CompanyCellAsWritten(item: Item, toLocale: Json -> string): string
  {
    if Present(Get(item, "company")) || Present(Get(item, "companyName")) || Get(item, "type") == Some(JStr("order"))
    then "$" + TotalText(item, toLocale)
    else "-"
  }

  /** The cell as evidently intended: the company, else the company name, else an
      order's total, else a dash. */
  function CompanyCell(item: Item, toLocale: Json -> string, toText: Json -> string): string
  {
    if Present(Get(item, "company")) then Text(Get(item, "company").value, toText)
    else if Present(Get(item, "companyName")) then Text(Get(item, "companyName").value, toText)
    else if Get(item, "type") == Some(JStr("order")) then "$" + TotalText(item, toLocale)
    else "-"
  }

  /** As written, a lead's company name is never shown: the row shows a dollar sign
      and the lead's missing total instead. */
  lemma CompanyCellAsWrittenHidesCompany(toLocale: Json -> string)
    ensures var lead := AsLead(JObj(map["companyName" := JStr("Acme")]));
      CompanyCellAsWritten(lead, toLocale) == "$undefined"
  {
  }

  /** The corrected cell shows a company whenever the record has one, and an order's
      total only for orders. */
  lemma CompanyCellShowsCompany(item: Item, toLocale: Json -> string, toText: Json -> string)
    ensures Get(item, "company") == Some(JStr("Acme")) ==> CompanyCell(item, toLocale, toText) == "Acme"
    ensures !Present(Get(item, "company")) && Present(Get(item, "companyName")) ==>
      CompanyCell(item, toLocale, toText) == Text(Get(item, "companyName").value, toText)
    ensures !Present(Get(item, "company")) && !Present(Get(item, "companyName")) ==>
      (CompanyCell(item, toLocale, toText) == "-" <==> Get(item, "type") != Some(JStr("order")))
  {
    assert ("$" + TotalText(item, toLocale))[0] == '$';
  }

  lemma CompanyCellRepairsLead(toLocale: Json -> string, toText: Json -> string)
    ensures var lead := AsLead(JObj(map["companyName" := JStr("Acme")]));
      CompanyCell(lead, toLocale, toText) == "Acme"
  {
    var lead := AsLead(JObj(map["companyName" := JStr("Acme")]));
    assert Get(lead, "company") == None;
  }
}
