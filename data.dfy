/**
 * The invoice read logic of app/lib/data.ts. The store's tables are sequences
 * of rows; every query is the chain of query-builder steps the source builds,
 * and the client-side work (the customer enrichment, the page arithmetic and
 * the paid/pending totals) follows the source.
 */
module Data {
  import opened Wrappers
  import opened QueryBuilder

  const ITEMS_PER_PAGE: nat := 6
  const LATEST_COUNT: nat := 5
  const PAID := "paid"
  const PENDING := "pending"

  /** A row of the invoices table; `amount` is in cents, `date` an ISO-8601 day. */
  datatype Invoice = Invoice(id: string, customerId: string, amount: real, date: string, status: string)

  /** A row of the customers table. */
  datatype Customer = Customer(id: string, name: string, email: string, imageUrl: string)

  /** The tables, and whether the store answers every query with an error. */
  datatype Store = Store(invoices: seq<Invoice>, customers: seq<Customer>, failing: bool)

  /** A row of `fetchFilteredInvoices`. */
  datatype FilteredInvoice = FilteredInvoice(
    id: string, status: string, date: string, name: string, imageUrl: string, email: string, amount: real)

  /** A row of `fetchLatestInvoices`: `id` carries the customer's id. */
  datatype LatestInvoice = LatestInvoice(id: string, name: string, imageUrl: string, email: string, amount: real)

  /** What `fetchInvoiceById` selects. */
  datatype InvoiceForm = InvoiceForm(id: string, customerId: string, amount: real, status: string)

  /** What `fetchCustomers` selects. */
  datatype CustomerField = CustomerField(id: string, name: string)

  /** The summary `fetchCardData` returns (the totals before currency formatting). */
  datatype CardData = CardData(
    numberOfCustomers: nat, numberOfInvoices: nat, totalPaidInvoices: real, totalPendingInvoices: real)

  // ---------------------------------------------------------------------------
  // `.ilike("status", `%${query}%`)`

  function LowerChar(c: char): char {
    if 'A' <= c <= 'Z' then (c as int + 32) as char else c
  }

  function Lower(s: string): (r: string)
    ensures |r| == |s| && forall i :: 0 <= i < |s| ==> r[i] == LowerChar(s[i])
  {
    if |s| == 0 then [] else [LowerChar(s[0])] + Lower(s[1..])
  }

  /** `q` occurs in `s` at some position: it is a prefix of `s` or of a suffix of it. */
  predicate Contains(s: string, q: string): (b: bool)
    ensures b ==> |q| <= |s|
    ensures q == [] ==> b
  {
    q <= s || (|s| > 0 && Contains(s[1..], q))
  }

  /** The pattern `%query%` under ILIKE: `query` occurs in `text`, ignoring letter case. */
  predicate ILikeContains(text: string, query: string): (b: bool)
    ensures b ==> |query| <= |text|
    ensures query == "" ==> b
  {
    Contains(Lower(text), Lower(query))
  }

  function MatchesQuery(query: string): Invoice -> bool {
    (inv: Invoice) => ILikeContains(inv.status, query)
  }

  function FilteredInvoices(rows: seq<Invoice>, query: string): seq<Invoice> {
    Filter(rows, MatchesQuery(query))
  }

  /** `.order("date", { ascending: false })`. */
  function NewestFirst(rows: seq<Invoice>): (r: seq<Invoice>)
    ensures multiset(r) == multiset(rows)
    ensures forall i, j :: 0 <= i < j < |r| ==> LexLeq(r[j].date, r[i].date)
  {
    SortBy(rows, (inv: Invoice) => inv.date, true)
  }

  // ---------------------------------------------------------------------------
  // Pages

  /** The first row of page `currentPage`: six rows per page, the first page at 0. */
  function PageOffset(currentPage: int): (offset: int)
    ensures offset >= 0 <==> currentPage >= 1
    ensures offset % ITEMS_PER_PAGE == 0
  {
    (currentPage - 1) * ITEMS_PER_PAGE
  }

  /**
   * The rows of page `currentPage`: `.range(offset, offset + 5)` over the
   * matching invoices, newest first. A page below 1 gives a negative offset,
   * which the store rejects (None).
   */
  function PageOfInvoices(rows: seq<Invoice>, query: string, currentPage: int): (r: Option<seq<Invoice>>)
    ensures r.Some? <==> currentPage >= 1
    ensures r.Some? ==> |r.value| <= ITEMS_PER_PAGE
    ensures r.Some? ==> forall k :: 0 <= k < |r.value| ==> r.value[k] in rows && ILikeContains(r.value[k].status, query)
  {
    var offset := PageOffset(currentPage);
    if offset < 0 then None
    else
      var matching := FilteredInvoices(rows, query);
      var page := Range(NewestFirst(matching), offset, offset + ITEMS_PER_PAGE - 1);
      assert forall k :: 0 <= k < |page| ==> page[k] in multiset(NewestFirst(matching)) && page[k] in matching;
      Some(page)
  }

  /** `Math.ceil((count || 0) / ITEMS_PER_PAGE)`. */
  function PageCount(count: Option<nat>): (pages: nat)
    ensures pages * ITEMS_PER_PAGE >= count.GetOr(0)
    ensures pages > 0 ==> (pages - 1) * ITEMS_PER_PAGE < count.GetOr(0)
  {
    (count.GetOr(0) + ITEMS_PER_PAGE - 1) / ITEMS_PER_PAGE
  }

  // ---------------------------------------------------------------------------
  // Customer enrichment

  /** `.from("customers").eq("id", customerId).single()`. */
  function CustomerOf(customers: seq<Customer>, customerId: string): Option<Customer> {
    Single(customers, (c: Customer) => c.id == customerId)
  }

  predicate AllCustomersFound(invoices: seq<Invoice>, customers: seq<Customer>) {
    forall i :: 0 <= i < |invoices| ==> CustomerOf(customers, invoices[i].customerId).Some?
  }

  /**
   * The `Promise.all` over the invoices: each is shaped with its customer; a
   * single missing customer fails the whole batch.
   */
  function Enrich<R>(invoices: seq<Invoice>, customers: seq<Customer>, shape: (Invoice, Customer) -> R)
    : (r: Option<seq<R>>)
    ensures r.Some? <==> AllCustomersFound(invoices, customers)
    ensures r.Some? ==> (|r.value| == |invoices|
      && forall i :: 0 <= i < |invoices| ==>
           r.value[i] == shape(invoices[i], CustomerOf(customers, invoices[i].customerId).value))
  {
    if |invoices| == 0 then Some([])
    else
      var rest := Enrich(invoices[1..], customers, shape);
      assert forall i :: 1 <= i < |invoices| ==> invoices[i] == invoices[1..][i - 1];
      match CustomerOf(customers, invoices[0].customerId)
      case None => None
      case Some(c) =>
        if rest.None? then None else Some([shape(invoices[0], c)] + rest.value)
  }

  function AsFilteredRow(inv: Invoice, c: Customer): FilteredInvoice {
    FilteredInvoice(inv.id, inv.status, inv.date, c.name, c.imageUrl, c.email, inv.amount)
  }

  function AsLatestRow(inv: Invoice, c: Customer): LatestInvoice {
    LatestInvoice(inv.customerId, c.name, c.imageUrl, c.email, inv.amount)
  }

  // ---------------------------------------------------------------------------
  // The fetch functions

  /** The invoices `fetchLatestInvoices` selects: the five newest. */
  function LatestSelection(rows: seq<Invoice>): seq<Invoice> {
    Limit(NewestFirst(rows), LATEST_COUNT)
  }

  function FetchLatestInvoices(store: Store): (r: Result<seq<LatestInvoice>, string>)
    ensures r.Err? ==> r.error == "Failed to fetch the latest invoices."
    ensures r.Ok? <==> !store.failing && AllCustomersFound(LatestSelection(store.invoices), store.customers)
    ensures r.Ok? ==>
      var sel := LatestSelection(store.invoices);
      && |r.value| == |sel| <= LATEST_COUNT
      && forall i :: 0 <= i < |sel| ==>
           var c := CustomerOf(store.customers, sel[i].customerId).value;
           && r.value[i].id == sel[i].customerId
           && r.value[i].amount == sel[i].amount
           && c.id == sel[i].customerId
           && r.value[i].name == c.name && r.value[i].email == c.email && r.value[i].imageUrl == c.imageUrl
  {
    if store.failing then Err("Failed to fetch the latest invoices.")
    else
      match Enrich(LatestSelection(store.invoices), store.customers, AsLatestRow)
      case None => Err("Failed to fetch the latest invoices.")
      case Some(rows) => Ok(rows)
  }

  function FetchFilteredInvoices(store: Store, query: string, currentPage: int)
    : (r: Result<seq<FilteredInvoice>, string>)
    ensures r.Err? ==> r.error == "Failed to fetch filtered invoices."
    ensures r.Ok? <==>
      && !store.failing
      && PageOfInvoices(store.invoices, query, currentPage).Some?
      && AllCustomersFound(PageOfInvoices(store.invoices, query, currentPage).value, store.customers)
    ensures r.Ok? ==>
      var page := PageOfInvoices(store.invoices, query, currentPage).value;
      && |r.value| == |page| <= ITEMS_PER_PAGE
      && forall i :: 0 <= i < |page| ==>
           r.value[i] == AsFilteredRow(page[i], CustomerOf(store.customers, page[i].customerId).value)
  {
    if store.failing then Err("Failed to fetch filtered invoices.")
    else
      match PageOfInvoices(store.invoices, query, currentPage)
      case None => Err("Failed to fetch filtered invoices.")
      case Some(page) =>
        match Enrich(page, store.customers, AsFilteredRow)
        case None => Err("Failed to fetch filtered invoices.")
        case Some(rows) => Ok(rows)
  }

  function FetchInvoicesPages(store: Store, query: string): (r: Result<nat, string>)
    ensures r.Err? <==> store.failing
    ensures r.Err? ==> r.error == "Failed to fetch total number of invoices."
    ensures r.Ok? ==> (r.value * ITEMS_PER_PAGE >= |FilteredInvoices(store.invoices, query)|
                   && (r.value > 0 ==> (r.value - 1) * ITEMS_PER_PAGE < |FilteredInvoices(store.invoices, query)|))
  {
    if store.failing then Err("Failed to fetch total number of invoices.")
    else Ok(PageCount(Some(|FilteredInvoices(store.invoices, query)|)))
  }

  function AsForm(inv: Invoice): InvoiceForm {
    InvoiceForm(inv.id, inv.customerId, inv.amount, inv.status)
  }

  /** `data?.[0] || null`: the first row with that id; an error leaves `data` null, so null too. */
  function FetchInvoiceById(store: Store, id: string): (r: Option<InvoiceForm>)
    ensures store.failing ==> r.None?
    ensures !store.failing ==> (r.Some? <==> exists i :: 0 <= i < |store.invoices| && store.invoices[i].id == id)
    ensures r.Some? ==> exists i :: 0 <= i < |store.invoices| && store.invoices[i].id == id
                         && r.value == AsForm(store.invoices[i])
                         && forall j :: 0 <= j < i ==> store.invoices[j].id != id
  {
    if store.failing then None
    else
      var found := First(store.invoices, (inv: Invoice) => inv.id == id);
      assert found.None? ==> forall i :: 0 <= i < |store.invoices| ==> store.invoices[i].id != id by {
        if found.None? {
          forall i | 0 <= i < |store.invoices| ensures store.invoices[i].id != id {
            assert store.invoices[i] in store.invoices;
          }
        }
      }
      match found
      case None => None
      case Some(inv) => Some(AsForm(inv))
  }

  function AsCustomerField(c: Customer): CustomerField {
    CustomerField(c.id, c.name)
  }

  function Project(cs: seq<Customer>): (r: seq<CustomerField>)
    ensures |r| == |cs| && forall i :: 0 <= i < |cs| ==> r[i] == AsCustomerField(cs[i])
  {
    if |cs| == 0 then [] else [AsCustomerField(cs[0])] + Project(cs[1..])
  }

  lemma {:induction false} ProjectConcat(a: seq<Customer>, b: seq<Customer>)
    ensures Project(a + b) == Project(a) + Project(b)
  {
    if |a| > 0 {
      assert (a + b)[1..] == a[1..] + b;
      ProjectConcat(a[1..], b);
    } else {
      assert a + b == b;
    }
  }

  /**
   * The head of `a` sits at some `k` in a permutation `b`, and the rest of `a`
   * is a permutation of `b` without that element.
   */
  lemma {:induction false} MatchHead<T>(a: seq<T>, b: seq<T>) returns (k: nat)
    requires |a| > 0 && multiset(a) == multiset(b)
    ensures k < |b| && b[k] == a[0] && multiset(a[1..]) == multiset(b[..k] + b[k + 1..])
  {
    assert a == [a[0]] + a[1..];
    assert a[0] in multiset(b);
    k :| 0 <= k < |b| && b[k] == a[0];
    var p, q := b[..k], b[k + 1..];
    assert b == p + [b[k]] + q;
    assert multiset(b) == multiset(p) + multiset{b[k]} + multiset(q);
    assert multiset(a[1..]) == multiset(a) - multiset{a[0]};
  }

  /** Projecting splits around the row at `k`. */
  lemma {:induction false} ProjectAround(b: seq<Customer>, k: nat)
    requires k < |b|
    ensures Project(b) == Project(b[..k]) + [AsCustomerField(b[k])] + Project(b[k + 1..])
  {
    var r := Project(b[..k]) + [AsCustomerField(b[k])] + Project(b[k + 1..]);
    forall i | 0 <= i < |b| ensures r[i] == Project(b)[i] {
      if i < k {
        assert r[i] == Project(b[..k])[i];
      } else if i > k {
        assert r[i] == Project(b[k + 1..])[i - k - 1];
      }
    }
  }

  /** Taking the row at `k` out of `b` takes its field out of `b`'s projection. */
  lemma {:induction false} ProjectWithout(b: seq<Customer>, k: nat)
    requires k < |b|
    ensures multiset(Project(b)) == multiset(Project(b[..k] + b[k + 1..])) + multiset{AsCustomerField(b[k])}
  {
    ProjectAround(b, k);
    ProjectConcat(b[..k], b[k + 1..]);
  }

  /** Projecting two permutations of the same rows gives two permutations of the same fields. */
  lemma {:induction false} ProjectPermutation(a: seq<Customer>, b: seq<Customer>)
    requires multiset(a) == multiset(b)
    ensures multiset(Project(a)) == multiset(Project(b))
    decreases |a|
  {
    if |a| > 0 {
      var k := MatchHead(a, b);
      var rest := b[..k] + b[k + 1..];
      ProjectPermutation(a[1..], rest);
      ProjectWithout(b, k);
      calc {
        multiset(Project(a));
        multiset([AsCustomerField(a[0])] + Project(a[1..]));
        multiset{AsCustomerField(a[0])} + multiset(Project(a[1..]));
        multiset{AsCustomerField(b[k])} + multiset(Project(rest));
        multiset(Project(b));
      }
    } else {
      assert |multiset(b)| == |b| == 0;
    }
  }

  /** `.order("name", { ascending: true })` over the customers. */
  function ByName(cs: seq<Customer>): seq<Customer> {
    SortBy(cs, (c: Customer) => c.name, false)
  }

  /** All customers' ids and names, by name ascending. */
  function FetchCustomers(store: Store): (r: Result<seq<CustomerField>, string>)
    ensures r.Err? <==> store.failing
    ensures r.Err? ==> r.error == "Failed to fetch all customers."
  {
    if store.failing then Err("Failed to fetch all customers.") else Ok(Project(ByName(store.customers)))
  }

  /**
   * `fetchCustomers` lists every customer once per row, projected to id and
   * name, with the names in ascending order: a permutation of the projected
   * table.
   */
  lemma {:induction false} FetchCustomersListsAll(store: Store)
    requires !store.failing
    ensures var r := FetchCustomers(store).value;
      && |r| == |store.customers|
      && (forall i, j :: 0 <= i < j < |r| ==> LexLeq(r[i].name, r[j].name))
      && (forall c :: c in store.customers ==> AsCustomerField(c) in r)
      && (forall i :: 0 <= i < |r| ==> exists c :: c in store.customers && r[i] == AsCustomerField(c))
      && multiset(r) == multiset(Project(store.customers))
  {
    var sorted := ByName(store.customers);
    var r := Project(sorted);
    assert r == FetchCustomers(store).value;
    ProjectPermutation(sorted, store.customers);
    ProjectPermutationMembers(sorted, store.customers);
  }

  /** Every row of `b` has its field in the projection of a permutation `a`, and nothing else is there. */
  lemma {:induction false} ProjectPermutationMembers(a: seq<Customer>, b: seq<Customer>)
    requires multiset(a) == multiset(b)
    ensures forall c :: c in b ==> AsCustomerField(c) in Project(a)
    ensures forall i :: 0 <= i < |a| ==> exists c :: c in b && Project(a)[i] == AsCustomerField(c)
  {
    var r := Project(a);
    forall c | c in b ensures AsCustomerField(c) in r {
      assert c in multiset(a);
      var i :| 0 <= i < |a| && a[i] == c;
      assert r[i] == AsCustomerField(c);
    }
    forall i | 0 <= i < |a| ensures exists c :: c in b && r[i] == AsCustomerField(c) {
      assert a[i] in multiset(b);
    }
  }

  // ---------------------------------------------------------------------------
  // `fetchCardData`

  /** The sum of the amounts of `rows`. */
  function Total(rows: seq<Invoice>): (t: real)
    ensures (forall i :: 0 <= i < |rows| ==> rows[i].amount >= 0.0) ==> t >= 0.0
  {
    if |rows| == 0 then 0.0 else rows[0].amount + Total(rows[1..])
  }

  function HasStatus(status: string): Invoice -> bool {
    (inv: Invoice) => inv.status == status
  }

  function HasOtherStatus(inv: Invoice): bool {
    inv.status != PAID && inv.status != PENDING
  }

  lemma {:induction false} TotalConcat(a: seq<Invoice>, b: seq<Invoice>)
    ensures Total(a + b) == Total(a) + Total(b)
  {
    if |a| > 0 {
      assert (a + b)[1..] == a[1..] + b;
      TotalConcat(a[1..], b);
    } else {
      assert a + b == b;
    }
  }

  /** One more row adds its amount to the total of its status and to no other. */
  lemma TotalStep(rows: seq<Invoice>, inv: Invoice, status: string)
    ensures Total(Filter(rows + [inv], HasStatus(status)))
         == Total(Filter(rows, HasStatus(status))) + (if inv.status == status then inv.amount else 0.0)
  {
    FilterConcat(rows, [inv], HasStatus(status));
    TotalConcat(Filter(rows, HasStatus(status)), Filter([inv], HasStatus(status)));
  }

  /**
   * The paid/pending reduce: the sums of the amounts of the rows whose status
   * is exactly "paid" and exactly "pending".
   */
  method StatusTotals(rows: seq<Invoice>) returns (paid: real, pending: real)
    ensures paid == Total(Filter(rows, HasStatus(PAID)))
    ensures pending == Total(Filter(rows, HasStatus(PENDING)))
  {
    paid, pending := 0.0, 0.0;
    for i := 0 to |rows|
      invariant paid == Total(Filter(rows[..i], HasStatus(PAID)))
      invariant pending == Total(Filter(rows[..i], HasStatus(PENDING)))
    {
      var inv := rows[i];
      assert rows[..i + 1] == rows[..i] + [inv];
      TotalStep(rows[..i], inv, PAID);
      TotalStep(rows[..i], inv, PENDING);
      if inv.status == PAID {
        paid := paid + inv.amount;
      } else if inv.status == PENDING {
        pending := pending + inv.amount;
      }
    }
    assert rows[..|rows|] == rows;
  }

  /**
   * The three reads are given as their responses: the two counts (null when
   * their query failed, which the source does not check) and the status/amount
   * rows or the store's error message.
   */
  method FetchCardData(invoiceCount: Option<nat>, customerCount: Option<nat>, statusRows: Result<seq<Invoice>, string>)
    returns (r: Result<CardData, string>)
    ensures statusRows.Err? ==> r == Err(statusRows.error)
    ensures statusRows.Ok? ==> (r.Ok?
      && r.value.numberOfCustomers == customerCount.GetOr(0)
      && r.value.numberOfInvoices == invoiceCount.GetOr(0)
      && r.value.totalPaidInvoices == Total(Filter(statusRows.value, HasStatus(PAID)))
      && r.value.totalPendingInvoices == Total(Filter(statusRows.value, HasStatus(PENDING))))
  {
    if statusRows.Err? {
      return Err(statusRows.error);
    }
    var paid, pending := StatusTotals(statusRows.value);
    r := Ok(CardData(customerCount.GetOr(0), invoiceCount.GetOr(0), paid, pending));
  }

  // ---------------------------------------------------------------------------
  // Properties

  /** Every row counts toward exactly one of paid, pending and neither. */
  lemma {:induction false} TotalsPartition(rows: seq<Invoice>)
    ensures Total(rows) == Total(Filter(rows, HasStatus(PAID))) + Total(Filter(rows, HasStatus(PENDING)))
                           + Total(Filter(rows, HasOtherStatus))
  {
    if |rows| > 0 {
      TotalsPartition(rows[1..]);
      var r0 := rows[..1];
      assert rows == r0 + rows[1..];
      FilterConcat(r0, rows[1..], HasStatus(PAID));
      FilterConcat(r0, rows[1..], HasStatus(PENDING));
      FilterConcat(r0, rows[1..], HasOtherStatus);
      TotalConcat(Filter(r0, HasStatus(PAID)), Filter(rows[1..], HasStatus(PAID)));
      TotalConcat(Filter(r0, HasStatus(PENDING)), Filter(rows[1..], HasStatus(PENDING)));
      TotalConcat(Filter(r0, HasOtherStatus), Filter(rows[1..], HasOtherStatus));
    }
  }

  /** A row whose status is neither "paid" nor "pending" changes neither total. */
  lemma OtherStatusCountsNowhere(rows: seq<Invoice>, inv: Invoice)
    requires HasOtherStatus(inv)
    ensures Total(Filter(rows + [inv], HasStatus(PAID))) == Total(Filter(rows, HasStatus(PAID)))
    ensures Total(Filter(rows + [inv], HasStatus(PENDING))) == Total(Filter(rows, HasStatus(PENDING)))
  {
    TotalStep(rows, inv, PAID);
    TotalStep(rows, inv, PENDING);
  }

  /** A row passes the search iff its status contains the query, ignoring case; the empty query keeps every row. */
  lemma SearchFilter(rows: seq<Invoice>, query: string)
    ensures forall inv :: inv in FilteredInvoices(rows, query) <==> inv in rows && ILikeContains(inv.status, query)
    ensures query == "" ==> FilteredInvoices(rows, query) == rows
  {
    if query == "" {
      forall inv | inv in rows ensures MatchesQuery(query)(inv) {
        assert Lower(query) <= Lower(inv.status);
      }
      FilterKeepsAll(rows, MatchesQuery(query));
    }
  }

  /** Page counts: 0 rows give 0 pages, 6 give 1, 7 give 2; a null count is 0. */
  lemma PageCountExamples()
    ensures PageCount(None) == 0 && PageCount(Some(0)) == 0
    ensures PageCount(Some(6)) == 1 && PageCount(Some(7)) == 2
  {
  }

  /**
   * Page `p` (from 1) holds the matching rows, newest first, at positions
   * (p-1)*6 through (p-1)*6+5: at most six of them.
   */
  lemma PageWindow(rows: seq<Invoice>, query: string, p: int)
    requires p >= 1
    ensures var sorted := NewestFirst(FilteredInvoices(rows, query));
      var page := PageOfInvoices(rows, query, p);
      && page.Some?
      && |page.value| <= ITEMS_PER_PAGE
      && forall k :: 0 <= k < |page.value| ==>
           (p - 1) * ITEMS_PER_PAGE + k < |sorted| && page.value[k] == sorted[(p - 1) * ITEMS_PER_PAGE + k]
  {
  }

  /** Every matching row appears on a page between 1 and the page count. */
  lemma {:induction false} EveryMatchOnAPage(rows: seq<Invoice>, query: string, i: nat)
    requires i < |FilteredInvoices(rows, query)|
    ensures var p := i / ITEMS_PER_PAGE + 1;
      var page := PageOfInvoices(rows, query, p);
      && 1 <= p <= PageCount(Some(|FilteredInvoices(rows, query)|))
      && page.Some? && i % ITEMS_PER_PAGE < |page.value|
      && page.value[i % ITEMS_PER_PAGE] == NewestFirst(FilteredInvoices(rows, query))[i]
  {
    var n := |FilteredInvoices(rows, query)|;
    var p := i / ITEMS_PER_PAGE + 1;
    var pages := PageCount(Some(n));
    assert (p - 1) * ITEMS_PER_PAGE + i % ITEMS_PER_PAGE == i;
    assert (p - 1) * ITEMS_PER_PAGE <= i < n <= pages * ITEMS_PER_PAGE;
  }

  /**
   * The latest invoices are the five newest: ordered newest first, and no
   * invoice left out is newer than any selected one.
   */
  lemma LatestAreNewest(rows: seq<Invoice>)
    ensures var sel := LatestSelection(rows);
      var all := NewestFirst(rows);
      && |sel| == Min(LATEST_COUNT, |rows|)
      && multiset(sel) + multiset(all[|sel|..]) == multiset(rows)
      && (forall i, j :: 0 <= i < j < |sel| ==> LexLeq(sel[j].date, sel[i].date))
      && (forall i, j :: 0 <= i < |sel| <= j < |all| ==> LexLeq(all[j].date, sel[i].date))
  {
    var sel := LatestSelection(rows);
    var all := NewestFirst(rows);
    assert all == sel + all[|sel|..];
  }
}
