/**
 * The dashboard's listing logic: the stats fold, the search filter, the status
 * tabs and the page slice.
 *
 * The stats fold and the card badge classify a client with `expiry < today`,
 * while the live tabs as written test `expiry >= today`; the two disagree on a
 * record without an expiry date. The corrected tabs (InTab, Filtered) use the
 * negation of `expiry < today`; the written ones are kept beside them
 * (InTabAsWritten, FilteredAsWritten) together with the lemma that exhibits
 * the difference.
 */
module Listing {

  import opened Wrappers
  import opened Calendar
  import opened Text
  import opened Membership

  // ---------------------------------------------------------------------------
  // Filtering a list

  /** `xs.filter(keep)`: the elements that satisfy keep, in their order. */
  function Select<T(==, !new)>(xs: seq<T>, keep: T -> bool): (r: seq<T>)
    ensures |r| <= |xs|
    ensures forall x :: x in r <==> x in xs && keep(x)
    ensures forall x :: multiset(r)[x] == if keep(x) then multiset(xs)[x] else 0
  {
    if xs == [] then []
    else
      var rest := Select(xs[..|xs| - 1], keep);
      assert xs == xs[..|xs| - 1] + [xs[|xs| - 1]];
      if keep(xs[|xs| - 1]) then rest + [xs[|xs| - 1]] else rest
  }

  /** a can be obtained from b by deleting elements, keeping the order of the others. */
  predicate IsSubsequence<T(==)>(a: seq<T>, b: seq<T>)
    decreases |b|
  {
    a == [] ||
    (b != [] &&
     (IsSubsequence(a, b[..|b| - 1]) ||
      (a[|a| - 1] == b[|b| - 1] && IsSubsequence(a[..|a| - 1], b[..|b| - 1]))))
  }

  lemma {:induction false} SubsequenceReflexive<T>(xs: seq<T>)
    ensures IsSubsequence(xs, xs)
    decreases |xs|
  {
    if xs != [] {
      SubsequenceReflexive(xs[..|xs| - 1]);
    }
  }

  /** A filter keeps the order of what it keeps. */
  lemma {:induction false} SelectIsSubsequence<T(!new)>(xs: seq<T>, keep: T -> bool)
    ensures IsSubsequence(Select(xs, keep), xs)
    decreases |xs|
  {
    if xs != [] {
      var init := xs[..|xs| - 1];
      SelectIsSubsequence(init, keep);
      var r := Select(xs, keep);
      if keep(xs[|xs| - 1]) {
        assert r[..|r| - 1] == Select(init, keep);
      }
    }
  }

  /** Three filters that split every element into exactly one class split the length. */
  lemma {:induction false} SelectPartition<T(!new)>(xs: seq<T>, p: T -> bool, q: T -> bool, r: T -> bool)
    requires forall x :: x in xs ==> (if p(x) then 1 else 0) + (if q(x) then 1 else 0) + (if r(x) then 1 else 0) == 1
    ensures |Select(xs, p)| + |Select(xs, q)| + |Select(xs, r)| == |xs|
    decreases |xs|
  {
    if xs != [] {
      var init := xs[..|xs| - 1];
      assert forall x :: x in init ==> x in xs;
      SelectPartition(init, p, q, r);
      assert xs[|xs| - 1] in xs;
    }
  }

  // ---------------------------------------------------------------------------
  // Search

  /**
   * `c.name.toLowerCase().includes(query) || c.phone.includes(query)`, for a
   * lowered query: the query occurs at some position of the lowered name or of
   * the phone.
   */
  predicate MatchesSearch(c: Client, query: string): (b: bool)
    ensures b <==> (exists i :: OccursAt(Lower(c.name), query, i)) || (exists i :: OccursAt(c.phone, query, i))
  {
    ContainsIff(Lower(c.name), query);
    ContainsIff(c.phone, query);
    Contains(Lower(c.name), query) || Contains(c.phone, query)
  }

  /** The search step of the listing: an empty query keeps every client. */
  function SearchResults(cs: seq<Client>, searchQuery: string): (r: seq<Client>)
    ensures searchQuery == "" ==> r == cs
    ensures forall c :: c in r <==> c in cs && (searchQuery == "" || MatchesSearch(c, Lower(searchQuery)))
  {
    if searchQuery == "" then cs
    else Select(cs, c => MatchesSearch(c, Lower(searchQuery)))
  }

  /** The search result lists clients in the order of the full list. */
  lemma {:induction false} SearchKeepsOrder(cs: seq<Client>, searchQuery: string)
    ensures IsSubsequence(SearchResults(cs, searchQuery), cs)
  {
    if searchQuery == "" {
      SubsequenceReflexive(cs);
    } else {
      SelectIsSubsequence(cs, c => MatchesSearch(c, Lower(searchQuery)));
    }
  }

  // ---------------------------------------------------------------------------
  // Status tabs

  /**
   * The tab filters as written: the live tabs test `expiry >= today`; any other
   * tab keeps every client. They agree with the corrected tabs on every client
   * that has an expiry date, and keep no client without one.
   */
  predicate InTabAsWritten(c: Client, tab: string, now: Instant): (b: bool)
    ensures c.expiryDate.Some? ==> (b <==> InTab(c, tab, now))
    ensures c.expiryDate.None? && (tab == "paid" || tab == "unpaid" || tab == "expired") ==> !b
  {
    if tab == "paid" then c.feeStatus == Paid && NotExpiredAt(c.expiryDate, now)
    else if tab == "unpaid" then c.feeStatus != Paid && NotExpiredAt(c.expiryDate, now)
    else if tab == "expired" then ExpiredAt(c.expiryDate, now)
    else true
  }

  /** The listing as written: search, then the written tab filter. */
  function FilteredAsWritten(cs: seq<Client>, searchQuery: string, tab: string, now: Instant): (r: seq<Client>)
    ensures forall c :: c in r <==> c in SearchResults(cs, searchQuery) && InTabAsWritten(c, tab, now)
  {
    Select(SearchResults(cs, searchQuery), c => InTabAsWritten(c, tab, now))
  }

  /**
   * The tab filters with the live tabs testing `!(expiry < today)`, the test the
   * stats and the badge use: each tab holds the clients of one status.
   */
  predicate InTab(c: Client, tab: string, now: Instant): (b: bool)
    ensures tab == "paid" ==> (b <==> StatusOf(c, now) == Active)
    ensures tab == "unpaid" ==> (b <==> StatusOf(c, now) == Pending)
    ensures tab == "expired" ==> (b <==> StatusOf(c, now) == Expired)
    ensures tab != "paid" && tab != "unpaid" && tab != "expired" ==> b
  {
    if tab == "paid" then c.feeStatus == Paid && !ExpiredAt(c.expiryDate, now)
    else if tab == "unpaid" then c.feeStatus != Paid && !ExpiredAt(c.expiryDate, now)
    else if tab == "expired" then ExpiredAt(c.expiryDate, now)
    else true
  }

  /** The listing: the clients that match the search and belong to the tab, in list order. */
  function Filtered(cs: seq<Client>, searchQuery: string, tab: string, now: Instant): (r: seq<Client>)
    ensures forall c :: c in r <==> c in cs && (searchQuery == "" || MatchesSearch(c, Lower(searchQuery))) && InTab(c, tab, now)
  {
    Select(SearchResults(cs, searchQuery), c => InTab(c, tab, now))
  }

  /** The listing lists clients in the order of the full list. */
  lemma {:induction false} FilteredKeepsOrder(cs: seq<Client>, searchQuery: string, tab: string, now: Instant)
    ensures IsSubsequence(Filtered(cs, searchQuery, tab, now), cs)
  {
    var found := SearchResults(cs, searchQuery);
    SearchKeepsOrder(cs, searchQuery);
    SelectIsSubsequence(found, c => InTab(c, tab, now));
    SubsequenceTransitive(Filtered(cs, searchQuery, tab, now), found, cs);
  }

  lemma {:induction false} SubsequenceTransitive<T>(a: seq<T>, b: seq<T>, c: seq<T>)
    requires IsSubsequence(a, b) && IsSubsequence(b, c)
    ensures IsSubsequence(a, c)
    decreases |c|
  {
    if a != [] {
      assert b != [] && c != [];
      if IsSubsequence(b, c[..|c| - 1]) {
        SubsequenceTransitive(a, b, c[..|c| - 1]);
      } else if IsSubsequence(a, b[..|b| - 1]) {
        SubsequenceTransitive(a, b[..|b| - 1], c[..|c| - 1]);
      } else {
        SubsequenceTransitive(a[..|a| - 1], b[..|b| - 1], c[..|c| - 1]);
      }
    }
  }

  /**
   * The three status tabs split the search result: no client is in two of them,
   * every found client is in one, and their lengths add up to the result's.
   */
  lemma {:induction false} TabsPartitionSearch(cs: seq<Client>, searchQuery: string, now: Instant)
    ensures var paid, unpaid, expired :=
              Filtered(cs, searchQuery, "paid", now), Filtered(cs, searchQuery, "unpaid", now),
              Filtered(cs, searchQuery, "expired", now);
            (forall c :: c in paid ==> c !in unpaid && c !in expired) &&
            (forall c :: c in unpaid ==> c !in expired) &&
            (forall c :: c in SearchResults(cs, searchQuery) ==> c in paid || c in unpaid || c in expired) &&
            |paid| + |unpaid| + |expired| == |SearchResults(cs, searchQuery)|
  {
    SelectPartition(SearchResults(cs, searchQuery),
      c => InTab(c, "paid", now), c => InTab(c, "unpaid", now), c => InTab(c, "expired", now));
  }

  /** The badge names the tab a client is listed under. */
  lemma {:induction false} BadgeMatchesTab(c: Client, now: Instant)
    ensures CardBadge(c, now).text == "Expired" <==> InTab(c, "expired", now)
    ensures CardBadge(c, now).text == "Active" <==> InTab(c, "paid", now)
    ensures CardBadge(c, now).text == "Pending" <==> InTab(c, "unpaid", now)
  {
  }

  /**
   * As written, a client without an expiry date is in none of the three status
   * tabs, although the badge shows it Active or Pending and the stats count it
   * as paid or unpaid.
   */
  lemma {:induction false} UndatedClientFallsBetweenTabs(c: Client, now: Instant)
    requires c.expiryDate.None?
    ensures !InTabAsWritten(c, "paid", now) && !InTabAsWritten(c, "unpaid", now) && !InTabAsWritten(c, "expired", now)
    ensures FilteredAsWritten([c], "", "paid", now) == [] && FilteredAsWritten([c], "", "unpaid", now) == []
    ensures FilteredAsWritten([c], "", "expired", now) == []
    ensures CountOf([c], now, Active) + CountOf([c], now, Pending) == 1
    ensures CardBadge(c, now).text != "Expired"
  {
    assert [c][..0] == [];
  }

  // ---------------------------------------------------------------------------
  // Stats

  /** How many clients of the list have the status. */
  function CountOf(cs: seq<Client>, now: Instant, s: Status): (n: nat)
    ensures n <= |cs|
  {
    if cs == [] then 0
    else CountOf(cs[..|cs| - 1], now, s) + (if StatusOf(cs[|cs| - 1], now) == s then 1 else 0)
  }

  /** The stats counters the dashboard shows. */
  datatype Stats = Stats(total: nat, paid: nat, unpaid: nat, expired: nat)

  /** The stats fold: one pass over the clients with the status rule written out. */
  method UpdateStats(clients: seq<Client>, now: Instant) returns (stats: Stats)
    ensures stats.total == |clients| == stats.paid + stats.unpaid + stats.expired
    ensures stats.expired == CountOf(clients, now, Expired)
    ensures stats.paid == CountOf(clients, now, Active)
    ensures stats.unpaid == CountOf(clients, now, Pending)
  {
    var acc := Stats(0, 0, 0, 0);
    for i := 0 to |clients|
      invariant acc.total == i == acc.paid + acc.unpaid + acc.expired
      invariant acc.expired == CountOf(clients[..i], now, Expired)
      invariant acc.paid == CountOf(clients[..i], now, Active)
      invariant acc.unpaid == CountOf(clients[..i], now, Pending)
    {
      assert clients[..i + 1][..i] == clients[..i];
      var client := clients[i];
      acc := acc.(total := acc.total + 1);
      if ExpiredAt(client.expiryDate, now) {
        acc := acc.(expired := acc.expired + 1);
      } else if client.feeStatus == Paid {
        acc := acc.(paid := acc.paid + 1);
      } else {
        acc := acc.(unpaid := acc.unpaid + 1);
      }
    }
    assert clients[..|clients|] == clients;
    stats := acc;
  }

  /** Every client has exactly one status, so the three counters add up to the list length. */
  lemma {:induction false} CountsPartition(cs: seq<Client>, now: Instant)
    ensures CountOf(cs, now, Expired) + CountOf(cs, now, Active) + CountOf(cs, now, Pending) == |cs|
    decreases |cs|
  {
    if cs != [] {
      CountsPartition(cs[..|cs| - 1], now);
    }
  }

  /** The expired counter depends on the expiry dates alone, not on the fee statuses. */
  lemma {:induction false} ExpiredCountIgnoresFee(cs: seq<Client>, ds: seq<Client>, now: Instant)
    requires |cs| == |ds|
    requires forall k :: 0 <= k < |cs| ==> cs[k].expiryDate == ds[k].expiryDate
    ensures CountOf(cs, now, Expired) == CountOf(ds, now, Expired)
    decreases |cs|
  {
    if cs != [] {
      ExpiredCountIgnoresFee(cs[..|cs| - 1], ds[..|ds| - 1], now);
    }
  }

  lemma {:induction false} SelectCountsStatus(cs: seq<Client>, now: Instant, s: Status, keep: Client -> bool)
    requires forall c :: keep(c) <==> StatusOf(c, now) == s
    ensures |Select(cs, keep)| == CountOf(cs, now, s)
    decreases |cs|
  {
    if cs != [] {
      SelectCountsStatus(cs[..|cs| - 1], now, s, keep);
    }
  }

  /** With an empty search, each status tab is as long as the matching stats counter. */
  lemma {:induction false} TabLengthsMatchStats(cs: seq<Client>, now: Instant)
    ensures |Filtered(cs, "", "paid", now)| == CountOf(cs, now, Active)
    ensures |Filtered(cs, "", "unpaid", now)| == CountOf(cs, now, Pending)
    ensures |Filtered(cs, "", "expired", now)| == CountOf(cs, now, Expired)
  {
    SelectCountsStatus(cs, now, Active, c => InTab(c, "paid", now));
    SelectCountsStatus(cs, now, Pending, c => InTab(c, "unpaid", now));
    SelectCountsStatus(cs, now, Expired, c => InTab(c, "expired", now));
  }

  // ---------------------------------------------------------------------------
  // Pagination

  const ItemsPerPage: nat := 9

  function Min(a: int, b: int): int {
    if a <= b then a else b
  }

  /** `Math.ceil(n / itemsPerPage)`. */
  function TotalPages(n: nat): (pages: nat)
    ensures pages == 0 <==> n == 0
    ensures n > 0 ==> (pages - 1) * ItemsPerPage < n <= pages * ItemsPerPage
  {
    (n + ItemsPerPage - 1) / ItemsPerPage
  }

  /** `filtered.slice(start, start + itemsPerPage)` with `start = (page - 1) * itemsPerPage`. */
  function PageOf<T>(f: seq<T>, page: int): (r: seq<T>)
    requires page >= 1
    ensures |r| <= ItemsPerPage
    ensures r != [] <==> page <= TotalPages(|f|)
    ensures page < TotalPages(|f|) ==> |r| == ItemsPerPage
    ensures page <= TotalPages(|f|) ==> |r| == Min(ItemsPerPage, |f| - (page - 1) * ItemsPerPage)
    ensures forall k :: 0 <= k < |r| ==> (page - 1) * ItemsPerPage + k < |f| && r[k] == f[(page - 1) * ItemsPerPage + k]
  {
    var start := (page - 1) * ItemsPerPage;
    if start >= |f| then [] else f[start..Min(start + ItemsPerPage, |f|)]
  }

  /** Pages 1 to k, one after the other. */
  function PagesUpTo<T>(f: seq<T>, k: nat): seq<T> {
    if k == 0 then [] else PagesUpTo(f, k - 1) + PageOf(f, k)
  }

  lemma {:induction false} PagesUpToIsPrefix<T>(f: seq<T>, k: nat)
    ensures PagesUpTo(f, k) == f[..Min(k * ItemsPerPage, |f|)]
  {
    if k > 0 {
      PagesUpToIsPrefix(f, k - 1);
      var before, page := PagesUpTo(f, k - 1), PageOf(f, k);
      assert before == f[..Min((k - 1) * ItemsPerPage, |f|)];
      if (k - 1) * ItemsPerPage < |f| {
        assert page == f[(k - 1) * ItemsPerPage..Min(k * ItemsPerPage, |f|)];
      }
    }
  }

  /** Paging through every page shows each listed client once, in order. */
  lemma {:induction false} PagesCoverListing<T>(f: seq<T>)
    ensures PagesUpTo(f, TotalPages(|f|)) == f
  {
    PagesUpToIsPrefix(f, TotalPages(|f|));
  }

}
