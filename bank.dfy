/**
 * GET /bank: the raw query parameters are compiled into a blood-group
 * pattern, a city pattern and fixed sort/skip/limit options. Which donors a
 * pattern matches is decided by the database's regular-expression engine and
 * is not modelled: the handler is given the matching donors, in the order the
 * database holds them, and the model sorts, skips and limits them.
 */
module Bank {
  import opened Types
  import opened RegExpEscape
  import opened Donors

  /** Donors per result page. */
  const PageSize: nat := 18

  /** The blood pattern used when no ABO type is given. */
  const AnyAbo: string := "(A|B|O|AB)"

  /** The sign pattern used when no Rh factor is given: a character class of `+` and `-`. */
  const AnySign: string := "[\\+-]"

  datatype BankParams = BankParams(blood: Option<string>, rh: Option<string>, city: Option<string>, page: Option<int>)

  /** The filter and options handed to the database. `sortDirection` -1 means descending. */
  datatype BankQuery = BankQuery(
    bloodPattern: string,
    cityPattern: string,
    page: nat,
    sortField: string,
    sortDirection: int,
    limit: nat,
    skip: nat)

  datatype BankOutcome = RedirectRegister | Results(docs: seq<Donor>, logged: string)

  function Min(a: int, b: int): int {
    if a <= b then a else b
  }

  /** The page number: a missing or sub-1 page is page 1. */
  function NormalisePage(page: Option<int>): (p: nat)
    ensures p >= 1
    ensures page.Some? && page.value >= 1 ==> p == page.value
    ensures page.None? || page.value < 1 ==> p == 1
  {
    if page.None? || page.value < 1 then 1 else page.value
  }

  /** The ABO part of the blood pattern: the parameter verbatim, or any of the four types. */
  function BloodBase(blood: Option<string>): string {
    if Truthy(blood) then blood.value else AnyAbo
  }

  /** The Rh part of the blood pattern: the parameter escaped, or either sign. */
  function RhSuffix(rh: Option<string>): string {
    if Truthy(rh) then EscapeRegExp(rh.value) else AnySign
  }

  /** The handler's reassignments of `blood`, `city` and `page`, and the fixed find options. */
  function CompileQuery(q: BankParams): (r: BankQuery)
    ensures r.page >= 1 && r.page == NormalisePage(q.page)
    ensures r.skip == (r.page - 1) * PageSize && r.skip % PageSize == 0
    ensures r.limit == PageSize
    ensures r.sortField == "amount" && r.sortDirection == -1
    ensures Truthy(q.city) ==> r.cityPattern == q.city.value
    ensures !Truthy(q.city) ==> r.cityPattern == ""
  {
    var page := NormalisePage(q.page);
    BankQuery(
      bloodPattern := BloodBase(q.blood) + RhSuffix(q.rh),
      cityPattern := if Truthy(q.city) then q.city.value else "",
      page := page,
      sortField := "amount",
      sortDirection := -1,
      limit := PageSize,
      skip := (page - 1) * PageSize)
  }

  /**
   * The blood pattern starts with the `blood` parameter verbatim (or the
   * any-type group); what follows is, when `rh` is given, a literal pattern
   * that stands for exactly `rh`, and otherwise the either-sign class.
   */
  lemma BloodPatternShape(q: BankParams)
    ensures var base := if Truthy(q.blood) then q.blood.value else AnyAbo;
            var r := CompileQuery(q).bloodPattern;
            && |base| <= |r| && r[..|base|] == base
            && (Truthy(q.rh) ==> Literal(r[|base|..]) && Unescape(r[|base|..]) == q.rh.value)
            && (!Truthy(q.rh) ==> r[|base|..] == AnySign)
  {
    var base := BloodBase(q.blood);
    var r := CompileQuery(q).bloodPattern;
    assert r == base + RhSuffix(q.rh);
    assert r[..|base|] == base;
    assert r[|base|..] == RhSuffix(q.rh);
    if Truthy(q.rh) {
      EscapeIsLiteral(q.rh.value);
      UnescapeEscape(q.rh.value);
    }
  }

  /** Two requests whose Rh factors differ yield different blood patterns (same ABO part). */
  lemma RhDistinguishes(q1: BankParams, q2: BankParams)
    requires q1.blood == q2.blood && Truthy(q1.rh) && Truthy(q2.rh)
    requires q1.rh != q2.rh
    ensures CompileQuery(q1).bloodPattern != CompileQuery(q2).bloodPattern
  {
    BloodPatternShape(q1);
    BloodPatternShape(q2);
  }

  /** Non-increasing in `amount`: the order of a result set. */
  ghost predicate SortedDesc(s: seq<Donor>) {
    forall i, j :: 0 <= i < j < |s| ==> s[i].amount >= s[j].amount
  }

  /** Insert `d` into a non-increasing sequence, before the first donor whose amount it reaches. */
  function Insert(d: Donor, s: seq<Donor>): (r: seq<Donor>)
    requires SortedDesc(s)
    ensures SortedDesc(r)
    ensures multiset(r) == multiset(s) + multiset{d}
    ensures |r| == |s| + 1
    ensures r[0] == d || (s != [] && r[0] == s[0])
  {
    if s == [] || d.amount >= s[0].amount then [d] + s
    else
      var t := Insert(d, s[1..]);
      assert s == [s[0]] + s[1..];
      assert forall j :: 0 <= j < |t| ==> t[0].amount >= t[j].amount;
      [s[0]] + t
  }

  /** The database's `sort: { amount: -1 }`, as an insertion sort. */
  function SortByAmount(s: seq<Donor>): (r: seq<Donor>)
    ensures SortedDesc(r)
    ensures multiset(r) == multiset(s)
    ensures |r| == |s|
  {
    if s == [] then []
    else
      assert s == [s[0]] + s[1..];
      Insert(s[0], SortByAmount(s[1..]))
  }

  /** `skip`, then `limit`, on a result that is already sorted. */
  function Window(s: seq<Donor>, skip: nat, limit: nat): (r: seq<Donor>)
    ensures |r| == if skip >= |s| then 0 else Min(limit, |s| - skip)
    ensures forall i :: 0 <= i < |r| ==> r[i] == s[skip + i]
  {
    if skip >= |s| then [] else s[skip .. Min(skip + limit, |s|)]
  }

  /** A window takes its elements from the sequence, and keeps its order. */
  lemma WindowIncluded(s: seq<Donor>, skip: nat, limit: nat)
    ensures multiset(Window(s, skip, limit)) <= multiset(s)
    ensures SortedDesc(s) ==> SortedDesc(Window(s, skip, limit))
  {
    if skip < |s| {
      var hi := Min(skip + limit, |s|);
      assert s == s[..skip] + s[skip..hi] + s[hi..];
    }
  }

  /** `sort`, then `skip`, then `limit`, applied to the matching donors. */
  function PageOf(matched: seq<Donor>, q: BankQuery): (r: seq<Donor>)
    ensures |r| <= q.limit
    ensures |r| == if q.skip >= |matched| then 0 else Min(q.limit, |matched| - q.skip)
    ensures SortedDesc(r)
    ensures multiset(r) <= multiset(matched)
  {
    var s := SortByAmount(matched);
    WindowIncluded(s, q.skip, q.limit);
    Window(s, q.skip, q.limit)
  }

  /**
   * GET /bank: without an identity cookie the caller goes to registration
   * and nothing is queried; otherwise one page of at most 18 matching donors,
   * highest amounts first, and the cookie as the "logged" flag.
   */
  function Bank(cookie: Option<string>, params: BankParams, matched: seq<Donor>): (r: BankOutcome)
    ensures r == RedirectRegister <==> !Truthy(cookie)
    ensures r.Results? ==> r.logged == cookie.value
    ensures r.Results? ==> |r.docs| <= PageSize && SortedDesc(r.docs)
    ensures r.Results? ==> multiset(r.docs) <= multiset(matched)
    ensures r.Results? ==>
      r.docs == Window(SortByAmount(matched), (NormalisePage(params.page) - 1) * PageSize, PageSize)
  {
    if !Truthy(cookie) then RedirectRegister
    else
      PageIsWindow(matched, CompileQuery(params));
      Results(PageOf(matched, CompileQuery(params)), cookie.value)
  }

  /** The query for page `k` of the same search. */
  function OnPage(params: BankParams, k: int): BankQuery {
    CompileQuery(params.(page := Some(k)))
  }

  /** Page `k` of a search is the window of the sorted result that starts after `k - 1` full pages. */
  lemma OnPageWindow(matched: seq<Donor>, params: BankParams, k: int)
    requires k >= 1
    ensures PageOf(matched, OnPage(params, k)) == Window(SortByAmount(matched), (k - 1) * PageSize, PageSize)
  {
    var q := OnPage(params, k);
    OnPageOptions(params, k);
    PageIsWindow(matched, q);
  }

  /** The options of page `k`: skip `k - 1` full pages, take one page. */
  lemma OnPageOptions(params: BankParams, k: int)
    requires k >= 1
    ensures OnPage(params, k).skip == (k - 1) * PageSize && OnPage(params, k).limit == PageSize
  {
  }

  /** A page is the window of the sorted result that its options select. */
  lemma PageIsWindow(matched: seq<Donor>, q: BankQuery)
    ensures PageOf(matched, q) == Window(SortByAmount(matched), q.skip, q.limit)
  {
  }

  /** In a non-increasing sequence, a window never holds more than an earlier window. */
  lemma WindowsDescend(s: seq<Donor>, k: nat, m: nat, i: nat, j: nat)
    requires SortedDesc(s) && 1 <= k < m
    requires i < |Window(s, (k - 1) * PageSize, PageSize)| && j < |Window(s, (m - 1) * PageSize, PageSize)|
    ensures Window(s, (k - 1) * PageSize, PageSize)[i].amount >= Window(s, (m - 1) * PageSize, PageSize)[j].amount
  {
    assert (k - 1) * PageSize + i < k * PageSize <= (m - 1) * PageSize;
  }

  /** Every donor on an earlier page has at least the amount of every donor on a later page. */
  lemma PagesDescend(matched: seq<Donor>, params: BankParams, k: int, m: int, i: nat, j: nat)
    requires 1 <= k < m
    requires i < |PageOf(matched, OnPage(params, k))| && j < |PageOf(matched, OnPage(params, m))|
    ensures PageOf(matched, OnPage(params, k))[i].amount >= PageOf(matched, OnPage(params, m))[j].amount
  {
    OnPageWindow(matched, params, k);
    OnPageWindow(matched, params, m);
    WindowsDescend(SortByAmount(matched), k, m, i, j);
  }

  /** The first `j` pages' worth of a sequence, followed by window `j + 1`, is the first `j + 1` pages' worth. */
  lemma PrefixGrows(s: seq<Donor>, before: seq<Donor>, page: seq<Donor>, j: nat)
    requires before == s[..Min(j * PageSize, |s|)]
    requires page == Window(s, j * PageSize, PageSize)
    ensures before + page == s[..Min((j + 1) * PageSize, |s|)]
  {
    var lo := Min(j * PageSize, |s|);
    var hi := Min((j + 1) * PageSize, |s|);
    assert j * PageSize + PageSize == (j + 1) * PageSize;
    assert page == s[lo..hi];
    PrefixSplit(s, lo, hi);
  }

  /** Pages 1 to `k` of one search, one after the other. */
  function FirstPages(matched: seq<Donor>, params: BankParams, k: nat): seq<Donor> {
    if k == 0 then [] else FirstPages(matched, params, k - 1) + PageOf(matched, OnPage(params, k))
  }

  lemma PrefixSplit(s: seq<Donor>, lo: nat, hi: nat)
    requires lo <= hi <= |s|
    ensures s[..lo] + s[lo..hi] == s[..hi]
  {
  }

  /** Adding page `j + 1` to the first `j` pages extends the sorted prefix by that page. */
  lemma NextPageExtends(matched: seq<Donor>, params: BankParams, j: nat)
    requires FirstPages(matched, params, j) == SortByAmount(matched)[..Min(j * PageSize, |matched|)]
    ensures FirstPages(matched, params, j + 1) == SortByAmount(matched)[..Min((j + 1) * PageSize, |matched|)]
  {
    var s := SortByAmount(matched);
    var page := PageOf(matched, OnPage(params, j + 1));
    OnPageWindow(matched, params, j + 1);
    assert (j + 1 - 1) * PageSize == j * PageSize;
    PrefixGrows(s, FirstPages(matched, params, j), page, j);
  }

  /**
   * Paging neither skips nor repeats a donor: the first `k` pages together
   * are exactly the first `18 * k` donors of the sorted result.
   */
  lemma {:induction false} FirstPagesArePrefix(matched: seq<Donor>, params: BankParams, k: nat)
    ensures FirstPages(matched, params, k) == SortByAmount(matched)[..Min(k * PageSize, |matched|)]
  {
    if k > 0 {
      var j: nat := k - 1;
      FirstPagesArePrefix(matched, params, j);
      NextPageExtends(matched, params, j);
      assert j + 1 == k;
    }
  }
}
