/** Sold numbers (convex/numbers.ts): registration, the paginated search
    and the plain lookups. */
module Numbers {
  import opened Seqs
  import opened Text
  import opened Schema

  // ---- registerNumber ------------------------------------------------------

  /** A number is taken in a raffle when some row of `numbers` holds it. */
  predicate NumberTaken(ns: seq<NumberRow>, raffleId: nat, number: string) {
    exists n :: n in ns && n.raffleId == raffleId && n.number == number
  }

  /** The first row holding this number in this raffle (the
      `by_raffle_and_number` index with `.first()`). */
  function FindNumber(ns: seq<NumberRow>, raffleId: nat, number: string): (r: Option<NumberRow>)
    ensures r.Some? ==> r.value in ns && r.value.raffleId == raffleId && r.value.number == number
    ensures r.None? <==> !NumberTaken(ns, raffleId, number)
  {
    match FirstIndex(ns, (n: NumberRow) => n.raffleId == raffleId && n.number == number)
    case Some(k) => assert ns[k] in ns; Some(ns[k])
    case None => None
  }

  /** `registerNumber`: a number already taken in the raffle is refused
      first; then a seller without a membership in the raffle is refused;
      otherwise the sale is inserted and its id returned. */
  method RegisterNumber(db: Db, number: string, raffleId: nat, sellerId: nat,
                        buyerName: string, buyerContact: string, now: nat)
    returns (res: Result<nat>)
    requires db.Valid()
    modifies db
    ensures db.Valid()
    ensures old(NumberTaken(db.numbers, raffleId, number)) ==>
      res == Err(NumberAlreadyRegistered) && db.Snapshot() == old(db.Snapshot())
    ensures !old(NumberTaken(db.numbers, raffleId, number))
            && old(RoleIn(db.sellerRaffles, sellerId, raffleId)).None? ==>
      res == Err(NoAccessToRaffle) && db.Snapshot() == old(db.Snapshot())
    ensures !old(NumberTaken(db.numbers, raffleId, number))
            && old(RoleIn(db.sellerRaffles, sellerId, raffleId)).Some? ==>
      && res == Ok(old(db.nextId))
      && db.numbers == old(db.numbers)
                       + [NumberRow(res.value, number, raffleId, sellerId, buyerName, buyerContact, now)]
      && db.nextId == res.value + 1
      && db.sellers == old(db.sellers) && db.raffles == old(db.raffles)
      && db.sellerRaffles == old(db.sellerRaffles) && db.chatMessages == old(db.chatMessages)
    ensures NumberTaken(db.numbers, raffleId, number)
            <==> (res.Ok? || old(NumberTaken(db.numbers, raffleId, number)))
  {
    var existing := FindNumber(db.numbers, raffleId, number);
    if existing.Some? {
      return Err(NumberAlreadyRegistered);
    }
    var access := FindMembership(db.sellerRaffles, sellerId, raffleId);
    if access.None? {
      return Err(NoAccessToRaffle);
    }
    assert RaffleExists(db.raffles, raffleId) by {
      assert db.sellerRaffles[access.value] in db.sellerRaffles;
    }
    var id := db.InsertNumber(number, raffleId, sellerId, buyerName, buyerContact, now);
    assert db.numbers[|db.numbers| - 1].number == number;
    res := Ok(id);
  }

  /** Registration keeps each number of a raffle with a single buyer: the
      lookup by raffle and number finds the one row that holds it. */
  lemma NumberHasOneBuyer(db: Db, n: NumberRow)
    requires db.Valid() && n in db.numbers
    ensures FindNumber(db.numbers, n.raffleId, n.number) == Some(n)
  {
    var i :| 0 <= i < |db.numbers| && db.numbers[i] == n;
    var f := FindNumber(db.numbers, n.raffleId, n.number);
    var j :| 0 <= j < |db.numbers| && db.numbers[j] == f.value;
    assert !(i < j) && !(j < i);
  }

  // ---- getNumber, getNumbersByRaffle ---------------------------------------

  /** `getNumber`: the sale with this id, or none. */
  function GetNumber(db: Db, numberId: nat): (r: Option<NumberRow>)
    reads db
    ensures r.Some? ==> r.value in db.numbers && r.value.id == numberId
    ensures r.None? <==> forall n :: n in db.numbers ==> n.id != numberId
  {
    match FirstIndex(db.numbers, (n: NumberRow) => n.id == numberId)
    case Some(k) => assert db.numbers[k] in db.numbers; Some(db.numbers[k])
    case None => None
  }

  /** Sales of one raffle, in table order (the `by_raffle` index). */
  function NumbersOfRaffle(ns: seq<NumberRow>, raffleId: nat): (r: seq<NumberRow>)
    ensures forall n :: n in r <==> n in ns && n.raffleId == raffleId
  {
    var p := (n: NumberRow) => n.raffleId == raffleId;
    FilterMembers(ns, p);
    Filter(ns, p)
  }

  /** `getNumbersByRaffle`: every sale of the raffle, nothing else. */
  function GetNumbersByRaffle(db: Db, raffleId: nat): (r: seq<NumberRow>)
    reads db
    ensures forall n :: n in r <==> n in db.numbers && n.raffleId == raffleId
    ensures |r| <= |db.numbers|
  {
    NumbersOfRaffle(db.numbers, raffleId)
  }

  /** The sales of the raffle come back each exactly as often as they are
      stored, so counting them counts the raffle's sales. */
  lemma NumbersByRaffleCounts(db: Db, raffleId: nat)
    ensures forall n :: multiset(GetNumbersByRaffle(db, raffleId))[n]
                        == if n.raffleId == raffleId then multiset(db.numbers)[n] else 0
  {
    FilterCounts(db.numbers, (n: NumberRow) => n.raffleId == raffleId);
  }

  // ---- searchNumbers: the filter -------------------------------------------

  /** A sale matches a lower-cased term when its number, its buyer's name or
      its buyer's contact contains the term, ignoring ASCII case. */
  predicate Matches(n: NumberRow, termLower: string) {
    || Contains(ToLower(n.number), termLower)
    || Contains(ToLower(n.buyerName), termLower)
    || Contains(ToLower(n.buyerContact), termLower)
  }

  /** The term filters only when it is present and not blank; it is then
      lower-cased but not trimmed. */
  predicate Filters(searchTerm: Option<string>) {
    searchTerm.Some? && Trim(searchTerm.value) != []
  }

  function MatchingNumbers(ns: seq<NumberRow>, searchTerm: Option<string>): (r: seq<NumberRow>)
    ensures !Filters(searchTerm) ==> r == ns
    ensures Filters(searchTerm) ==>
      forall n :: n in r <==> n in ns && Matches(n, ToLower(searchTerm.value))
    ensures forall n :: multiset(r)[n] <= multiset(ns)[n]
  {
    if Filters(searchTerm) then
      var p := (n: NumberRow) => Matches(n, ToLower(searchTerm.value));
      FilterMembers(ns, p);
      FilterCounts(ns, p);
      Filter(ns, p)
    else ns
  }

  // ---- searchNumbers: the sort ---------------------------------------------

  /** Newest first: `createdAt` never increases along the sequence. */
  predicate NewestFirst(s: seq<NumberRow>) {
    forall i, j :: 0 <= i < j < |s| ==> s[i].createdAt >= s[j].createdAt
  }

  /** Puts `x` after the back of `t` and moves it forward past every element
      strictly older than it, as one pass of an insertion sort does. */
  function InsertByNewest(t: seq<NumberRow>, x: NumberRow): (r: seq<NumberRow>)
    ensures |r| == |t| + 1
  {
    if t == [] || t[|t| - 1].createdAt >= x.createdAt then t + [x]
    else InsertByNewest(t[..|t| - 1], x) + [t[|t| - 1]]
  }

  /** Inserting adds `x` and loses nothing. */
  lemma {:induction false} InsertPermutes(t: seq<NumberRow>, x: NumberRow)
    ensures multiset(InsertByNewest(t, x)) == multiset(t) + multiset{x}
  {
    if !(t == [] || t[|t| - 1].createdAt >= x.createdAt) {
      InsertPermutes(t[..|t| - 1], x);
      assert t == t[..|t| - 1] + [t[|t| - 1]];
    }
  }

  /** `sort((a, b) => b.createdAt - a.createdAt)`: ECMAScript's sort is
      stable, so this is the insertion sort that inserts each element, in
      order, into the sorted prefix before it. */
  function SortByNewest(s: seq<NumberRow>): (r: seq<NumberRow>)
    ensures |r| == |s|
  {
    if s == [] then [] else InsertByNewest(SortByNewest(s[..|s| - 1]), s[|s| - 1])
  }

  predicate NoOlderThan(s: seq<NumberRow>, b: nat) {
    forall k :: 0 <= k < |s| ==> s[k].createdAt >= b
  }

  lemma {:induction false} InsertNoOlderThan(t: seq<NumberRow>, x: NumberRow, b: nat)
    requires NoOlderThan(t, b) && x.createdAt >= b
    ensures NoOlderThan(InsertByNewest(t, x), b)
  {
    if !(t == [] || t[|t| - 1].createdAt >= x.createdAt) {
      InsertNoOlderThan(t[..|t| - 1], x, b);
    }
  }

  lemma {:induction false} InsertKeepsOrder(t: seq<NumberRow>, x: NumberRow)
    requires NewestFirst(t)
    ensures NewestFirst(InsertByNewest(t, x))
  {
    if !(t == [] || t[|t| - 1].createdAt >= x.createdAt) {
      var u := t[..|t| - 1];
      var last := t[|t| - 1];
      InsertKeepsOrder(u, x);
      InsertNoOlderThan(u, x, last.createdAt);
      var v := InsertByNewest(u, x);
      assert InsertByNewest(t, x) == v + [last];
    }
  }

  lemma {:induction false} SortByNewestOrdered(s: seq<NumberRow>)
    ensures NewestFirst(SortByNewest(s))
  {
    if s != [] {
      SortByNewestOrdered(s[..|s| - 1]);
      InsertKeepsOrder(SortByNewest(s[..|s| - 1]), s[|s| - 1]);
    }
  }

  lemma {:induction false} SortByNewestPermutes(s: seq<NumberRow>)
    ensures multiset(SortByNewest(s)) == multiset(s)
  {
    if s != [] {
      SortByNewestPermutes(s[..|s| - 1]);
      InsertPermutes(SortByNewest(s[..|s| - 1]), s[|s| - 1]);
      assert s == s[..|s| - 1] + [s[|s| - 1]];
    }
  }

  /** The sales created at time `t`. */
  function CreatedAt(t: nat): NumberRow -> bool {
    (n: NumberRow) => n.createdAt == t
  }

  lemma {:induction false} InsertKeepsTies(u: seq<NumberRow>, x: NumberRow, t: nat)
    ensures Filter(InsertByNewest(u, x), CreatedAt(t)) == Filter(u, CreatedAt(t)) + Filter([x], CreatedAt(t))
  {
    if u == [] || u[|u| - 1].createdAt >= x.createdAt {
      FilterAppend(u, [x], CreatedAt(t));
    } else {
      var w := u[..|u| - 1];
      var last := u[|u| - 1];
      assert u == w + [last];
      var p := CreatedAt(t);
      InsertKeepsTies(w, x, t);
      FilterAppend(InsertByNewest(w, x), [last], p);
      FilterAppend(w, [last], p);
      FilterSingleton(x, p);
      FilterSingleton(last, p);
      // x is strictly newer than last, so at most one of them is kept
      var fx, fl := Filter([x], p), Filter([last], p);
      var fw := Filter(w, p);
      if fx == [] {
        assert fw + fx == fw && fl + fx == fl;
      } else {
        assert fl == [] && fw + fl == fw;
      }
      calc {
        Filter(InsertByNewest(u, x), p);
        Filter(InsertByNewest(w, x) + [last], p);
        fw + fx + fl;
        fw + fl + fx;
        Filter(u, p) + fx;
      }
    }
  }

  /** Stability: ties keep their relative order, so the sales created at any
      one moment appear in table order. */
  lemma {:induction false} SortByNewestStable(s: seq<NumberRow>, t: nat)
    ensures Filter(SortByNewest(s), CreatedAt(t)) == Filter(s, CreatedAt(t))
  {
    if s != [] {
      var u := s[..|s| - 1];
      SortByNewestStable(u, t);
      InsertKeepsTies(SortByNewest(u), s[|s| - 1], t);
      assert s == u + [s[|s| - 1]];
      FilterAppend(u, [s[|s| - 1]], CreatedAt(t));
    }
  }

  /** Inserting `x` puts it right after the last element at least as new
      as it: position `j`, when everything from `j` on is strictly older. */
  lemma {:induction false} InsertAt(t: seq<NumberRow>, x: NumberRow, j: nat)
    requires j <= |t| && (j == 0 || t[j - 1].createdAt >= x.createdAt)
    requires forall k :: j <= k < |t| ==> t[k].createdAt < x.createdAt
    ensures InsertByNewest(t, x) == t[..j] + [x] + t[j..]
  {
    if j < |t| {
      var u := t[..|t| - 1];
      var last := t[|t| - 1];
      InsertAt(u, x, j);
      assert InsertByNewest(t, x) == InsertByNewest(u, x) + [last];
      assert u[..j] == t[..j];
      assert t[j..] == u[j..] + [last];
      calc {
        InsertByNewest(t, x);
        (u[..j] + [x] + u[j..]) + [last];
        u[..j] + [x] + (u[j..] + [last]);
        t[..j] + [x] + t[j..];
      }
    }
  }

  /** One round of the outer loop inserts the next input element. */
  lemma SortStep(s: seq<NumberRow>, i: nat)
    requires i < |s|
    ensures SortByNewest(s[..i + 1]) == InsertByNewest(SortByNewest(s[..i]), s[i])
  {
    assert s[..i + 1][..i] == s[..i];
  }

  /** A sequence that agrees with `t` before `j`, holds `x` at `j` and
      agrees with `t` shifted by one after `j` is `t` with `x` put at `j`. */
  lemma Spliced(r: seq<NumberRow>, t: seq<NumberRow>, x: NumberRow, j: nat)
    requires j <= |t| && |r| == |t| + 1 && r[j] == x
    requires forall k :: 0 <= k < j ==> r[k] == t[k]
    requires forall k :: j < k < |r| ==> r[k] == t[k - 1]
    ensures r == t[..j] + [x] + t[j..]
  {
    var u := t[..j] + [x] + t[j..];
    forall k | 0 <= k < |r| ensures r[k] == u[k] {
      if k < j {
      } else if k == j {
      } else {
        assert u[k] == t[j..][k - j - 1];
      }
    }
  }

  /** One pass of the insertion sort: the element at `i` moves left past
      every strictly older element of the sorted prefix before it. */
  method InsertIntoPrefix(a: array<NumberRow>, i: nat)
    requires i < a.Length
    modifies a
    ensures a[..i + 1] == InsertByNewest(old(a[..i]), old(a[i]))
    ensures forall k :: i < k < a.Length ==> a[k] == old(a[k])
  {
    var x := a[i];
    ghost var sorted := a[..i];
    var j := i;
    while j > 0 && a[j - 1].createdAt < x.createdAt
      invariant 0 <= j <= i
      invariant forall k :: 0 <= k < j ==> a[k] == sorted[k]
      invariant forall k :: j < k <= i ==> a[k] == sorted[k - 1]
      invariant forall k :: i < k < a.Length ==> a[k] == old(a[k])
      invariant forall k :: j <= k < i ==> sorted[k].createdAt < x.createdAt
    {
      a[j] := a[j - 1];
      j := j - 1;
    }
    InsertAt(sorted, x, j);
    a[j] := x;
    Spliced(a[..i + 1], sorted, x, j);
  }

  /** The in-place `filtered.sort(...)`, as an insertion sort. */
  method SortNewestFirst(a: array<NumberRow>)
    modifies a
    ensures a[..] == SortByNewest(old(a[..]))
  {
    ghost var input := a[..];
    for i := 0 to a.Length
      invariant a[..i] == SortByNewest(input[..i])
      invariant forall k :: i <= k < a.Length ==> a[k] == input[k]
    {
      InsertIntoPrefix(a, i);
      SortStep(input, i);
    }
    assert input[..a.Length] == input;
  }

  // ---- searchNumbers: the pagination ---------------------------------------

  /** `paginationOpts`, with the cursor string already parsed. */
  datatype PaginationOpts = PaginationOpts(numItems: nat, cursor: Option<nat>)

  /** The result of `searchNumbers`; `nextCursor` is present exactly when
      more results follow. */
  datatype SearchPage = SearchPage(results: seq<NumberRow>, isDone: bool, nextCursor: Option<nat>)

  /** `numItems || 20`: an absent or zero page size means 20. */
  function PageSize(opts: Option<PaginationOpts>): (n: nat)
    ensures n > 0
    ensures opts.Some? && opts.value.numItems != 0 ==> n == opts.value.numItems
    ensures (opts.None? || opts.value.numItems == 0) ==> n == 20
  {
    if opts.Some? && opts.value.numItems != 0 then opts.value.numItems else 20
  }

  /** An absent cursor starts at the beginning. */
  function PageStart(opts: Option<PaginationOpts>): nat {
    if opts.Some? && opts.value.cursor.Some? then opts.value.cursor.value else 0
  }

  /** `Array.prototype.slice` clamps both ends to the length. */
  function Clamp(k: nat, len: nat): (r: nat)
    ensures r <= len && (k <= len ==> r == k) && (len < k ==> r == len)
  {
    if k <= len then k else len
  }

  /** `slice(cursor, cursor + numItems)` plus the `hasMore` test. */
  function Paginate(s: seq<NumberRow>, opts: Option<PaginationOpts>): (p: SearchPage)
    ensures var c, n := PageStart(opts), PageSize(opts);
      && p.results == s[Clamp(c, |s|)..Clamp(c + n, |s|)]
      && (p.isDone <==> |s| <= c + n)
      && (p.nextCursor.Some? <==> !p.isDone)
      && (p.nextCursor.Some? ==> p.nextCursor.value == c + n)
  {
    var c, n := PageStart(opts), PageSize(opts);
    var results := if c >= |s| then [] else if c + n <= |s| then s[c..c + n] else s[c..];
    if c + n < |s| then SearchPage(results, false, Some(c + n))
    else SearchPage(results, true, None)
  }

  /** Everything `searchNumbers` returns from one raffle's table contents. */
  function SearchResults(ns: seq<NumberRow>, raffleId: nat, searchTerm: Option<string>,
                         opts: Option<PaginationOpts>): SearchPage
  {
    Paginate(SortByNewest(MatchingNumbers(NumbersOfRaffle(ns, raffleId), searchTerm)), opts)
  }

  /** `searchNumbers`: collect the raffle's sales, filter them, sort the
      filtered array in place and cut out one page. */
  method SearchNumbers(db: Db, raffleId: nat, searchTerm: Option<string>,
                       opts: Option<PaginationOpts>)
    returns (page: SearchPage)
    ensures page == SearchResults(db.numbers, raffleId, searchTerm, opts)
  {
    var all := NumbersOfRaffle(db.numbers, raffleId);
    var filtered := MatchingNumbers(all, searchTerm);
    var a := new NumberRow[|filtered|](i requires 0 <= i < |filtered| => filtered[i]);
    assert a[..] == filtered;
    SortNewestFirst(a);
    page := Paginate(a[..], opts);
  }

  /** A page is a piece of the sequence it is cut from. */
  lemma PageWithin(s: seq<NumberRow>, opts: Option<PaginationOpts>)
    ensures forall n :: n in Paginate(s, opts).results ==> n in s
  {
    var p := Paginate(s, opts);
    forall n | n in p.results ensures n in s {
      var i :| 0 <= i < |p.results| && p.results[i] == n;
      assert p.results[i] == s[PageStart(opts) + i];
    }
  }

  /** A page of a newest-first sequence is newest first. */
  lemma PageOrdered(s: seq<NumberRow>, opts: Option<PaginationOpts>)
    requires NewestFirst(s)
    ensures NewestFirst(Paginate(s, opts).results)
  {
    var r := Paginate(s, opts).results;
    var c := PageStart(opts);
    forall i, j | 0 <= i < j < |r| ensures r[i].createdAt >= r[j].createdAt {
      assert r[i] == s[c + i];
      assert r[j] == s[c + j];
    }
  }

  /** Sorting keeps exactly the elements it was given. */
  lemma SortedMembers(s: seq<NumberRow>)
    ensures forall n :: n in SortByNewest(s) <==> n in s
  {
    SortByNewestPermutes(s);
    forall n ensures n in SortByNewest(s) <==> n in s {
      assert n in SortByNewest(s) <==> n in multiset(SortByNewest(s));
    }
  }

  /** Every search result is a sale of the raffle that matches the term,
      and the page is ordered newest first. */
  lemma SearchResultsSound(ns: seq<NumberRow>, raffleId: nat, searchTerm: Option<string>,
                           opts: Option<PaginationOpts>)
    ensures var p := SearchResults(ns, raffleId, searchTerm, opts);
      && NewestFirst(p.results)
      && forall n :: n in p.results ==>
           && n in ns && n.raffleId == raffleId
           && (Filters(searchTerm) ==> Matches(n, ToLower(searchTerm.value)))
  {
    var f := MatchingNumbers(NumbersOfRaffle(ns, raffleId), searchTerm);
    SortByNewestOrdered(f);
    SortedMembers(f);
    PageWithin(SortByNewest(f), opts);
    PageOrdered(SortByNewest(f), opts);
  }

  /** The first page of an unfiltered search holds the 20 newest sales of
      the raffle (all of them when there are fewer), and it is the last page
      exactly when the raffle has at most 20. */
  lemma FirstPageIsNewestTwenty(ns: seq<NumberRow>, raffleId: nat)
    ensures var all := SortByNewest(NumbersOfRaffle(ns, raffleId));
      var p := SearchResults(ns, raffleId, Some(""), Some(PaginationOpts(20, Some(0))));
      && p.results == all[..if |all| < 20 then |all| else 20]
      && (p.isDone <==> |NumbersOfRaffle(ns, raffleId)| <= 20)
      && forall i, j :: 0 <= i < |p.results| <= j < |all| ==> p.results[i].createdAt >= all[j].createdAt
  {
    var raffle := NumbersOfRaffle(ns, raffleId);
    var all := SortByNewest(raffle);
    assert !Filters(Some("")) by { assert Trim("") == []; }
    assert MatchingNumbers(raffle, Some("")) == raffle;
    SortByNewestOrdered(raffle);
    var p := Paginate(all, Some(PaginationOpts(20, Some(0))));
    var m := if |all| < 20 then |all| else 20;
    assert |p.results| == m;
    assert p.results == all[..m];
    forall i, j | 0 <= i < |p.results| <= j < |all|
      ensures p.results[i].createdAt >= all[j].createdAt
    {
      assert p.results[i] == all[i];
    }
  }

  /** The results of following `nextCursor` from cursor `c` until `isDone`. */
  function FollowCursor(s: seq<NumberRow>, numItems: nat, c: nat): seq<NumberRow>
    decreases |s| - c
  {
    var p := Paginate(s, Some(PaginationOpts(numItems, Some(c))));
    if p.isDone then p.results else p.results + FollowCursor(s, numItems, p.nextCursor.value)
  }

  lemma {:induction false} FollowCursorFrom(s: seq<NumberRow>, numItems: nat, c: nat)
    requires c <= |s|
    ensures FollowCursor(s, numItems, c) == s[c..]
    decreases |s| - c
  {
    var p := Paginate(s, Some(PaginationOpts(numItems, Some(c))));
    var n := PageSize(Some(PaginationOpts(numItems, Some(c))));
    if p.isDone {
      assert p.results == s[c..];
    } else {
      FollowCursorFrom(s, numItems, c + n);
      assert p.results == s[c..c + n];
      assert s[c..] == s[c..c + n] + s[c + n..];
    }
  }

  /** Walking the pages from the start with the returned cursors yields
      every result exactly once, in order. */
  lemma PagesCoverResults(s: seq<NumberRow>, numItems: nat)
    ensures FollowCursor(s, numItems, 0) == s
  {
    FollowCursorFrom(s, numItems, 0);
  }
}
