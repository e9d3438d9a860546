/** Walking a user's notes page by page through the whole pipeline: query parsing at the gateway, two clamps
    to 32 bits, the use case's limits, LIMIT and OFFSET. The listing stays the same during the walk. */
module Pagination {
  import opened DomainErrors
  import opened Faults
  import opened NoteStore

  const MAX_INT32 := 0x7fff_ffff

  /** `queryInt`: the parsed value, or the default for a missing, malformed or negative one. */
  function QueryInt(parsed: Option<int>, default_: int): int {
    if parsed == None || parsed.value < 0 then default_ else parsed.value
  }

  /** The clamp that the gateway's use case and its client both apply. */
  function Clamp(value: int): int {
    if value > MAX_INT32 then MAX_INT32 else if value < 0 then 0 else value
  }

  /** The limit and the offset that reach the statement. */
  function LimitReaching(limit: Option<int>): nat {
    EffectiveLimit(Clamp(Clamp(QueryInt(limit, DEFAULT_LIMIT))))
  }

  function OffsetReaching(offset: Option<int>): nat {
    EffectiveOffset(Clamp(Clamp(QueryInt(offset, 0))))
  }

  function PageThrough<T>(listing: seq<T>, limit: Option<int>, offset: Option<int>): seq<T> {
    Page(listing, LimitReaching(limit), OffsetReaching(offset))
  }

  /** The limit that the response reports: the requested one. */
  function ReportedLimit(limit: Option<int>): int {
    QueryInt(limit, DEFAULT_LIMIT)
  }

  /** The first `pages` pages at offsets 0, step, 2 * step, and so on. */
  function Walk<T>(listing: seq<T>, limit: Option<int>, step: nat, pages: nat): seq<T> {
    if pages == 0 then []
    else Walk(listing, limit, step, pages - 1) + PageThrough(listing, limit, Some((pages - 1) * step))
  }

  // ---------------------------------------------------------------- the pipeline

  /** The limit that reaches the statement is between 1 and 100 whatever was asked for, and is the one asked
      for exactly when that lies there too. */
  lemma LimitInRange(limit: Option<int>)
    ensures 1 <= LimitReaching(limit) <= MAX_LIMIT
    ensures LimitReaching(limit) == ReportedLimit(limit) <==> 1 <= ReportedLimit(limit) <= MAX_LIMIT
  {
  }

  /** No page holds more than 100 notes. */
  lemma PagesAreSmall<T>(listing: seq<T>, limit: Option<int>, offset: Option<int>)
    ensures |PageThrough(listing, limit, offset)| <= MAX_LIMIT
  {
    LimitInRange(limit);
  }

  predicate Distinct<T(==)>(listing: seq<T>) {
    forall i, j | 0 <= i < j < |listing| :: listing[i] != listing[j]
  }

  /** The page at an offset inside the listing is the one asked for exactly when the offset fits 32 bits. */
  lemma OffsetHonoured<T>(listing: seq<T>, limit: Option<int>, offset: nat)
    requires Distinct(listing) && offset < |listing|
    ensures PageThrough(listing, limit, Some(offset)) == Page(listing, LimitReaching(limit), offset) <==>
            offset <= MAX_INT32
  {
    LimitInRange(limit);
    if offset > MAX_INT32 {
      assert PageThrough(listing, limit, Some(offset))[0] == listing[MAX_INT32];
      assert Page(listing, LimitReaching(limit), offset)[0] == listing[offset];
    }
  }

  // ---------------------------------------------------------------- walking by the effective limit

  function Least(a: nat, b: nat): nat {
    if a <= b then a else b
  }

  /** A page that begins where a prefix ends extends the prefix. */
  lemma PageExtends<T>(listing: seq<T>, limit: nat, from: nat)
    ensures listing[..Least(|listing|, from)] + Page(listing, limit, from) == listing[..Least(|listing|, from + limit)]
  {
  }

  lemma OffsetReaches(offset: nat)
    requires offset <= MAX_INT32
    ensures OffsetReaching(Some(offset)) == offset
  {
  }

  lemma OneStepBack(pages: nat, step: nat)
    requires pages > 0
    ensures (pages - 1) * step + step == pages * step && (pages - 1) * step >= 0
  {
  }

  lemma {:induction false} WalkIsPrefix<T>(listing: seq<T>, limit: Option<int>, step: nat, pages: nat)
    requires step == LimitReaching(limit)
    requires pages > 0 ==> (pages - 1) * step <= MAX_INT32
    ensures Walk(listing, limit, step, pages) == listing[..Least(|listing|, pages * step)]
  {
    if pages > 0 {
      OneStepBack(pages, step);
      if pages > 1 {
        OneStepBack(pages - 1, step);
      }
      WalkIsPrefix(listing, limit, step, pages - 1);
      OffsetReaches((pages - 1) * step);
      PageExtends(listing, step, (pages - 1) * step);
    }
  }

  /** Walking by the effective limit yields every note exactly once and in order, for every listing whose
      last page begins within 32 bits, so for every listing of at most 2^31 notes. */
  lemma WalkPartitions<T>(listing: seq<T>, limit: Option<int>, pages: nat)
    requires pages * LimitReaching(limit) >= |listing|
    requires pages > 0 ==> (pages - 1) * LimitReaching(limit) <= MAX_INT32
    ensures Walk(listing, limit, LimitReaching(limit), pages) == listing
  {
    WalkIsPrefix(listing, limit, LimitReaching(limit), pages);
    assert listing[..|listing|] == listing;
  }

  /** A number of pages that does for a listing of at most 2^31 notes. */
  lemma EnoughPages(size: nat, limit: Option<int>) returns (pages: nat)
    requires size <= MAX_INT32 + 1
    ensures pages * LimitReaching(limit) >= size
    ensures pages > 0 ==> (pages - 1) * LimitReaching(limit) < size && (pages - 1) * LimitReaching(limit) <= MAX_INT32
  {
    var step := LimitReaching(limit);
    LimitInRange(limit);
    pages := (size + step - 1) / step;
    assert pages * step + (size + step - 1) % step == size + step - 1;
    assert pages > 0 ==> (pages - 1) * step == pages * step - step;
  }

  /** So every listing of at most 2^31 notes is walked whole, whatever limit was asked for, with no page after
      the last note. */
  lemma EveryListingIsWalked<T>(listing: seq<T>, limit: Option<int>) returns (pages: nat)
    requires |listing| <= MAX_INT32 + 1
    ensures Walk(listing, limit, LimitReaching(limit), pages) == listing
    ensures pages > 0 ==> (pages - 1) * LimitReaching(limit) < |listing|
  {
    pages := EnoughPages(|listing|, limit);
    WalkPartitions(listing, limit, pages);
  }

  // ---------------------------------------------------------------- walking by the reported limit

  /** With a reported limit outside 1 to 100, the hundred-and-first note of the listing is on no page. */
  lemma {:induction false} ReportedLimitSkips<T>(listing: seq<T>, limit: Option<int>, pages: nat)
    requires Distinct(listing) && |listing| > MAX_LIMIT
    requires !(1 <= ReportedLimit(limit) <= MAX_LIMIT)
    ensures listing[MAX_LIMIT] !in Walk(listing, limit, ReportedLimit(limit), pages)
  {
    if pages > 0 {
      var step: nat := ReportedLimit(limit);
      var page := PageThrough(listing, limit, Some((pages - 1) * step));
      assert Walk(listing, limit, step, pages) == Walk(listing, limit, step, pages - 1) + page;
      assert listing[MAX_LIMIT] !in Walk(listing, limit, step, pages - 1) by {
        ReportedLimitSkips(listing, limit, pages - 1);
      }
      assert listing[MAX_LIMIT] !in page by {
        PageSkips(listing, limit, pages - 1);
      }
    }
  }

  lemma StepsPast(k: nat, step: nat)
    requires step == 0 || step > MAX_LIMIT
    ensures k * step == 0 || k * step > MAX_LIMIT
  {
    if k > 0 {
      assert k * step >= step;
    }
  }

  lemma PageSkips<T>(listing: seq<T>, limit: Option<int>, k: nat)
    requires Distinct(listing) && |listing| > MAX_LIMIT
    requires !(1 <= ReportedLimit(limit) <= MAX_LIMIT)
    ensures listing[MAX_LIMIT] !in PageThrough(listing, limit, Some(k * ReportedLimit(limit)))
  {
    var step: nat := ReportedLimit(limit);
    StepsPast(k, step);
    LimitInRange(limit);
    var from := OffsetReaching(Some(k * step));
    assert from == 0 || from > MAX_LIMIT;
    var page := PageThrough(listing, limit, Some(k * step));
    assert forall i | 0 <= i < |page| :: page[i] == listing[from + i];
  }

  /** A client that steps by the limit the response reports sees a longer listing whole exactly when it asked
      for 1 to 100 notes a page. */
  lemma ReportedLimitWorksExactly<T>(listing: seq<T>, limit: Option<int>, pages: nat)
    requires Distinct(listing) && |listing| > MAX_LIMIT
    requires pages * LimitReaching(limit) >= |listing| && (pages - 1) * LimitReaching(limit) <= MAX_INT32
    ensures Walk(listing, limit, ReportedLimit(limit), pages) == listing <==> 1 <= ReportedLimit(limit) <= MAX_LIMIT
  {
    LimitInRange(limit);
    if 1 <= ReportedLimit(limit) <= MAX_LIMIT {
      WalkPartitions(listing, limit, pages);
    } else {
      ReportedLimitSkips(listing, limit, pages);
      assert listing[MAX_LIMIT] in listing;
    }
  }

  // ---------------------------------------------------------------- the listing itself

  predicate LatestFirst(rows: seq<Row>) {
    forall i, j | 0 <= i < j < |rows| :: rows[i].updatedAt >= rows[j].updatedAt
  }

  lemma {:induction false} InsertKeepsRows(row: Row, sorted: seq<Row>)
    ensures multiset(InsertByTime(row, sorted)) == multiset(sorted) + multiset{row}
  {
    if sorted != [] {
      assert sorted == [sorted[0]] + sorted[1..];
      InsertKeepsRows(row, sorted[1..]);
    }
  }

  lemma {:induction false} InsertKeepsOrder(row: Row, sorted: seq<Row>)
    requires LatestFirst(sorted)
    ensures LatestFirst(InsertByTime(row, sorted))
    ensures InsertByTime(row, sorted)[0].updatedAt ==
            if sorted == [] || row.updatedAt >= sorted[0].updatedAt then row.updatedAt else sorted[0].updatedAt
  {
    if sorted != [] && row.updatedAt < sorted[0].updatedAt {
      InsertKeepsOrder(row, sorted[1..]);
    }
  }

  /** The listing holds exactly the user's rows, latest update first. */
  lemma {:induction false} ListingIsSorted(rows: seq<Row>)
    ensures LatestFirst(ByTime(rows)) && multiset(ByTime(rows)) == multiset(rows)
  {
    if rows != [] {
      ListingIsSorted(rows[1..]);
      InsertKeepsOrder(rows[0], ByTime(rows[1..]));
      InsertKeepsRows(rows[0], ByTime(rows[1..]));
      assert rows == [rows[0]] + rows[1..];
    }
  }

  lemma {:induction false} OwnRowsExactly(rows: seq<Row>, user: string, r: Row)
    ensures multiset(OwnRows(rows, user))[r] == if r.userId == user then multiset(rows)[r] else 0
  {
    if rows != [] {
      OwnRowsExactly(rows[1..], user, r);
      assert rows == [rows[0]] + rows[1..];
    }
  }

  /** Every note of the user, and nobody else's, appears in the walk as often as in the table. */
  lemma WalkYieldsOwnNotes(rows: seq<Row>, user: string, limit: Option<int>, pages: nat, r: Row)
    requires pages * LimitReaching(limit) >= |Listing(rows, user)|
    requires pages > 0 ==> (pages - 1) * LimitReaching(limit) <= MAX_INT32
    ensures var walked := Walk(Listing(rows, user), limit, LimitReaching(limit), pages);
            LatestFirst(walked) &&
            multiset(walked)[r] == if r.userId == user then multiset(rows)[r] else 0
  {
    WalkPartitions(Listing(rows, user), limit, pages);
    ListingIsSorted(OwnRows(rows, user));
    OwnRowsExactly(rows, user, r);
  }

  // ---------------------------------------------------------------- ListNotes

  /** The reply of `ListNotes` to a query, when its statements work. */
  function ListReply(rows: seq<Row>, user: string, limit: Option<int>, offset: Option<int>): Reply {
    Listed(rows, user, Clamp(Clamp(QueryInt(limit, 10))), Clamp(Clamp(QueryInt(offset, 0))),
           Env(NoFault, NoFault, "", 0, 0))
  }

  /** What the replies to a walk list, one after the other. */
  function ListWalk(rows: seq<Row>, user: string, limit: Option<int>, step: nat, pages: nat): seq<Row> {
    if pages == 0 then []
    else
      ListWalk(rows, user, limit, step, pages - 1) +
      match ListReply(rows, user, limit, Some((pages - 1) * step)) { case Notes(page, _) => page case _ => [] }
  }

  /** `ListNotes` answers the page that the pipeline asks for, and counts all the user's notes. */
  lemma ListNotesPages(rows: seq<Row>, user: string, limit: Option<int>, offset: Option<int>)
    ensures ListReply(rows, user, limit, offset) ==
            Notes(PageThrough(Listing(rows, user), limit, offset), |OwnRows(rows, user)|)
  {
  }

  lemma {:induction false} ListWalkIsWalk(rows: seq<Row>, user: string, limit: Option<int>, step: nat, pages: nat)
    ensures ListWalk(rows, user, limit, step, pages) == Walk(Listing(rows, user), limit, step, pages)
  {
    if pages > 0 {
      ListWalkIsWalk(rows, user, limit, step, pages - 1);
      ListNotesPages(rows, user, limit, Some((pages - 1) * step));
    }
  }

  /** Walking with `ListNotes`: for every table with at most 2^31 notes of the user, and every limit asked for,
      the replies together list each note of the user as often as the table holds it, and nobody else's,
      latest update first, and each reply counts exactly as many notes as the walk lists. */
  lemma ListWalkYieldsOwnNotes(rows: seq<Row>, user: string, limit: Option<int>, r: Row) returns (pages: nat)
    requires |Listing(rows, user)| <= MAX_INT32 + 1
    ensures var walked := ListWalk(rows, user, limit, LimitReaching(limit), pages);
            && LatestFirst(walked)
            && multiset(walked)[r] == (if r.userId == user then multiset(rows)[r] else 0)
            && forall offset :: ListReply(rows, user, limit, offset).Notes? &&
                                ListReply(rows, user, limit, offset).total == |walked|
  {
    var listing := Listing(rows, user);
    pages := EveryListingIsWalked(listing, limit);
    ListWalkIsWalk(rows, user, limit, LimitReaching(limit), pages);
    ListingIsSorted(OwnRows(rows, user));
    OwnRowsExactly(rows, user, r);
    SameSize(listing, OwnRows(rows, user));
    forall offset ensures ListReply(rows, user, limit, offset).Notes? {
      ListNotesPages(rows, user, limit, offset);
    }
  }

  lemma SameSize(a: seq<Row>, b: seq<Row>)
    requires multiset(a) == multiset(b)
    ensures |a| == |b|
  {
    assert |multiset(a)| == |a| && |multiset(b)| == |b|;
  }

  /** A clamped value is the 32-bit one, not negative, that is nearest to what was asked for. */
  lemma ClampIsNearest(value: int, other: int)
    requires 0 <= other <= 0x7fff_ffff
    ensures 0 <= Clamp(value) <= 0x7fff_ffff
    ensures (if value >= Clamp(value) then value - Clamp(value) else Clamp(value) - value)
            <= (if value >= other then value - other else other - value)
  {
  }

  /** For the use case by itself, a negative offset is the first page. */
  lemma NegativeOffsetIsFirstPage(rows: seq<Row>, user: string, limit: int, offset: int, env: Env)
    requires offset <= 0 && env.first == env.second == NoFault
    ensures Listed(rows, user, limit, offset, env) ==
            Notes(Page(Listing(rows, user), EffectiveLimit(limit), 0), |OwnRows(rows, user)|)
  {
  }

  /** Which limit applies: 10 when none, nothing sensible or 0 was asked for, at most 100, and otherwise the one
      asked for. */
  lemma LimitApplied(limit: Option<int>)
    ensures limit == None || limit.value <= 0 ==> LimitReaching(limit) == 10
    ensures limit.Some? && 1 <= limit.value <= 100 ==> LimitReaching(limit) == limit.value
    ensures limit.Some? && limit.value > 100 ==> LimitReaching(limit) == 100
  {
  }
}
