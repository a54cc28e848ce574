/** Cursor pagination of a chat's messages: what a client collects by following `nextCursor`. */
module Paging {
  import opened Base
  import opened Query
  import opened Schema

  datatype Page = Page(data: seq<Id>, nextCursor: Option<Id>)

  function Times(all: map<Id, Message>): map<Id, Time> {
    map m | m in all :: all[m].createdAt
  }

  /** The chat's messages strictly older than `before`, if a bound is given. */
  function Visible(all: map<Id, Message>, chat: Id, before: Option<Time>): set<Id> {
    set m | m in all && all[m].chatId == chat && (before.Some? ==> all[m].createdAt < before.value)
  }

  /** A cursor that names no stored message puts no bound on the page. */
  function CursorFilter(all: map<Id, Message>, cursor: Option<Id>): Option<Time> {
    if cursor.Some? && cursor.value in all then Some(all[cursor.value].createdAt) else None
  }

  /** One row more than the limit tells whether there is a next page. */
  function Trim(rows: seq<Id>, limit: nat): Page
    requires limit > 0
  {
    if |rows| > limit then Page(rows[..limit], Some(rows[limit - 1])) else Page(rows, None)
  }

  ghost predicate PageBefore(all: map<Id, Message>, chat: Id, before: Option<Time>, limit: nat, page: Page)
    requires limit > 0
  {
    exists rows :: Top(Visible(all, chat, before), Times(all), limit + 1, rows) && page == Trim(rows, limit)
  }

  /** `page` is a possible answer of `getMessages`; ties may fall in any order. */
  ghost predicate Answers(all: map<Id, Message>, chat: Id, cursor: Option<Id>, limit: nat, page: Page)
    requires limit > 0
  {
    PageBefore(all, chat, CursorFilter(all, cursor), limit, page)
  }

  lemma PageRows(all: map<Id, Message>, chat: Id, before: Option<Time>, limit: nat, page: Page)
    requires limit > 0 && PageBefore(all, chat, before, limit, page)
    ensures Elements(page.data) <= Visible(all, chat, before)
    ensures Distinct(page.data) && Elements(page.data) <= Times(all).Keys && Descending(Times(all), page.data)
  {
    var rows :| Top(Visible(all, chat, before), Times(all), limit + 1, rows) && page == Trim(rows, limit);
    assert forall x :: x in page.data ==> x in Elements(rows);
  }

  /** A cursor whose message is gone silently restarts at page one. */
  lemma LostCursorRestarts(all: map<Id, Message>, chat: Id, cursor: Id, limit: nat, page: Page)
    requires limit > 0
    ensures cursor !in all ==> (Answers(all, chat, Some(cursor), limit, page) <==> Answers(all, chat, None, limit, page))
    ensures cursor in all && Answers(all, chat, Some(cursor), limit, page) ==> cursor !in page.data
  {
    if cursor in all && Answers(all, chat, Some(cursor), limit, page) {
      PageRows(all, chat, Some(all[cursor].createdAt), limit, page);
      assert cursor in page.data ==> cursor in Elements(page.data);
    }
  }

  // ---- following the cursor ----

  /** What the k-th call sends: nothing at first, then the cursor it was last given. */
  function CursorAt(pages: seq<Page>, k: nat): Option<Id>
    requires k < |pages|
  {
    if k == 0 then None else pages[k - 1].nextCursor
  }

  /** The k-th call goes on from the call before it and is answered from the store it meets. */
  ghost predicate Call(snaps: seq<map<Id, Message>>, chat: Id, limit: nat, pages: seq<Page>, k: nat)
    requires limit > 0 && |snaps| == |pages| && k < |pages|
  {
    (k > 0 ==> CursorAt(pages, k).Some?) && Answers(snaps[k], chat, CursorAt(pages, k), limit, pages[k])
  }

  /** The answers a client collects; the k-th call meets the store `snaps[k]`. */
  ghost predicate Walk(snaps: seq<map<Id, Message>>, chat: Id, limit: nat, pages: seq<Page>)
    requires limit > 0
  {
    |snaps| == |pages| && forall k :: 0 <= k < |pages| ==> Call(snaps, chat, limit, pages, k)
  }

  predicate Finished(pages: seq<Page>) {
    pages != [] && pages[|pages| - 1].nextCursor == None
  }

  /** Rows are never edited, nothing is deleted from the chat, and what is appended is no older than what was there. */
  ghost predicate OnlyAppends(all: map<Id, Message>, later: map<Id, Message>, chat: Id) {
    && (forall m :: m in all && all[m].chatId == chat ==> m in later)
    && (forall m :: m in all && m in later ==> later[m] == all[m])
    && (forall m, n :: m in later && later[m].chatId == chat && m !in all && n in all && all[n].chatId == chat ==>
          later[m].createdAt >= all[n].createdAt)
  }

  ghost predicate Appending(snaps: seq<map<Id, Message>>, chat: Id) {
    forall k :: 0 <= k < |snaps| ==> OnlyAppends(snaps[0], snaps[k], chat)
  }

  /** The same walk over one fixed store, `before` bounding its first page. */
  ghost predicate FixedWalk(all: map<Id, Message>, chat: Id, before: Option<Time>, limit: nat, pages: seq<Page>)
    requires limit > 0
    decreases |pages|
  {
    pages != [] ==>
      && PageBefore(all, chat, before, limit, pages[0])
      && (|pages| > 1 ==>
            && pages[0].nextCursor.Some? && pages[0].nextCursor.value in all
            && FixedWalk(all, chat, Some(all[pages[0].nextCursor.value].createdAt), limit, pages[1..]))
  }

  function Shown(pages: seq<Page>): seq<Id> {
    if pages == [] then [] else pages[0].data + Shown(pages[1..])
  }

  lemma LastPage(all: map<Id, Message>, chat: Id, before: Option<Time>, limit: nat, page: Page)
    requires limit > 0 && PageBefore(all, chat, before, limit, page) && page.nextCursor.None?
    ensures Elements(page.data) == Visible(all, chat, before) && |Visible(all, chat, before)| <= limit
  {
    var s := Visible(all, chat, before);
    var rows :| Top(s, Times(all), limit + 1, rows) && page == Trim(rows, limit);
    TopLeaves(s, Times(all), limit + 1, rows);
  }

  lemma TopCut(s: set<Id>, key: map<Id, Time>, limit: nat, rows: seq<Id>)
    requires limit > 0 && Top(s, key, limit + 1, rows) && |rows| > limit
    ensures rows[limit - 1] in s
    ensures forall x :: x in s && x !in rows[..limit] ==> key[x] <= key[rows[limit - 1]]
  {
    assert rows == rows[..limit] + [rows[limit]];
    assert rows[limit - 1] in Elements(rows) && rows[limit] in Elements(rows);
    assert key[rows[limit]] <= key[rows[limit - 1]];
    forall x | x in s && x !in rows[..limit] ensures key[x] <= key[rows[limit - 1]] {
      assert x in rows ==> x == rows[limit];
    }
  }

  /** A page that is not the last is full, and what it does not show is no newer than what it does. */
  lemma InnerPage(all: map<Id, Message>, chat: Id, before: Option<Time>, limit: nat, page: Page)
    requires limit > 0 && PageBefore(all, chat, before, limit, page) && page.nextCursor.Some?
    ensures |page.data| == limit && |Visible(all, chat, before)| > limit
    ensures page.nextCursor.value == page.data[limit - 1] && page.data[limit - 1] in all
    ensures forall x :: x in Visible(all, chat, before) && x !in page.data ==>
              Times(all)[x] <= Times(all)[page.data[limit - 1]]
  {
    var s, key := Visible(all, chat, before), Times(all);
    var rows :| Top(s, key, limit + 1, rows) && page == Trim(rows, limit);
    TopCut(s, key, limit, rows);
  }

  // ---- one page ----

  /** The messages a cursor asks for: those of the chat, and older than the cursor's message if that still exists. */
  predicate AskedFor(all: map<Id, Message>, chat: Id, cursor: Option<Id>, m: Id) {
    && m in all && all[m].chatId == chat
    && (cursor.Some? && cursor.value in all ==> all[m].createdAt < all[cursor.value].createdAt)
  }

  ghost predicate NewestFirst(all: map<Id, Message>, rows: seq<Id>) {
    forall i, j :: 0 <= i < j < |rows| ==>
      rows[i] != rows[j] && rows[i] in all && rows[j] in all && all[rows[i]].createdAt >= all[rows[j]].createdAt
  }

  /** A page shows asked-for messages only, each once, newest first, at most `limit` of them; either it shows all of them,
      or it is full, its last row is the next cursor, and what it leaves out, which is something, is no newer than that. */
  ghost predicate IsPage(all: map<Id, Message>, chat: Id, cursor: Option<Id>, limit: nat, page: Page) {
    && |page.data| <= limit
    && (forall m :: m in page.data ==> AskedFor(all, chat, cursor, m))
    && NewestFirst(all, page.data)
    && (page.nextCursor.None? ==> forall m :: AskedFor(all, chat, cursor, m) ==> m in page.data)
    && (page.nextCursor.Some? ==>
          && |page.data| == limit && limit > 0 && page.nextCursor.value == page.data[limit - 1] && page.nextCursor.value in all
          && (exists m :: AskedFor(all, chat, cursor, m) && m !in page.data)
          && forall m :: AskedFor(all, chat, cursor, m) && m !in page.data ==>
               all[m].createdAt <= all[page.nextCursor.value].createdAt)
  }

  lemma MoreThanShown(s: set<Id>, rows: seq<Id>)
    requires |s| > |rows| && Distinct(rows)
    ensures exists m :: m in s && m !in rows
  {
    DistinctCount(rows);
    if forall m :: m in s ==> m in rows {
      assert s <= Elements(rows);
      SubsetCount(s, Elements(rows));
    }
  }

  lemma DescendingIsNewestFirst(all: map<Id, Message>, rows: seq<Id>)
    requires Distinct(rows) && Elements(rows) <= Times(all).Keys && Descending(Times(all), rows)
    ensures NewestFirst(all, rows)
  {
    forall i, j | 0 <= i < j < |rows|
      ensures rows[i] in all && rows[j] in all && all[rows[i]].createdAt >= all[rows[j]].createdAt
    {
      assert rows[i] in Elements(rows) && rows[j] in Elements(rows);
      assert Times(all)[rows[i]] >= Times(all)[rows[j]];
    }
  }

  lemma PageMeaning(all: map<Id, Message>, chat: Id, cursor: Option<Id>, limit: nat, page: Page)
    requires limit > 0 && Answers(all, chat, cursor, limit, page)
    ensures IsPage(all, chat, cursor, limit, page)
  {
    var before := CursorFilter(all, cursor);
    var s := Visible(all, chat, before);
    assert forall m :: m in s <==> AskedFor(all, chat, cursor, m);
    PageRows(all, chat, before, limit, page);
    DescendingIsNewestFirst(all, page.data);
    forall m | m in page.data ensures m in s {
      assert m in Elements(page.data);
    }
    if page.nextCursor.None? {
      LastPage(all, chat, before, limit, page);
      DistinctCount(page.data);
    } else {
      InnerPage(all, chat, before, limit, page);
      MoreThanShown(s, page.data);
    }
  }

  /** Whatever rows the store returns make such a page. */
  lemma RowsMakeAPage(all: map<Id, Message>, chat: Id, cursor: Option<Id>, limit: nat, rows: seq<Id>)
    requires limit > 0 && Top(Visible(all, chat, CursorFilter(all, cursor)), Times(all), limit + 1, rows)
    ensures Answers(all, chat, cursor, limit, Trim(rows, limit)) && IsPage(all, chat, cursor, limit, Trim(rows, limit))
  {
    PageMeaning(all, chat, cursor, limit, Trim(rows, limit));
  }

  lemma HeadIsNewest(all: map<Id, Message>, rows: seq<Id>, k: nat)
    requires NewestFirst(all, rows) && k < |rows| && rows[0] in all
    ensures rows[k] in all && all[rows[0]].createdAt >= all[rows[k]].createdAt
  {
  }

  /** A message newer than everything else in its chat heads the first page. */
  lemma NewestHeadsPage(all: map<Id, Message>, chat: Id, limit: nat, page: Page, id: Id)
    requires limit > 0 && Answers(all, chat, None, limit, page) && id in all && all[id].chatId == chat
    requires forall m :: m in all && all[m].chatId == chat && m != id ==> all[m].createdAt < all[id].createdAt
    ensures page.data != [] && page.data[0] == id
  {
    PageMeaning(all, chat, None, limit, page);
    assert AskedFor(all, chat, None, id);
    assert page.nextCursor.Some? ==> page.nextCursor.value in page.data && AskedFor(all, chat, None, page.nextCursor.value);
    assert id in page.data;
    var k :| 0 <= k < |page.data| && page.data[k] == id;
    assert page.data[0] in page.data && AskedFor(all, chat, None, page.data[0]);
    HeadIsNewest(all, page.data, k);
  }

  /** The newer of two bounds sees everything the older one sees. */
  lemma CursorSees(all: map<Id, Message>, chat: Id, before: Option<Time>, limit: nat, page: Page)
    requires limit > 0 && PageBefore(all, chat, before, limit, page) && page.nextCursor.Some?
    ensures page.nextCursor.value in all
    ensures var rest := Visible(all, chat, Some(all[page.nextCursor.value].createdAt));
            && rest <= Visible(all, chat, before) && rest !! Elements(page.data)
            && |rest| <= |Visible(all, chat, before)| - limit
  {
    PageRows(all, chat, before, limit, page);
    InnerPage(all, chat, before, limit, page);
    var last := page.data[limit - 1];
    var s, rest := Visible(all, chat, before), Visible(all, chat, Some(all[last].createdAt));
    assert last in Elements(page.data);
    forall x | x in page.data ensures x !in rest {
      var i :| 0 <= i < |page.data| && page.data[i] == x;
      assert Times(all)[page.data[i]] >= Times(all)[last];
    }
    DistinctCount(page.data);
    SubsetCount(Elements(page.data) + rest, s);
    assert |Elements(page.data) + rest| == limit + |rest|;
  }

  /** Pages of `limit` rows needed for n rows, at least one: the p >= 1 with (p - 1) * limit < n <= p * limit. */
  function PageCount(n: nat, limit: nat): nat
    requires limit > 0
  {
    if n <= limit then 1 else 1 + PageCount(n - limit, limit)
  }

  lemma {:induction false} PageCountIsCeiling(n: nat, limit: nat)
    requires limit > 0
    ensures PageCount(n, limit) >= 1 && n <= PageCount(n, limit) * limit
    ensures n > 0 ==> (PageCount(n, limit) - 1) * limit < n
  {
    if n > limit {
      PageCountIsCeiling(n - limit, limit);
      assert PageCount(n, limit) * limit == limit + PageCount(n - limit, limit) * limit;
      assert (PageCount(n, limit) - 1) * limit == limit + (PageCount(n - limit, limit) - 1) * limit;
    }
  }

  lemma {:induction false} PageCountGrows(n: nat, m: nat, limit: nat)
    requires limit > 0 && n <= m
    ensures PageCount(n, limit) <= PageCount(m, limit)
  {
    if n > limit {
      PageCountGrows(n - limit, m - limit, limit);
    }
  }

  ghost predicate DistinctTimes(all: map<Id, Message>, s: set<Id>)
    requires s <= all.Keys
  {
    forall x, y :: x in s && y in s && all[x].createdAt == all[y].createdAt ==> x == y
  }

  ghost predicate CutOffBy(all: map<Id, Message>, page: Page, x: Id)
    requires x in all
  {
    && page.nextCursor.Some? && page.nextCursor.value in all
    && all[x].createdAt == all[page.nextCursor.value].createdAt
    && x !in page.data
  }

  /** `x` is cut off by a page boundary: it shares its time with the last row of a page that is not the last one,
      and is not on that page. */
  ghost predicate CutOff(all: map<Id, Message>, pages: seq<Page>, x: Id)
    requires x in all
  {
    exists k :: 0 <= k < |pages| - 1 && CutOffBy(all, pages[k], x)
  }

  /** However ties fall, a walk is never longer than the page count of what it started with. */
  lemma {:induction false} WalkIsShort(all: map<Id, Message>, chat: Id, before: Option<Time>, limit: nat, pages: seq<Page>)
    requires limit > 0 && FixedWalk(all, chat, before, limit, pages)
    ensures |pages| <= PageCount(|Visible(all, chat, before)|, limit)
    decreases |pages|
  {
    if |pages| > 1 {
      CursorSees(all, chat, before, limit, pages[0]);
      InnerPage(all, chat, before, limit, pages[0]);
      var next := Some(all[pages[0].nextCursor.value].createdAt);
      WalkIsShort(all, chat, next, limit, pages[1..]);
      PageCountGrows(|Visible(all, chat, next)|, |Visible(all, chat, before)| - limit, limit);
    }
  }

  lemma JoinDescending(key: map<Id, Time>, head: seq<Id>, tail: seq<Id>, bound: Time)
    requires Elements(head) <= key.Keys && Elements(tail) <= key.Keys
    requires Distinct(head) && Distinct(tail) && Descending(key, head) && Descending(key, tail)
    requires (forall x :: x in Elements(head) ==> key[x] >= bound) && (forall x :: x in Elements(tail) ==> key[x] < bound)
    ensures Elements(head + tail) == Elements(head) + Elements(tail) && Distinct(head + tail) && Descending(key, head + tail)
  {
    forall i, j | 0 <= i < |head| && 0 <= j < |tail| ensures head[i] != tail[j] && key[head[i]] >= key[tail[j]] {
      assert tail[j] in Elements(tail) && head[i] in Elements(head);
    }
    assert forall x :: x in head + tail <==> x in head || x in tail;
  }

  lemma AtLeastTheCursor(all: map<Id, Message>, chat: Id, before: Option<Time>, limit: nat, page: Page)
    requires limit > 0 && PageBefore(all, chat, before, limit, page) && page.nextCursor.Some?
    ensures Elements(page.data) <= Times(all).Keys && page.nextCursor.value in all
    ensures forall x :: x in Elements(page.data) ==> Times(all)[x] >= all[page.nextCursor.value].createdAt
  {
    PageRows(all, chat, before, limit, page);
    InnerPage(all, chat, before, limit, page);
    forall x | x in Elements(page.data) ensures Times(all)[x] >= Times(all)[page.data[limit - 1]] {
      var i :| 0 <= i < |page.data| && page.data[i] == x;
    }
  }

  /** However ties fall, a walk stays within what was visible, repeats nothing and never goes back in time. */
  lemma {:induction false} WalkIsOrdered(all: map<Id, Message>, chat: Id, before: Option<Time>, limit: nat, pages: seq<Page>)
    requires limit > 0 && FixedWalk(all, chat, before, limit, pages)
    ensures Elements(Shown(pages)) <= Visible(all, chat, before)
    ensures Elements(Shown(pages)) <= Times(all).Keys
    ensures Distinct(Shown(pages)) && Descending(Times(all), Shown(pages))
    decreases |pages|
  {
    if |pages| == 1 {
      PageRows(all, chat, before, limit, pages[0]);
      assert Shown(pages) == pages[0].data;
    } else if |pages| > 1 {
      PageRows(all, chat, before, limit, pages[0]);
      CursorSees(all, chat, before, limit, pages[0]);
      AtLeastTheCursor(all, chat, before, limit, pages[0]);
      var bound := all[pages[0].nextCursor.value].createdAt;
      WalkIsOrdered(all, chat, Some(bound), limit, pages[1..]);
      JoinDescending(Times(all), pages[0].data, Shown(pages[1..]), bound);
    }
  }

  lemma CutOffLater(all: map<Id, Message>, pages: seq<Page>, x: Id)
    requires x in all && |pages| > 1 && !CutOffBy(all, pages[0], x)
    ensures CutOff(all, pages, x) <==> CutOff(all, pages[1..], x)
  {
    if CutOff(all, pages, x) {
      var k :| 0 <= k < |pages| - 1 && CutOffBy(all, pages[k], x);
      assert pages[1..][k - 1] == pages[k];
    }
    if CutOff(all, pages[1..], x) {
      var k :| 0 <= k < |pages[1..]| - 1 && CutOffBy(all, pages[1..][k], x);
      assert pages[k + 1] == pages[1..][k];
    }
  }

  /** Later boundaries lie strictly below everything on the first page. */
  lemma {:induction false} BoundariesDescend(all: map<Id, Message>, chat: Id, before: Option<Time>, limit: nat, pages: seq<Page>, k: nat)
    requires limit > 0 && FixedWalk(all, chat, before, limit, pages) && k < |pages| - 1
    ensures pages[k].nextCursor.Some? && pages[k].nextCursor.value in Visible(all, chat, before)
    decreases k
  {
    InnerPage(all, chat, before, limit, pages[0]);
    PageRows(all, chat, before, limit, pages[0]);
    CursorSees(all, chat, before, limit, pages[0]);
    assert pages[0].data[limit - 1] in Elements(pages[0].data);
    if k > 0 {
      BoundariesDescend(all, chat, Some(all[pages[0].nextCursor.value].createdAt), limit, pages[1..], k - 1);
    }
  }

  lemma ShownIsNotCutOff(all: map<Id, Message>, chat: Id, before: Option<Time>, limit: nat, pages: seq<Page>, x: Id)
    requires limit > 0 && FixedWalk(all, chat, before, limit, pages) && |pages| > 1 && x in pages[0].data && x in all
    requires pages[0].nextCursor.value in all && all[x].createdAt >= all[pages[0].nextCursor.value].createdAt
    ensures !CutOff(all, pages, x)
  {
    forall k | 0 <= k < |pages| - 1 ensures !CutOffBy(all, pages[k], x) {
      if k > 0 {
        BoundariesDescend(all, chat, Some(all[pages[0].nextCursor.value].createdAt), limit, pages[1..], k - 1);
      }
    }
  }

  /** What a finished walk omits is exactly what page boundaries cut off. */
  lemma {:induction false} WalkOmits(all: map<Id, Message>, chat: Id, before: Option<Time>, limit: nat, pages: seq<Page>, x: Id)
    requires limit > 0 && FixedWalk(all, chat, before, limit, pages) && Finished(pages)
    requires x in Visible(all, chat, before)
    ensures x !in Shown(pages) <==> CutOff(all, pages, x)
    decreases |pages|
  {
    if |pages| == 1 {
      LastPage(all, chat, before, limit, pages[0]);
      assert Shown(pages) == pages[0].data + [];
      assert x in Elements(pages[0].data);
    } else {
      InnerPage(all, chat, before, limit, pages[0]);
      CursorSees(all, chat, before, limit, pages[0]);
      var next := Some(all[pages[0].nextCursor.value].createdAt);
      WalkIsOrdered(all, chat, next, limit, pages[1..]);
      assert x in Shown(pages) <==> x in pages[0].data || x in Elements(Shown(pages[1..]));
      if x in Visible(all, chat, next) {
        WalkOmits(all, chat, next, limit, pages[1..], x);
        CutOffLater(all, pages, x);
      } else if x in pages[0].data {
        ShownIsNotCutOff(all, chat, before, limit, pages, x);
      } else {
        assert CutOffBy(all, pages[0], x);
      }
    }
  }

  /** With distinct times a page takes exactly its rows off what remains. */
  lemma DistinctRest(all: map<Id, Message>, chat: Id, before: Option<Time>, limit: nat, page: Page)
    requires limit > 0 && PageBefore(all, chat, before, limit, page) && page.nextCursor.Some?
    requires DistinctTimes(all, Visible(all, chat, before))
    ensures page.nextCursor.value in all
    ensures var rest := Visible(all, chat, Some(all[page.nextCursor.value].createdAt));
            rest <= Visible(all, chat, before) && |rest| == |Visible(all, chat, before)| - limit
  {
    InnerPage(all, chat, before, limit, page);
    PageRows(all, chat, before, limit, page);
    CursorSees(all, chat, before, limit, page);
    var last := page.data[limit - 1];
    var s, rest := Visible(all, chat, before), Visible(all, chat, Some(all[last].createdAt));
    assert last in Elements(page.data);
    assert rest == s - Elements(page.data);
    DistinctCount(page.data);
    SubsetCount(Elements(page.data), s);
  }

  lemma {:induction false} WalkLength(all: map<Id, Message>, chat: Id, before: Option<Time>, limit: nat, pages: seq<Page>)
    requires limit > 0 && FixedWalk(all, chat, before, limit, pages) && Finished(pages)
    requires DistinctTimes(all, Visible(all, chat, before))
    ensures |pages| == PageCount(|Visible(all, chat, before)|, limit)
    decreases |pages|
  {
    if |pages| == 1 {
      LastPage(all, chat, before, limit, pages[0]);
    } else {
      InnerPage(all, chat, before, limit, pages[0]);
      DistinctRest(all, chat, before, limit, pages[0]);
      WalkLength(all, chat, Some(all[pages[0].nextCursor.value].createdAt), limit, pages[1..]);
    }
  }

  lemma TopSameKeys(s: set<Id>, key: map<Id, Time>, other: map<Id, Time>, k: nat, rows: seq<Id>)
    requires Top(s, key, k, rows) && s <= other.Keys && forall x :: x in s ==> other[x] == key[x]
    ensures Top(s, other, k, rows)
  {
    forall i | 0 <= i < |rows| ensures rows[i] in s {
      assert rows[i] in Elements(rows);
    }
  }

  lemma AppendsAreUnseen(all: map<Id, Message>, later: map<Id, Message>, chat: Id, cursor: Id, limit: nat, page: Page)
    requires limit > 0 && OnlyAppends(all, later, chat) && cursor in Visible(all, chat, None)
    requires Answers(later, chat, Some(cursor), limit, page)
    ensures PageBefore(all, chat, Some(all[cursor].createdAt), limit, page)
  {
    var before := Some(all[cursor].createdAt);
    assert Visible(later, chat, before) == Visible(all, chat, before);
    var rows :| Top(Visible(later, chat, before), Times(later), limit + 1, rows) && page == Trim(rows, limit);
    TopSameKeys(Visible(all, chat, before), Times(later), Times(all), limit + 1, rows);
  }

  /** The page after `page`, read later, answers the store `page` answered. */
  lemma NextPageIsFixed(all: map<Id, Message>, later: map<Id, Message>, chat: Id, before: Option<Time>, limit: nat, page: Page, next: Page)
    requires limit > 0 && PageBefore(all, chat, before, limit, page) && page.nextCursor.Some?
    requires OnlyAppends(all, later, chat) && Answers(later, chat, page.nextCursor, limit, next)
    ensures page.nextCursor.value in Visible(all, chat, None)
    ensures PageBefore(all, chat, CursorFilter(all, page.nextCursor), limit, next)
  {
    InnerPage(all, chat, before, limit, page);
    PageRows(all, chat, before, limit, page);
    assert page.nextCursor.value in Elements(page.data);
    AppendsAreUnseen(all, later, chat, page.nextCursor.value, limit, next);
  }

  /** Every page of a walk under appends answers the store the walk began with. */
  lemma {:induction false} AppendsChangeNothing(snaps: seq<map<Id, Message>>, chat: Id, limit: nat, pages: seq<Page>, k: nat)
    requires limit > 0 && Walk(snaps, chat, limit, pages) && Appending(snaps, chat) && k < |pages|
    ensures k > 0 ==> CursorAt(pages, k).Some? && CursorAt(pages, k).value in snaps[0]
    ensures PageBefore(snaps[0], chat, CursorFilter(snaps[0], CursorAt(pages, k)), limit, pages[k])
  {
    assert Call(snaps, chat, limit, pages, k);
    if k > 0 {
      AppendsChangeNothing(snaps, chat, limit, pages, k - 1);
      NextPageIsFixed(snaps[0], snaps[k], chat, CursorFilter(snaps[0], CursorAt(pages, k - 1)), limit, pages[k - 1], pages[k]);
    }
  }

  /** The pages from the k-th on, as a walk of their own. */
  lemma FixedWalkGrows(all: map<Id, Message>, chat: Id, before: Option<Time>, limit: nat, page: Page, rest: seq<Page>)
    requires limit > 0 && PageBefore(all, chat, before, limit, page) && rest != []
    requires page.nextCursor.Some? && page.nextCursor.value in all
    requires FixedWalk(all, chat, CursorFilter(all, page.nextCursor), limit, rest)
    ensures FixedWalk(all, chat, before, limit, [page] + rest)
  {
    assert ([page] + rest)[1..] == rest;
  }

  lemma {:induction false} WalkIsFixed(snaps: seq<map<Id, Message>>, chat: Id, limit: nat, pages: seq<Page>, k: nat)
    requires limit > 0 && Walk(snaps, chat, limit, pages) && Appending(snaps, chat) && k < |pages|
    ensures FixedWalk(snaps[0], chat, CursorFilter(snaps[0], CursorAt(pages, k)), limit, pages[k..])
    decreases |pages| - k
  {
    AppendsChangeNothing(snaps, chat, limit, pages, k);
    if k + 1 < |pages| {
      AppendsChangeNothing(snaps, chat, limit, pages, k + 1);
      WalkIsFixed(snaps, chat, limit, pages, k + 1);
      FixedWalkGrows(snaps[0], chat, CursorFilter(snaps[0], CursorAt(pages, k)), limit, pages[k], pages[k + 1..]);
      assert pages[k..] == [pages[k]] + pages[k + 1..];
    } else {
      assert pages[k..] == [pages[k]];
    }
  }

  /** Without a cursor everything stored in the chat is there to be read. */
  lemma AllVisible(all: map<Id, Message>, chat: Id)
    ensures Visible(all, chat, None) == set m | m in all && all[m].chatId == chat
  {
  }

  /** Any timestamps, any tie order on each call, appends in between: the walk ends within the page count of the messages
      stored in the chat when it started, shows only those, none twice, newest first, and a finished walk has omitted
      exactly the messages cut off by page boundaries. */
  lemma PageWalk(snaps: seq<map<Id, Message>>, chat: Id, limit: nat, pages: seq<Page>)
    requires limit > 0 && pages != [] && Walk(snaps, chat, limit, pages)
    requires Appending(snaps, chat)
    ensures var all := snaps[0];
            var stored := set m | m in all && all[m].chatId == chat;
            var shown := Shown(pages);
            && |pages| <= PageCount(|stored|, limit)
            && (forall m :: m in shown ==> m in stored)
            && NewestFirst(all, shown)
            && (Finished(pages) ==> forall x :: x in stored ==> (x !in shown <==> CutOff(all, pages, x)))
  {
    var all := snaps[0];
    var shown := Shown(pages);
    WalkIsFixed(snaps, chat, limit, pages, 0);
    assert pages[0..] == pages;
    WalkIsShort(all, chat, None, limit, pages);
    WalkIsOrdered(all, chat, None, limit, pages);
    AllVisible(all, chat);
    DescendingIsNewestFirst(all, shown);
    assert forall m :: m in shown ==> m in Elements(shown);
    if Finished(pages) {
      forall x | x in Visible(all, chat, None) ensures x !in shown <==> CutOff(all, pages, x) {
        WalkOmits(all, chat, None, limit, pages, x);
      }
    }
  }

  lemma {:induction false} BoundaryIsShown(all: map<Id, Message>, chat: Id, before: Option<Time>, limit: nat, pages: seq<Page>, k: nat)
    requires limit > 0 && FixedWalk(all, chat, before, limit, pages) && k < |pages| - 1
    ensures pages[k].nextCursor.Some? && pages[k].nextCursor.value in pages[k].data
    ensures pages[k].nextCursor.value in Visible(all, chat, before)
    decreases k
  {
    InnerPage(all, chat, before, limit, pages[0]);
    if k > 0 {
      CursorSees(all, chat, before, limit, pages[0]);
      BoundaryIsShown(all, chat, Some(all[pages[0].nextCursor.value].createdAt), limit, pages[1..], k - 1);
    } else {
      PageRows(all, chat, before, limit, pages[0]);
      assert pages[0].data[limit - 1] in Elements(pages[0].data);
    }
  }

  /** With distinct timestamps a finished walk has shown every message stored in the chat exactly once, on exactly the
      page count. */
  lemma PageWalkIsComplete(snaps: seq<map<Id, Message>>, chat: Id, limit: nat, pages: seq<Page>)
    requires limit > 0 && Walk(snaps, chat, limit, pages) && Finished(pages)
    requires Appending(snaps, chat)
    requires DistinctTimes(snaps[0], set m | m in snaps[0] && snaps[0][m].chatId == chat)
    ensures var stored := set m | m in snaps[0] && snaps[0][m].chatId == chat;
            && |pages| == PageCount(|stored|, limit)
            && (forall m :: m in Shown(pages) <==> m in snaps[0] && snaps[0][m].chatId == chat)
            && |Shown(pages)| == |stored|
  {
    var all := snaps[0];
    var s := Visible(all, chat, None);
    AllVisible(all, chat);
    PageWalk(snaps, chat, limit, pages);
    WalkIsFixed(snaps, chat, limit, pages, 0);
    assert pages[0..] == pages;
    WalkLength(all, chat, None, limit, pages);
    forall x | x in s ensures !CutOff(all, pages, x) {
      forall k | 0 <= k < |pages| - 1 ensures !CutOffBy(all, pages[k], x) {
        BoundaryIsShown(all, chat, None, limit, pages, k);
      }
    }
    DistinctCount(Shown(pages));
    assert Elements(Shown(pages)) == s;
  }

  // ---- when ties lose nothing ----

  function NoOlder(all: map<Id, Message>, s: set<Id>, c: Id): set<Id>
    requires s <= all.Keys && c in s
  {
    set x | x in s && all[x].createdAt >= all[c].createdAt
  }

  /** No two messages on the two sides of a page boundary share a timestamp. */
  ghost predicate CleanBoundaries(all: map<Id, Message>, s: set<Id>, limit: nat)
    requires limit > 0 && s <= all.Keys
    decreases s
  {
    |s| <= limit
    || exists c :: c in s && |NoOlder(all, s, c)| == limit && c in NoOlder(all, s, c)
                   && CleanBoundaries(all, s - NoOlder(all, s, c), limit)
  }

  lemma SameSizeDifference(a: set<Id>, b: set<Id>)
    requires |a| == |b|
    ensures |a - b| == |b - a|
  {
    assert a == (a * b) + (a - b);
    assert b == (a * b) + (b - a);
  }

  lemma SameSizeChain(a: set<Id>, b: set<Id>)
    requires |a| == |b|
    requires forall x, y :: x in a - b && y in b ==> y in a
    ensures a == b
  {
    SameSizeDifference(a, b);
    assert a - b == {} || b - a == {};
    assert |a - b| == 0 && |b - a| == 0;
  }

  /** If exactly `limit` messages are no older than `c`, they are the first page. */
  lemma CleanPage(all: map<Id, Message>, chat: Id, before: Option<Time>, limit: nat, page: Page, c: Id)
    requires limit > 0 && PageBefore(all, chat, before, limit, page) && page.nextCursor.Some?
    requires c in Visible(all, chat, before) && |NoOlder(all, Visible(all, chat, before), c)| == limit
    ensures Elements(page.data) == NoOlder(all, Visible(all, chat, before), c)
  {
    var s := Visible(all, chat, before);
    var top, d := NoOlder(all, s, c), Elements(page.data);
    InnerPage(all, chat, before, limit, page);
    PageRows(all, chat, before, limit, page);
    AtLeastTheCursor(all, chat, before, limit, page);
    DistinctCount(page.data);
    forall x, y | x in top - d && y in d ensures y in top {
      assert x !in page.data && Times(all)[x] <= all[page.nextCursor.value].createdAt;
      assert Times(all)[y] >= all[page.nextCursor.value].createdAt;
    }
    SameSizeChain(top, d);
  }

  /** The messages that remain after a page, if no tie crosses its boundary. */
  lemma CleanRest(all: map<Id, Message>, chat: Id, before: Option<Time>, limit: nat, page: Page)
    requires limit > 0 && PageBefore(all, chat, before, limit, page) && page.nextCursor.Some?
    requires page.nextCursor.value in Visible(all, chat, before)
    ensures var s := Visible(all, chat, before);
            Visible(all, chat, Some(all[page.nextCursor.value].createdAt)) == s - NoOlder(all, s, page.nextCursor.value)
    ensures Elements(page.data) <= NoOlder(all, Visible(all, chat, before), page.nextCursor.value)
  {
    InnerPage(all, chat, before, limit, page);
    PageRows(all, chat, before, limit, page);
    forall x | x in page.data ensures Times(all)[x] >= Times(all)[page.data[limit - 1]] && x in Visible(all, chat, before) {
      assert x in Elements(page.data);
      var i :| 0 <= i < |page.data| && page.data[i] == x;
    }
  }

  /** The boundary of a page is clean when the page shows everything as new as its last row. */
  lemma CleanStep(all: map<Id, Message>, chat: Id, before: Option<Time>, limit: nat, page: Page)
    requires limit > 0 && PageBefore(all, chat, before, limit, page) && page.nextCursor.Some?
    requires page.nextCursor.value in page.data && page.nextCursor.value in Visible(all, chat, before)
    ensures var s := Visible(all, chat, before);
            var top := NoOlder(all, s, page.nextCursor.value);
            CleanBoundaries(all, s, limit) <==> top == Elements(page.data) && CleanBoundaries(all, s - top, limit)
  {
    var s, last, d := Visible(all, chat, before), page.nextCursor.value, Elements(page.data);
    InnerPage(all, chat, before, limit, page);
    PageRows(all, chat, before, limit, page);
    CleanRest(all, chat, before, limit, page);
    DistinctCount(page.data);
    if CleanBoundaries(all, s, limit) {
      var c :| c in s && |NoOlder(all, s, c)| == limit && c in NoOlder(all, s, c)
               && CleanBoundaries(all, s - NoOlder(all, s, c), limit);
      CleanPage(all, chat, before, limit, page, c);
      assert last in NoOlder(all, s, c);
      assert NoOlder(all, s, last) == NoOlder(all, s, c);
    }
  }

  lemma PagesAreDisjointParts(pages: seq<Page>, s: set<Id>, top: set<Id>)
    requires pages != [] && top <= s
    requires Elements(pages[0].data) <= top && Elements(Shown(pages[1..])) <= s - top
    ensures Elements(Shown(pages)) == s <==> Elements(pages[0].data) == top && Elements(Shown(pages[1..])) == s - top
  {
    var d, tail := Elements(pages[0].data), Elements(Shown(pages[1..]));
    assert Elements(Shown(pages)) == d + tail;
    if Elements(Shown(pages)) == s {
      assert forall x :: x in top ==> x in d + tail;
      assert forall x :: x in s - top ==> x in d + tail;
    }
  }

  /** A finished walk over one store shows every message, whatever the tie order, if and only if no tie crosses a page
      boundary. */
  lemma {:induction false} FixedCompleteIffClean(all: map<Id, Message>, chat: Id, before: Option<Time>, limit: nat, pages: seq<Page>)
    requires limit > 0 && FixedWalk(all, chat, before, limit, pages) && Finished(pages)
    ensures Elements(Shown(pages)) == Visible(all, chat, before)
            <==> CleanBoundaries(all, Visible(all, chat, before), limit)
    decreases |pages|
  {
    var s := Visible(all, chat, before);
    if |pages| == 1 {
      LastPage(all, chat, before, limit, pages[0]);
      assert Shown(pages) == pages[0].data + [];
    } else {
      var last := pages[0].nextCursor.value;
      BoundaryIsShown(all, chat, before, limit, pages, 0);
      CleanStep(all, chat, before, limit, pages[0]);
      CleanRest(all, chat, before, limit, pages[0]);
      FixedCompleteIffClean(all, chat, Some(all[last].createdAt), limit, pages[1..]);
      WalkIsOrdered(all, chat, Some(all[last].createdAt), limit, pages[1..]);
      PagesAreDisjointParts(pages, s, NoOlder(all, s, last));
    }
  }

  /** The client's walk, appends in between: a finished walk shows every message that was there when it began, whatever
      the tie order on each call, if and only if no tie among those crosses a page boundary. */
  lemma CompleteIffClean(snaps: seq<map<Id, Message>>, chat: Id, limit: nat, pages: seq<Page>)
    requires limit > 0 && Walk(snaps, chat, limit, pages) && Finished(pages)
    requires Appending(snaps, chat)
    ensures var stored := set m | m in snaps[0] && snaps[0][m].chatId == chat;
            (forall m :: m in stored ==> m in Shown(pages)) <==> CleanBoundaries(snaps[0], stored, limit)
  {
    WalkIsFixed(snaps, chat, limit, pages, 0);
    assert pages[0..] == pages;
    AllVisible(snaps[0], chat);
    PageWalk(snaps, chat, limit, pages);
    FixedCompleteIffClean(snaps[0], chat, None, limit, pages);
    assert forall m :: m in Shown(pages) <==> m in Elements(Shown(pages));
  }

  lemma TwoTied(all: map<Id, Message>, m: Message)
    requires m.chatId == "c" && m.createdAt == 7 && all == map["x" := m, "y" := m]
    ensures "y" in Visible(all, "c", None)
    ensures PageBefore(all, "c", None, 1, Page(["x"], Some("x")))
    ensures PageBefore(all, "c", Some(7), 1, Page([], None))
  {
    assert Visible(all, "c", None) == {"x", "y"};
    assert Visible(all, "c", Some(7)) == {};
    assert Top({"x", "y"}, Times(all), 2, ["x", "y"]);
    assert Trim(["x", "y"], 1) == Page(["x"], Some("x"));
    assert Top({}, Times(all), 2, []);
    assert Trim([], 1) == Page([], None);
  }

  /** Two messages of the same millisecond and a page size of one: the second is never shown. */
  lemma TieLosesAMessage()
    ensures var m := Message("c", "u", "hi", Text, 7);
            var all := map["x" := m, "y" := m];
            var pages := [Page(["x"], Some("x")), Page([], None)];
            && Walk([all, all], "c", 1, pages) && Finished(pages)
            && "y" in Visible(all, "c", None) && "y" !in Shown(pages)
  {
    var m := Message("c", "u", "hi", Text, 7);
    var all := map["x" := m, "y" := m];
    var pages := [Page(["x"], Some("x")), Page([], None)];
    TwoTied(all, m);
    assert Call([all, all], "c", 1, pages, 0) && Call([all, all], "c", 1, pages, 1);
    assert pages[1..] == [Page([], None)] && Shown(pages[1..]) == [] + Shown(pages[1..][1..]);
    assert Shown(pages) == ["x"];
  }

}
