/** Keyset pages: the user list (modules/user/service.go, repository.go), the audit log
    (modules/audit-log/service.go, repository.go) and walks along their next cursors. */
module Keyset {
  import opened Wrappers
  import opened Sets

  /** Rows are ordered by creation time, then id. */
  datatype Key = Key(createdAt: int, id: nat)

  predicate Below(a: Key, b: Key) {
    a.createdAt < b.createdAt || (a.createdAt == b.createdAt && a.id < b.id)
  }

  predicate BelowCursor(a: Key, cursor: Option<Key>) {
    cursor.None? || Below(a, cursor.value)
  }

  /** A cursor counts only with both its parts. */
  function Cursor(createdAt: Option<int>, id: Option<nat>): Option<Key> {
    if createdAt.Some? && id.Some? then Some(Key(createdAt.value, id.value)) else None
  }

  const DEFAULT_LIMIT := 20
  const MAX_LIMIT := 100

  /** The limit of a request: absent, unreadable or below one means the default. */
  function RequestLimit(value: Option<int>): (limit: nat)
    ensures 1 <= limit <= 100
    ensures (value.None? || value.value < 1) ==> limit == 20
    ensures value.Some? && value.value >= 1 ==> limit <= value.value && (limit < value.value ==> limit == 100)
  {
    if value.None? || value.value < 1 then DEFAULT_LIMIT
    else if value.value > MAX_LIMIT then MAX_LIMIT
    else value.value
  }

  // What one page is

  ghost predicate Descending(page: seq<Key>) {
    forall i, j :: 0 <= i < j < |page| ==> Below(page[j], page[i])
  }

  /** The greatest keys below the cursor, at most limit of them, in descending order. */
  ghost predicate IsPage(keys: set<Key>, cursor: Option<Key>, limit: nat, page: seq<Key>) {
    && |page| <= limit
    && Descending(page)
    && (forall k :: k in page ==> k in keys && BelowCursor(k, cursor))
    && (forall k :: k in keys && BelowCursor(k, cursor) && k !in page ==>
        |page| == limit && forall i :: 0 <= i < |page| ==> Below(k, page[i]))
  }

  /** A page and its next cursor: one more row is asked for, to learn whether there is one. */
  ghost predicate IsListPage(keys: set<Key>, cursor: Option<Key>, limit: nat, page: seq<Key>, next: Option<Key>) {
    && IsPage(keys, cursor, limit, page)
    && (next.Some? <==> |page| > 0 && exists k :: k in keys && BelowCursor(k, cursor) && k !in page)
    && (next.Some? ==> next.value == page[|page| - 1])
  }

  lemma {:induction false} Greatest(keys: set<Key>) returns (k: Key)
    requires keys != {}
    ensures k in keys && forall j :: j in keys ==> j == k || Below(j, k)
  {
    var first :| first in keys;
    var rest := keys - {first};
    assert forall x :: x in keys ==> x == first || x in rest;
    k := first;
    if rest != {} {
      var j := Greatest(rest);
      k := if Below(first, j) then j else first;
    }
  }

  /** ORDER BY created_at DESC, id DESC LIMIT limit. */
  method TopKeys(keys: set<Key>, limit: nat) returns (page: seq<Key>)
    ensures IsPage(keys, None, limit, page)
  {
    page := [];
    var rest := keys;
    while |page| < limit && rest != {}
      invariant |page| <= limit && Descending(page)
      invariant rest <= keys && forall k :: k in keys <==> k in rest || k in page
      invariant forall k, i :: k in rest && 0 <= i < |page| ==> Below(k, page[i])
      decreases rest
    {
      ghost var top := Greatest(rest);
      var k :| k in rest && forall j :: j in rest ==> j == k || Below(j, k);
      page := page + [k];
      rest := rest - {k};
    }
  }

  lemma CutKeepsPage(keys: set<Key>, cursor: Option<Key>, limit: nat, asked: seq<Key>)
    requires IsPage(keys, cursor, limit + 1, asked)
    ensures |asked| <= limit ==> IsListPage(keys, cursor, limit, asked, None)
    ensures |asked| > limit ==>
              IsListPage(keys, cursor, limit, asked[..limit], if limit > 0 then Some(asked[limit - 1]) else None)
  {
    if |asked| > limit {
      var page := asked[..limit];
      assert asked == page + [asked[limit]];
      assert asked[limit] in asked && asked[limit] !in page;
    }
  }

  // A page in other words

  ghost predicate Newer(a: Key, b: Key) {
    a.createdAt > b.createdAt || (a.createdAt == b.createdAt && a.id > b.id)
  }

  /** The rows of a page come newest first, rows of one time by descending id. */
  lemma NewestFirst(page: seq<Key>)
    ensures Descending(page) <==> forall i, j :: 0 <= i < j < |page| ==> Newer(page[i], page[j])
  {
  }

  /** The rows below the cursor that are newer than one of them. */
  ghost function NewerThan(keys: set<Key>, cursor: Option<Key>, k: Key): set<Key> {
    set j | j in keys && (cursor.None? || Newer(cursor.value, j)) && Newer(j, k)
  }

  lemma {:induction false} ElementsSize(page: seq<Key>)
    requires Descending(page)
    ensures |set k | k in page| == |page|
  {
    if page != [] {
      var front, last := page[..|page| - 1], page[|page| - 1];
      ElementsSize(front);
      assert page == front + [last];
      assert (set k | k in page) == (set k | k in front) + {last};
      assert last !in front by {
        assert forall i :: 0 <= i < |front| ==> Below(last, front[i]);
      }
    }
  }

  lemma NewerThanShown(keys: set<Key>, cursor: Option<Key>, limit: nat, page: seq<Key>, i: nat)
    requires IsPage(keys, cursor, limit, page) && i < |page|
    ensures NewerThan(keys, cursor, page[i]) == set k | k in page[..i]
  {
    forall k | k in NewerThan(keys, cursor, page[i])
      ensures k in page[..i]
    {
      assert BelowCursor(k, cursor);
      var j :| 0 <= j < |page| && page[j] == k;
      assert j < i;
    }
    forall k | k in page[..i]
      ensures k in NewerThan(keys, cursor, page[i])
    {
      var j :| 0 <= j < i && page[j] == k;
      assert page[j] in page && Below(page[i], page[j]);
    }
  }

  lemma NewerThanLeftOut(keys: set<Key>, cursor: Option<Key>, limit: nat, page: seq<Key>, k: Key)
    requires IsPage(keys, cursor, limit, page) && k in keys && BelowCursor(k, cursor) && k !in page
    ensures |NewerThan(keys, cursor, k)| >= limit
  {
    ElementsSize(page);
    var shown := set j | j in page;
    assert forall j :: j in page ==> j in NewerThan(keys, cursor, k);
    SubsetSize(shown, NewerThan(keys, cursor, k));
  }

  /** A row below the cursor is on the page if and only if fewer than limit rows below the cursor are newer. */
  lemma PageExactly(keys: set<Key>, cursor: Option<Key>, limit: nat, page: seq<Key>, k: Key)
    requires IsPage(keys, cursor, limit, page)
    ensures k in page <==>
              && k in keys && (cursor.None? || Newer(cursor.value, k))
              && |NewerThan(keys, cursor, k)| < limit
  {
    if k in page {
      var i :| 0 <= i < |page| && page[i] == k;
      NewerThanShown(keys, cursor, limit, page, i);
      assert Descending(page[..i]);
      ElementsSize(page[..i]);
    } else if k in keys && BelowCursor(k, cursor) {
      NewerThanLeftOut(keys, cursor, limit, page, k);
    }
  }

  // The user list

  /** What a page shows of a row, with its key. */
  datatype Item<T> = Item(key: Key, row: T)

  function KeysOf<T>(items: seq<Item<T>>): (keys: seq<Key>)
    ensures |keys| == |items| && forall i :: 0 <= i < |items| ==> keys[i] == items[i].key
  {
    seq(|items|, i requires 0 <= i < |items| => items[i].key)
  }

  /** Every item shows the row stored under its id. */
  ghost predicate Show<T>(items: seq<Item<T>>, rows: map<nat, T>) {
    forall i :: 0 <= i < |items| ==> items[i].key.id in rows && items[i].row == rows[items[i].key.id]
  }

  datatype User = User(createdAt: int, deleted: bool, email: string)

  class UserRepository {
    var rows: map<nat, User>

    ghost function Visible(): set<Key>
      reads this
    {
      set id | id in rows && !rows[id].deleted :: Key(rows[id].createdAt, id)
    }

    method FindListKeyset(limit: nat, createdAt: Option<int>, id: Option<nat>) returns (page: seq<Key>)
      ensures IsPage(Visible(), Cursor(createdAt, id), limit, page)
    {
      var matching := set i | i in rows && !rows[i].deleted :: Key(rows[i].createdAt, i);
      if createdAt.Some? && id.Some? {
        matching := set k | k in matching && Below(k, Key(createdAt.value, id.value));
      }
      page := TopKeys(matching, limit);
    }

    method ListUsers(limit: nat, createdAt: Option<int>, id: Option<nat>)
      returns (items: seq<Item<User>>, next: Option<Key>)
      ensures IsListPage(Visible(), Cursor(createdAt, id), limit, KeysOf(items), next)
      ensures Show(items, rows)
      ensures forall i :: 0 <= i < |items| ==>
                var k := items[i].key;
                k.id in rows && !rows[k.id].deleted && k.createdAt == rows[k.id].createdAt && items[i].row == rows[k.id]
    {
      hide Descending;
      var users := FindListKeyset(limit + 1, createdAt, id);
      CutKeepsPage(Visible(), Cursor(createdAt, id), limit, users);
      var hasNext := |users| > limit;
      if hasNext {
        users := users[..limit];
      }
      items := [];
      for i := 0 to |users|
        invariant KeysOf(items) == users[..i] && Show(items, rows)
      {
        assert users[i] in users && users[i] in Visible();
        items := items + [Item(users[i], rows[users[i].id])];
      }
      assert users[..|users|] == users;
      assert forall i :: 0 <= i < |items| ==> items[i].key in users && users[i] in Visible();
      next := None;
      if hasNext && |users| > 0 {
        next := Some(users[|users| - 1]);
      }
    }
  }

  // The audit log

  datatype AuditLog =
    AuditLog(createdAt: int, actorId: string, action: string, resourceType: string, resourceId: string)

  /** An empty field does not filter; limit is the page size plus one. */
  datatype Find =
    Find(actorId: string, action: string, resourceType: string, resourceId: string, limit: nat, id: Option<nat>)

  predicate Matches(log: AuditLog, find: Find) {
    && (find.actorId != "" ==> log.actorId == find.actorId)
    && (find.action != "" ==> log.action == find.action)
    && (find.resourceType != "" ==> log.resourceType == find.resourceType)
    && (find.resourceId != "" ==> log.resourceId == find.resourceId)
  }

  class AuditRepository {
    var rows: map<nat, AuditLog>

    ghost function Matching(find: Find): set<Key>
      reads this
    {
      set id | id in rows && Matches(rows[id], find) :: Key(rows[id].createdAt, id)
    }

    /** The query, narrowed one condition after the other. */
    method Narrow(find: Find) returns (query: set<nat>)
      ensures forall i :: i in query <==> i in rows && Matches(rows[i], find)
      ensures forall i :: i in query <==>
                            && i in rows
                            && find.actorId in {"", rows[i].actorId} && find.action in {"", rows[i].action}
                            && find.resourceType in {"", rows[i].resourceType}
                            && find.resourceId in {"", rows[i].resourceId}
    {
      query := rows.Keys;
      if find.actorId != "" {
        query := set i | i in query && rows[i].actorId == find.actorId;
      }
      if find.action != "" {
        query := set i | i in query && rows[i].action == find.action;
      }
      if find.resourceType != "" {
        query := set i | i in query && rows[i].resourceType == find.resourceType;
      }
      if find.resourceId != "" {
        query := set i | i in query && rows[i].resourceId == find.resourceId;
      }
    }

    method FindListKeyset(find: Find, createdAt: Option<int>) returns (page: seq<Key>)
      ensures IsPage(Matching(find), Cursor(createdAt, find.id), find.limit, page)
    {
      hide Matches;
      var query := Narrow(find);
      var matching := set i | i in query :: Key(rows[i].createdAt, i);
      assert matching == Matching(find);
      if createdAt.Some? && find.id.Some? {
        matching := set k | k in matching && Below(k, Key(createdAt.value, find.id.value));
      }
      page := TopKeys(matching, find.limit);
    }

    method ListLogs(find: Find, createdAt: Option<int>)
      returns (items: seq<Item<AuditLog>>, next: Option<Key>)
      requires find.limit > 0
      ensures IsListPage(Matching(find), Cursor(createdAt, find.id), find.limit - 1, KeysOf(items), next)
      ensures Show(items, rows)
      ensures forall i :: 0 <= i < |items| ==>
                && items[i].key.createdAt == items[i].row.createdAt
                && find.actorId in {"", items[i].row.actorId} && find.action in {"", items[i].row.action}
                && find.resourceType in {"", items[i].row.resourceType}
                && find.resourceId in {"", items[i].row.resourceId}
    {
      hide Descending;
      var logs := FindListKeyset(find, createdAt);
      CutKeepsPage(Matching(find), Cursor(createdAt, find.id), find.limit - 1, logs);
      var hasNext := |logs| > find.limit - 1;
      if hasNext {
        logs := logs[..find.limit - 1];
      }
      items := [];
      for i := 0 to |logs|
        invariant KeysOf(items) == logs[..i] && Show(items, rows)
      {
        assert logs[i] in logs && logs[i] in Matching(find);
        items := items + [Item(logs[i], rows[logs[i].id])];
      }
      assert logs[..|logs|] == logs;
      assert forall i :: 0 <= i < |items| ==> items[i].key in logs && logs[i] in Matching(find);
      next := None;
      if hasNext && |logs| > 0 {
        next := Some(logs[|logs| - 1]);
      }
    }
  }

  // Walks: page after page, each from the store as it is then

  datatype Page = Page(items: seq<Key>, next: Option<Key>)

  /** The cursor page i is asked with. */
  function CursorAt(pages: seq<Page>, i: nat): Option<Key>
    requires i <= |pages|
  {
    if i == 0 then None else pages[i - 1].next
  }

  /** stores[i] are the matching rows when page i is read; every page but the last has a next cursor. */
  ghost predicate Walk(stores: seq<set<Key>>, limit: nat, pages: seq<Page>) {
    && |stores| == |pages|
    && (forall i :: 0 <= i < |pages| ==>
        IsListPage(stores[i], CursorAt(pages, i), limit, pages[i].items, pages[i].next))
    && (forall i :: 0 < i < |pages| ==> CursorAt(pages, i).Some?)
  }

  function Items(pages: seq<Page>): seq<Key> {
    if pages == [] then [] else Items(pages[..|pages| - 1]) + pages[|pages| - 1].items
  }

  lemma WalkPrefix(stores: seq<set<Key>>, limit: nat, pages: seq<Page>)
    requires Walk(stores, limit, pages) && pages != []
    ensures Walk(stores[..|pages| - 1], limit, pages[..|pages| - 1])
  {
    var n := |pages| - 1;
    var front, before := pages[..n], stores[..n];
    hide IsListPage;
    forall i | 0 <= i < n
      ensures IsListPage(before[i], CursorAt(front, i), limit, front[i].items, front[i].next)
    {
      assert IsListPage(stores[i], CursorAt(pages, i), limit, pages[i].items, pages[i].next);
    }
    forall i | 0 < i < n
      ensures CursorAt(front, i).Some?
    {
      assert CursorAt(pages, i).Some?;
    }
  }

  /** What a page of a walk says about its rows and its next cursor. */
  lemma PageFacts(stores: seq<set<Key>>, limit: nat, pages: seq<Page>, n: nat)
    requires Walk(stores, limit, pages) && n < |pages|
    ensures Descending(pages[n].items)
    ensures CursorAt(pages, n).Some? ==> forall k :: k in pages[n].items ==> Below(k, CursorAt(pages, n).value)
    ensures pages[n].next.Some? ==> pages[n].items != [] && pages[n].next.value == pages[n].items[|pages[n].items| - 1]
    ensures n > 0 ==> CursorAt(pages, n).Some?
  {
    assert IsListPage(stores[n], CursorAt(pages, n), limit, pages[n].items, pages[n].next);
  }

  lemma ItemsNext(pages: seq<Page>)
    requires pages != []
    ensures Items(pages) == Items(pages[..|pages| - 1]) + pages[|pages| - 1].items
    ensures CursorAt(pages, |pages| - 1)
            == if |pages| == 1 then None else pages[..|pages| - 1][|pages[..|pages| - 1]| - 1].next
    ensures |pages| == 1 ==> Items(pages[..|pages| - 1]) == []
  {
  }

  lemma NoItems(pages: seq<Page>)
    requires pages == []
    ensures Items(pages) == [] && Descending(Items(pages))
  {
  }

  /** Whatever is inserted or deleted between the pages, the rows come in descending order, so none twice. */
  lemma {:induction false} WalkDescends(stores: seq<set<Key>>, limit: nat, pages: seq<Page>)
    requires Walk(stores, limit, pages)
    ensures Descending(Items(pages))
    ensures pages != [] && pages[|pages| - 1].next.Some? ==>
              Items(pages) != [] && pages[|pages| - 1].next.value == Items(pages)[|Items(pages)| - 1]
  {
    assert |stores| == |pages|;
    hide *;
    if pages == [] {
      NoItems(pages);
    } else {
      var n := |pages| - 1;
      var done := Items(pages[..n]);
      WalkPrefix(stores, limit, pages);
      WalkDescends(stores[..n], limit, pages[..n]);
      PageFacts(stores, limit, pages, n);
      ItemsNext(pages);
      DescendsOn(done, pages[n].items);
    }
  }

  lemma DescendsOn(done: seq<Key>, page: seq<Key>)
    requires Descending(done) && Descending(page)
    requires done != [] ==> forall k :: k in page ==> Below(k, done[|done| - 1])
    ensures Descending(done + page)
  {
    var all := done + page;
    forall i, j | 0 <= i < j < |all|
      ensures Below(all[j], all[i])
    {
      if i < |done| <= j {
        assert page[j - |done|] in page;
        assert i == |done| - 1 || Below(done[|done| - 1], done[i]);
      }
    }
  }

  lemma DescendingDiffers(page: seq<Key>)
    requires Descending(page)
    ensures forall i, j :: 0 <= i < |page| && 0 <= j < |page| && page[i] == page[j] ==> i == j
  {
    forall i, j | 0 <= i < j < |page|
      ensures page[i] != page[j]
    {
      assert Below(page[j], page[i]);
    }
  }

  /** A row that is there when a page is read, and not above its cursor, is on the page or below its next. */
  lemma PageReaches(keys: set<Key>, cursor: Option<Key>, limit: nat, page: seq<Key>, next: Option<Key>, k: Key)
    requires IsListPage(keys, cursor, limit, page, next) && limit > 0 && k in keys && BelowCursor(k, cursor)
    ensures k in page || (next.Some? && Below(k, next.value))
  {
  }

  lemma {:induction false} WalkReaches(stores: seq<set<Key>>, limit: nat, pages: seq<Page>, k: Key)
    requires Walk(stores, limit, pages) && limit > 0 && pages != []
    requires forall i :: 0 <= i < |stores| ==> k in stores[i]
    ensures k in Items(pages) || (pages[|pages| - 1].next.Some? && Below(k, pages[|pages| - 1].next.value))
  {
    var n := |pages| - 1;
    assert IsListPage(stores[n], CursorAt(pages, n), limit, pages[n].items, pages[n].next);
    WalkPrefix(stores, limit, pages);
    ItemsNext(pages);
    if n > 0 {
      WalkReaches(stores[..n], limit, pages[..n], k);
    }
    if k !in Items(pages[..n]) {
      assert BelowCursor(k, CursorAt(pages, n));
      PageReaches(stores[n], CursorAt(pages, n), limit, pages[n].items, pages[n].next, k);
    }
  }

  /** A walk that reaches an empty cursor has shown every row that was there throughout, exactly once. */
  lemma WalkIsComplete(stores: seq<set<Key>>, limit: nat, pages: seq<Page>, k: Key)
    requires Walk(stores, limit, pages) && limit > 0 && pages != [] && pages[|pages| - 1].next.None?
    requires forall i :: 0 <= i < |stores| ==> k in stores[i]
    ensures exists i :: 0 <= i < |Items(pages)| && Items(pages)[i] == k
                        && forall j :: 0 <= j < |Items(pages)| && Items(pages)[j] == k ==> j == i
  {
    WalkReaches(stores, limit, pages, k);
    WalkDescends(stores, limit, pages);
    var all := Items(pages);
    DescendingDiffers(all);
    var i :| 0 <= i < |all| && all[i] == k;
  }

  /** With a limit of zero the first page is empty and ends the walk, whatever the store holds. */
  lemma ZeroLimitShowsNothing(keys: set<Key>, page: seq<Key>, next: Option<Key>)
    requires IsListPage(keys, None, 0, page, next)
    ensures page == [] && next.None?
  {
  }

  /** What lies below the next cursor is what lay below this one, without the page. */
  lemma NextLeaves(keys: set<Key>, cursor: Option<Key>, limit: nat, page: seq<Key>, next: Option<Key>)
    requires IsListPage(keys, cursor, limit, page, next) && next.Some?
    ensures Left(keys, next) == Left(keys, cursor) - (set k | k in page)
    ensures forall k, i :: k in Left(keys, next) && 0 <= i < |page| ==> Below(k, page[i])
    ensures Left(keys, next) < Left(keys, cursor)
  {
    var n := |page| - 1;
    assert forall i :: 0 <= i < |page| ==> i == n || Below(page[n], page[i]);
    assert page[n] in page && page[n] in Left(keys, cursor);
  }

  ghost function Left(keys: set<Key>, cursor: Option<Key>): set<Key> {
    set k | k in keys && BelowCursor(k, cursor)
  }

  lemma PagesJoin(keys: set<Key>, cursor: Option<Key>, done: seq<Key>, page: seq<Key>)
    requires Descending(done) && Descending(page)
    requires forall k, i :: k in Left(keys, cursor) && 0 <= i < |done| ==> Below(k, done[i])
    requires forall k :: k in page ==> k in Left(keys, cursor)
    ensures Descending(done + page)
  {
    DescendsOn(done, page);
  }

  /** A user of the list: on a store that does not change the cursors end, and the pages together are the
      whole list in descending order. */
  method FollowCursors(repository: UserRepository, limit: nat) returns (all: seq<Item<User>>)
    requires limit > 0
    ensures Descending(KeysOf(all)) && forall k :: k in KeysOf(all) <==> k in repository.Visible()
    ensures Show(all, repository.rows)
    ensures forall i, j :: 0 <= i < j < |all| ==> Newer(all[i].key, all[j].key)
    ensures forall id :: id in repository.rows && !repository.rows[id].deleted ==>
              Key(repository.rows[id].createdAt, id) in KeysOf(all)
  {
    all := [];
    var cursor: Option<Key> := None;
    ghost var visible := repository.Visible();
    assert forall id :: id in repository.rows && !repository.rows[id].deleted ==>
             Key(repository.rows[id].createdAt, id) in visible;
    hide UserRepository.Visible, Descending;
    while true
      invariant Descending(KeysOf(all)) && Show(all, repository.rows)
      invariant forall k :: k in visible <==> k in KeysOf(all) || k in Left(visible, cursor)
      invariant forall k, i :: k in Left(visible, cursor) && 0 <= i < |all| ==> Below(k, KeysOf(all)[i])
      decreases Left(visible, cursor)
    {
      var createdAt := if cursor.Some? then Some(cursor.value.createdAt) else None;
      var id := if cursor.Some? then Some(cursor.value.id) else None;
      var items, next := repository.ListUsers(limit, createdAt, id);
      PagesJoin(visible, cursor, KeysOf(all), KeysOf(items));
      assert KeysOf(all + items) == KeysOf(all) + KeysOf(items);
      all := all + items;
      if next.None? {
        NewestFirst(KeysOf(all));
        return;
      }
      NextLeaves(visible, cursor, limit, KeysOf(items), next);
      cursor := next;
    }
  }
}
