/**
 * The client side of the todo list: the optimistic-update discipline that
 * the three mutations (add, toggle, delete) follow on the one cached list,
 * and the handler that submits a new title.
 *
 * List entries are objects (`Item`). The cached list is a sequence of
 * references to them, so two lists can share an entry, and writing a field
 * of a shared entry shows through both lists.
 */
module Content {
  import opened Wrappers
  import TodoRouter

  /** A todo as the client holds it. Only `completed` is ever written. */
  class Item {
    const id: string
    const title: string
    var completed: bool

    constructor (id: string, title: string, completed: bool)
      ensures this.id == id && this.title == title && this.completed == completed
    {
      this.id := id;
      this.title := title;
      this.completed := completed;
    }
  }

  /** The value of an entry at one moment, as the list renders it. */
  datatype Entry = Entry(id: string, title: string, completed: bool)

  /** The values a list of entries shows in the current heap. */
  function Entries(s: seq<Item>): (es: seq<Entry>)
    reads s
    ensures |es| == |s|
  {
    if s == [] then [] else [Entry(s[0].id, s[0].title, s[0].completed)] + Entries(s[1..])
  }

  /** Position `k` of the list shows the fields of the object at position `k`. */
  lemma {:induction false} EntriesAt(s: seq<Item>, k: int)
    requires 0 <= k < |s|
    ensures Entries(s)[k] == Entry(s[k].id, s[k].title, s[k].completed)
  {
    if k > 0 {
      EntriesAt(s[1..], k - 1);
    }
  }

  /** The values of a list carry the ids of its objects, in whatever heap. */
  lemma EntriesIds(s: seq<Item>)
    ensures forall k :: 0 <= k < |s| ==> Entries(s)[k].id == s[k].id
  {
    forall k | 0 <= k < |s|
      ensures Entries(s)[k].id == s[k].id
    {
      EntriesAt(s, k);
    }
  }

  /** Position `k` holds an object that occurs nowhere else in the list. */
  ghost predicate Unshared(s: seq<Item>, k: int) {
    0 <= k < |s| && forall j :: 0 <= j < |s| && j != k ==> s[j] != s[k]
  }

  /** The first object with that id, if there is one, occurs once in the list. */
  ghost predicate FirstUnshared(s: seq<Item>, id: string) {
    forall k :: FirstItemWithId(s, id, k) ==> Unshared(s, k)
  }

  /** `getData() ?? []`: an unset cache reads as the empty list; a set one, even empty, as itself. */
  function OrEmpty(cached: Option<seq<Item>>): (r: seq<Item>)
    ensures cached.None? ==> r == []
    ensures cached.Some? ==> r == cached.value
  {
    if cached.Some? then cached.value else []
  }

  // ---------------------------------------------------------------------------
  // The list updaters passed to `setData`
  // ---------------------------------------------------------------------------

  /**
   * The add updater: the cached list followed by the placeholder; an unset
   * cache becomes the empty list, without the placeholder.
   */
  function AppendPlaceholder(cached: Option<seq<Item>>, placeholder: Item): (r: seq<Item>)
    ensures cached.None? ==> r == []
    ensures cached.Some? ==> |r| == |cached.value| + 1
    ensures cached.Some? ==> r[..|cached.value|] == cached.value && r[|cached.value|] == placeholder
  {
    if cached.Some? then cached.value + [placeholder] else []
  }

  /** `filter(item => item.id !== id)`: every entry with that id goes, the others stay in order. */
  function WithoutId(s: seq<Item>, id: string): (r: seq<Item>)
    ensures |r| <= |s|
    ensures forall k :: 0 <= k < |r| ==> r[k] in s && r[k].id != id
    ensures forall k :: 0 <= k < |s| && s[k].id != id ==> s[k] in r
    ensures (forall k :: 0 <= k < |s| ==> s[k].id != id) ==> r == s
  {
    if s == [] then []
    else if s[0].id == id then WithoutId(s[1..], id)
    else [s[0]] + WithoutId(s[1..], id)
  }

  /** The delete updater: the filtered list; an unset cache becomes the empty list. */
  function DropById(cached: Option<seq<Item>>, id: string): (r: seq<Item>)
    ensures cached.None? ==> r == []
    ensures cached.Some? ==> |r| <= |cached.value|
    ensures cached.Some? ==> forall k :: 0 <= k < |r| ==> r[k] in cached.value && r[k].id != id
    ensures cached.Some? ==> forall k :: 0 <= k < |cached.value| && cached.value[k].id != id ==> cached.value[k] in r
    ensures cached.Some? && (forall k :: 0 <= k < |cached.value| ==> cached.value[k].id != id) ==> r == cached.value
  {
    if cached.Some? then WithoutId(cached.value, id) else []
  }

  /** Filtering distributes over concatenation: survivors keep their relative order. */
  lemma {:induction false} WithoutIdAppend(a: seq<Item>, b: seq<Item>, id: string)
    ensures WithoutId(a + b, id) == WithoutId(a, id) + WithoutId(b, id)
  {
    if a == [] {
      assert a + b == b;
    } else {
      assert (a + b)[0] == a[0];
      assert (a + b)[1..] == a[1..] + b;
      WithoutIdAppend(a[1..], b, id);
    }
  }

  /** Filtering twice by the same id is filtering once. */
  lemma WithoutIdIdempotent(s: seq<Item>, id: string)
    ensures WithoutId(WithoutId(s, id), id) == WithoutId(s, id)
  {
    var r := WithoutId(s, id);
    assert forall k :: 0 <= k < |r| ==> r[k].id != id by {
      forall k | 0 <= k < |r| ensures r[k].id != id {
        assert r[k] in r;
      }
    }
  }

  /** Deleting a placeholder whose id is fresh undoes its optimistic add. */
  lemma AddThenDeleteRestores(s: seq<Item>, placeholder: Item)
    requires forall k :: 0 <= k < |s| ==> s[k].id != placeholder.id
    ensures DropById(Some(AppendPlaceholder(Some(s), placeholder)), placeholder.id) == s
  {
    WithoutIdAppend(s, [placeholder], placeholder.id);
    assert WithoutId([placeholder], placeholder.id) == [];
  }

  /**
   * The toggle updater as seen on values: the first entry with that id gets
   * its flag set to `completed`; nothing else changes.
   */
  function SetFirstCompleted(es: seq<Entry>, id: string, completed: bool): (r: seq<Entry>)
    ensures |r| == |es|
    ensures forall k :: 0 <= k < |es| ==> r[k].id == es[k].id && r[k].title == es[k].title
    ensures (forall k :: 0 <= k < |es| ==> es[k].id != id) ==> r == es
  {
    if es == [] then []
    else if es[0].id == id then [es[0].(completed := completed)] + es[1..]
    else [es[0]] + SetFirstCompleted(es[1..], id, completed)
  }

  /** `k` is the first position holding an entry with that id. */
  ghost predicate FirstWithId(es: seq<Entry>, id: string, k: int) {
    0 <= k < |es| && es[k].id == id && forall j :: 0 <= j < k ==> es[j].id != id
  }

  /** Only the first match changes, and its flag is set, not flipped. */
  lemma {:induction false} SetFirstCompletedAt(es: seq<Entry>, id: string, completed: bool, k: int)
    requires FirstWithId(es, id, k)
    ensures SetFirstCompleted(es, id, completed) == es[k := es[k].(completed := completed)]
  {
    if k > 0 {
      assert es[0].id != id;
      SetFirstCompletedAt(es[1..], id, completed, k - 1);
      assert es[1..][k - 1 := es[k].(completed := completed)] == es[k := es[k].(completed := completed)][1..];
    }
  }

  /** Setting the same flag again changes nothing. */
  lemma {:induction false} SetFirstCompletedIdempotent(es: seq<Entry>, id: string, completed: bool)
    ensures SetFirstCompleted(SetFirstCompleted(es, id, completed), id, completed)
         == SetFirstCompleted(es, id, completed)
  {
    if es != [] && es[0].id != id {
      var r := SetFirstCompleted(es, id, completed);
      assert r[0] == es[0] && r[1..] == SetFirstCompleted(es[1..], id, completed);
      SetFirstCompletedIdempotent(es[1..], id, completed);
    }
  }

  /** Setting the first match back to its earlier flag restores the list. */
  lemma SetFirstCompletedUndo(es: seq<Entry>, id: string, completed: bool, k: int)
    requires FirstWithId(es, id, k)
    ensures SetFirstCompleted(SetFirstCompleted(es, id, completed), id, es[k].completed) == es
  {
    var r := SetFirstCompleted(es, id, completed);
    SetFirstCompletedAt(es, id, completed, k);
    assert FirstWithId(r, id, k);
    SetFirstCompletedAt(r, id, es[k].completed, k);
  }

  /** Position `k` holds the first entry object in the list with that id. */
  ghost predicate FirstItemWithId(s: seq<Item>, id: string, k: int) {
    0 <= k < |s| && s[k].id == id && forall j :: 0 <= j < k ==> s[j].id != id
  }

  /**
   * `after` is `before` with the first entry carrying that id replaced by an
   * entry with the same id and title and the flag `completed`.
   */
  ghost predicate ReplacedFirst(before: seq<Item>, after: seq<Item>, id: string, completed: bool)
    reads after
  {
    && |after| == |before|
    && (forall k :: 0 <= k < |before| && !FirstItemWithId(before, id, k) ==> after[k] == before[k])
    && (forall k :: FirstItemWithId(before, id, k) ==>
          after[k].id == id && after[k].title == before[k].title && after[k].completed == completed)
  }

  /** An id that occurs in a list has a first occurrence. */
  lemma {:induction false} FirstItemExists(s: seq<Item>, id: string, i: int)
    requires 0 <= i < |s| && s[i].id == id
    ensures exists k :: FirstItemWithId(s, id, k)
  {
    if s[0].id == id {
      assert FirstItemWithId(s, id, 0);
    } else {
      FirstItemExists(s[1..], id, i - 1);
      var k :| FirstItemWithId(s[1..], id, k);
      assert FirstItemWithId(s, id, k + 1);
    }
  }

  /** Read as values, replacing the first match is the toggle updater on values. */
  lemma ReplacedFirstEntries(before: seq<Item>, after: seq<Item>, id: string, completed: bool)
    requires ReplacedFirst(before, after, id, completed)
    ensures Entries(after) == SetFirstCompleted(Entries(before), id, completed)
  {
    EntriesIds(before);
    if forall k :: 0 <= k < |before| ==> before[k].id != id {
      assert after == before;
    } else {
      var i :| 0 <= i < |before| && before[i].id == id;
      FirstItemExists(before, id, i);
      var k :| FirstItemWithId(before, id, k);
      ReplacedFirstEntriesAt(before, after, id, completed, k);
    }
  }

  /** The case of `ReplacedFirstEntries` where position `k` holds the first match. */
  lemma ReplacedFirstEntriesAt(before: seq<Item>, after: seq<Item>, id: string, completed: bool, k: int)
    requires ReplacedFirst(before, after, id, completed) && FirstItemWithId(before, id, k)
    ensures Entries(after) == SetFirstCompleted(Entries(before), id, completed)
  {
    var es := Entries(before);
    EntriesIds(before);
    assert FirstWithId(es, id, k);
    SetFirstCompletedAt(es, id, completed, k);
    var expected := es[k := es[k].(completed := completed)];
    forall j | 0 <= j < |after|
      ensures Entries(after)[j] == expected[j]
    {
      EntriesAt(after, j);
      EntriesAt(before, j);
      if j != k {
        assert j < k ==> before[j].id != id;
        assert !FirstItemWithId(before, id, j);
      }
    }
  }

  /** `findIndex(item => item.id === id)`: the first position with that id, or -1. */
  method FindIndex(s: seq<Item>, id: string) returns (index: int)
    ensures -1 <= index < |s|
    ensures index == -1 <==> forall k :: 0 <= k < |s| ==> s[k].id != id
    ensures 0 <= index ==> s[index].id == id
    ensures 0 <= index ==> forall j :: 0 <= j < index ==> s[j].id != id
  {
    index := 0;
    while index < |s|
      invariant 0 <= index <= |s|
      invariant forall j :: 0 <= j < index ==> s[j].id != id
    {
      if s[index].id == id {
        return;
      }
      index := index + 1;
    }
    index := -1;
  }

  /**
   * The toggle updater as written: a new list holding the same entry
   * objects, in which the first entry with that id has its flag written in
   * place. The written object is shared with every other list that holds it.
   */
  method ToggleInPlace(cached: Option<seq<Item>>, id: string, completed: bool) returns (newData: seq<Item>)
    modifies OrEmpty(cached)
    ensures newData == OrEmpty(cached)
    ensures forall k :: FirstItemWithId(newData, id, k) ==> newData[k].completed == completed
    ensures forall x :: x in newData && x.id != id ==> x.completed == old(x.completed)
    ensures FirstUnshared(newData, id) ==>
              forall k :: 0 <= k < |newData| && !FirstItemWithId(newData, id, k) ==>
                newData[k].completed == old(newData[k].completed)
    ensures FirstUnshared(newData, id) ==> Entries(newData) == SetFirstCompleted(old(Entries(newData)), id, completed)
  {
    newData := OrEmpty(cached);
    ghost var before := Entries(newData);
    EntriesIds(newData);
    var index := FindIndex(newData, id);
    if index == -1 {
      assert forall k :: 0 <= k < |before| ==> before[k].id != id;
      assert SetFirstCompleted(before, id, completed) == before;
    } else {
      assert FirstWithId(before, id, index);
      SetFirstCompletedAt(before, id, completed, index);
      assert FirstItemWithId(newData, id, index);
      forall k | FirstItemWithId(newData, id, k)
        ensures k == index
      {
      }
      WriteFlag(newData, index, completed);
      assert Unshared(newData, index) ==> Entries(newData) == SetFirstCompleted(before, id, completed);
    }
  }

  /**
   * `item.completed = completed` on the entry at `index`: that object alone
   * changes. If that object occurs nowhere else in the list, the values
   * shown change at that position only.
   */
  method WriteFlag(s: seq<Item>, index: int, completed: bool)
    requires 0 <= index < |s|
    modifies s[index]
    ensures s[index].completed == completed
    ensures forall x :: x in s && x != s[index] ==> x.completed == old(x.completed)
    ensures Unshared(s, index) ==>
              forall k :: 0 <= k < |s| && k != index ==> s[k].completed == old(s[k].completed)
    ensures Unshared(s, index) ==> Entries(s) == old(Entries(s))[index := old(Entries(s))[index].(completed := completed)]
  {
    ghost var before := Entries(s);
    ghost var unshared := Unshared(s, index);
    if unshared {
      forall k | 0 <= k < |s|
        ensures before[k] == Entry(s[k].id, s[k].title, s[k].completed)
      {
        EntriesAt(s, k);
      }
    }
    s[index].completed := completed;
    if unshared {
      var expected := before[index := before[index].(completed := completed)];
      forall k | 0 <= k < |s|
        ensures Entries(s)[k] == expected[k]
      {
        EntriesAt(s, k);
        if k != index {
          assert s[k] != s[index];
        }
      }
    }
  }

  /**
   * The toggle updater with the written entry replaced by a fresh copy, so
   * that no object the cache held before is changed.
   */
  method ToggleByCopy(cached: Option<seq<Item>>, id: string, completed: bool) returns (newData: seq<Item>)
    ensures ReplacedFirst(OrEmpty(cached), newData, id, completed)
    ensures forall k :: FirstItemWithId(OrEmpty(cached), id, k) ==> fresh(newData[k])
  {
    var list := OrEmpty(cached);
    newData := list;
    var index := FindIndex(list, id);
    if index > -1 {
      var copy := new Item(list[index].id, list[index].title, completed);
      newData := list[index := copy];
      assert FirstItemWithId(list, id, index);
    }
  }

  // ---------------------------------------------------------------------------
  // The query cache slot of the todo list
  // ---------------------------------------------------------------------------

  /** The calls the callbacks make on the cache slot, in the order they make them. */
  datatype CacheCall = CancelCall | GetDataCall | SetDataCall | InvalidateCall

  /**
   * The cache slot of the `all` query: its data (`None` while unset), whether
   * a refetch is in flight, and whether it has been invalidated.
   */
  class QueryCache {
    var data: Option<seq<Item>>
    var fetching: bool
    var stale: bool
    ghost var log: seq<CacheCall>

    /** The slot as the query mounts: unset, with its first fetch in flight. */
    constructor ()
      ensures data == None && fetching && !stale && log == []
    {
      data := None;
      fetching := true;
      stale := false;
      log := [];
    }

    /** `cancel`: drops the refetch in flight, if any; its result will never land. */
    method Cancel()
      modifies this
      ensures !fetching && data == old(data) && stale == old(stale)
      ensures log == old(log) + [CancelCall]
    {
      fetching := false;
      log := log + [CancelCall];
    }

    /** `getData`. */
    method GetData() returns (d: Option<seq<Item>>)
      modifies this
      ensures d == data
      ensures data == old(data) && fetching == old(fetching) && stale == old(stale)
      ensures log == old(log) + [GetDataCall]
    {
      d := data;
      log := log + [GetDataCall];
    }

    /** `setData`. */
    method SetData(d: Option<seq<Item>>)
      modifies this
      ensures data == d && fetching == old(fetching) && stale == old(stale)
      ensures log == old(log) + [SetDataCall]
    {
      data := d;
      log := log + [SetDataCall];
    }

    /** `invalidate`: marks the slot stale and starts a refetch from the server. */
    method Invalidate()
      modifies this
      ensures stale && fetching && data == old(data)
      ensures log == old(log) + [InvalidateCall]
    {
      stale := true;
      fetching := true;
      log := log + [InvalidateCall];
    }

    /**
     * The server's list arrives for a refetch. It lands only if that refetch
     * is still in flight: a cancelled one is dropped.
     */
    method RefetchArrives(fetched: seq<Item>)
      modifies this
      ensures old(fetching) ==> data == Some(fetched) && !fetching && !stale
      ensures !old(fetching) ==> data == old(data) && !fetching && stale == old(stale)
      ensures log == old(log)
    {
      if fetching {
        data := Some(fetched);
        stale := false;
        fetching := false;
      }
    }
  }

  // ---------------------------------------------------------------------------
  // The view: the mutation callbacks and the add handler
  // ---------------------------------------------------------------------------

  /** A remote call the view issues. */
  datatype Request = AddRequest(title: string) | ToggleRequest(id: string, completed: bool) | DeleteRequest(id: string)

  /**
   * The todo view: the cache slot it shares, the title being typed, the
   * error messages shown to the user, and the remote calls issued.
   */
  class TodoView {
    const cache: QueryCache
    var title: string
    var toasts: seq<string>
    var requests: seq<Request>

    constructor (cache: QueryCache)
      ensures this.cache == cache && title == "" && toasts == [] && requests == []
    {
      this.cache := cache;
      title := "";
      toasts := [];
      requests := [];
    }

    /** The Add button is enabled exactly while a title is typed (`disabled={!title}`). */
    predicate AddEnabled(): (enabled: bool)
      reads this
      ensures enabled <==> |title| > 0
    {
      title != ""
    }

    /**
     * `onMutate` of the add mutation: cancel, snapshot, then append a
     * placeholder with the temporary id and the submitted title.
     */
    method AddOnMutate(newTodo: string, tempId: string) returns (prevData: seq<Item>, placeholder: Item)
      modifies cache
      ensures fresh(placeholder)
      ensures placeholder.id == tempId && placeholder.title == newTodo && !placeholder.completed
      ensures prevData == OrEmpty(old(cache.data))
      ensures cache.data == Some(AppendPlaceholder(old(cache.data), placeholder))
      ensures !cache.fetching && cache.stale == old(cache.stale)
      ensures cache.log == old(cache.log) + [CancelCall, GetDataCall, SetDataCall]
    {
      cache.Cancel();
      var current := cache.GetData();
      prevData := OrEmpty(current);
      placeholder := new Item(tempId, newTodo, false);
      cache.SetData(Some(AppendPlaceholder(cache.data, placeholder)));
    }

    /**
     * `onMutate` of the toggle mutation: cancel, snapshot, then run the
     * toggle updater, which writes into an entry the snapshot also holds.
     */
    method ToggleOnMutate(id: string, completed: bool) returns (prevData: seq<Item>)
      modifies cache, OrEmpty(cache.data)
      ensures prevData == OrEmpty(old(cache.data))
      ensures cache.data == Some(prevData)
      ensures forall k :: FirstItemWithId(prevData, id, k) ==> prevData[k].completed == completed
      ensures forall x :: x in prevData && x.id != id ==> x.completed == old(x.completed)
      ensures FirstUnshared(prevData, id) ==>
                forall k :: 0 <= k < |prevData| && !FirstItemWithId(prevData, id, k) ==>
                  prevData[k].completed == old(prevData[k].completed)
      ensures !cache.fetching && cache.stale == old(cache.stale)
      ensures cache.log == old(cache.log) + [CancelCall, GetDataCall, SetDataCall]
    {
      cache.Cancel();
      var current := cache.GetData();
      prevData := OrEmpty(current);
      var newData := ToggleInPlace(cache.data, id, completed);
      cache.SetData(Some(newData));
    }

    /** `onMutate` of the toggle mutation with the copying updater. */
    method ToggleOnMutateByCopy(id: string, completed: bool) returns (prevData: seq<Item>)
      modifies cache
      ensures prevData == OrEmpty(old(cache.data))
      ensures cache.data.Some? && ReplacedFirst(prevData, cache.data.value, id, completed)
      ensures forall k :: FirstItemWithId(prevData, id, k) ==> fresh(cache.data.value[k])
      ensures !cache.fetching && cache.stale == old(cache.stale)
      ensures cache.log == old(cache.log) + [CancelCall, GetDataCall, SetDataCall]
    {
      cache.Cancel();
      var current := cache.GetData();
      prevData := OrEmpty(current);
      var newData := ToggleByCopy(cache.data, id, completed);
      cache.SetData(Some(newData));
      assert cache.data.value == newData;
    }

    /** `onMutate` of the delete mutation: cancel, snapshot, then filter the id out. */
    method DeleteOnMutate(id: string) returns (prevData: seq<Item>)
      modifies cache
      ensures prevData == OrEmpty(old(cache.data))
      ensures cache.data == Some(DropById(old(cache.data), id))
      ensures !cache.fetching && cache.stale == old(cache.stale)
      ensures cache.log == old(cache.log) + [CancelCall, GetDataCall, SetDataCall]
    {
      cache.Cancel();
      var current := cache.GetData();
      prevData := OrEmpty(current);
      cache.SetData(Some(DropById(cache.data, id)));
    }

    /** `onError` (the same in all three mutations): restore the snapshot and show the message. */
    method OnError(error: TodoRouter.TrpcError, prevData: seq<Item>)
      modifies this, cache
      ensures cache.data == Some(prevData)
      ensures toasts == old(toasts) + [error.message] && requests == old(requests) && title == old(title)
      ensures cache.fetching == old(cache.fetching) && cache.stale == old(cache.stale)
      ensures cache.log == old(cache.log) + [SetDataCall]
    {
      cache.SetData(Some(prevData));
      toasts := toasts + [error.message];
    }

    /** `onSettled` (the same in all three mutations): invalidate the list. */
    method OnSettled()
      modifies cache
      ensures cache.stale && cache.fetching && cache.data == old(cache.data)
      ensures cache.log == old(cache.log) + [InvalidateCall]
    {
      cache.Invalidate();
    }

    /**
     * One add mutation, from `onMutate` to `onSettled`, given the server's
     * reply. On failure the list is the snapshot again (an unset cache comes
     * back as the empty list); either way the slot ends up invalidated.
     */
    method AddTodo(newTodo: string, tempId: string, reply: TodoRouter.Result<bool>)
      modifies this, cache
      ensures requests == old(requests) + [AddRequest(newTodo)] && title == old(title)
      ensures cache.stale && cache.fetching
      ensures reply.Err? ==> cache.data == Some(OrEmpty(old(cache.data)))
      ensures reply.Err? ==> toasts == old(toasts) + [reply.error.message]
      ensures reply.Ok? ==> toasts == old(toasts)
      ensures reply.Ok? && old(cache.data).None? ==> cache.data == Some([])
      ensures reply.Ok? && old(cache.data).Some? ==>
                var before := old(cache.data).value;
                && cache.data.Some? && |cache.data.value| == |before| + 1
                && cache.data.value[..|before|] == before
                && cache.data.value[|before|].id == tempId
                && cache.data.value[|before|].title == newTodo
      ensures cache.log == old(cache.log) + [CancelCall, GetDataCall, SetDataCall]
                + (if reply.Err? then [SetDataCall] else []) + [InvalidateCall]
    {
      var prevData, placeholder := AddOnMutate(newTodo, tempId);
      requests := requests + [AddRequest(newTodo)];
      if reply.Err? {
        OnError(reply.error, prevData);
      }
      OnSettled();
    }

    /**
     * One toggle mutation as written. The list comes back to the same
     * entries on failure as on success, and so does the flag: the rollback
     * restores the snapshot's list, but the snapshot holds the entry object
     * the updater wrote into.
     */
    method ToggleTodo(id: string, completed: bool, reply: TodoRouter.Result<bool>)
      modifies this, cache, OrEmpty(cache.data)
      ensures requests == old(requests) + [ToggleRequest(id, completed)] && title == old(title)
      ensures cache.stale && cache.fetching
      ensures cache.data == Some(OrEmpty(old(cache.data)))
      ensures var list := cache.data.value;
              forall k :: FirstItemWithId(list, id, k) ==> list[k].completed == completed
      ensures var list := cache.data.value;
              forall x :: x in list && x.id != id ==> x.completed == old(x.completed)
      ensures var list := cache.data.value;
              FirstUnshared(list, id) ==>
                forall k :: 0 <= k < |list| && !FirstItemWithId(list, id, k) ==>
                  list[k].completed == old(list[k].completed)
      ensures reply.Err? ==> toasts == old(toasts) + [reply.error.message]
      ensures reply.Ok? ==> toasts == old(toasts)
      ensures cache.log == old(cache.log) + [CancelCall, GetDataCall, SetDataCall]
                + (if reply.Err? then [SetDataCall] else []) + [InvalidateCall]
    {
      var prevData := ToggleOnMutate(id, completed);
      requests := requests + [ToggleRequest(id, completed)];
      if reply.Err? {
        OnError(reply.error, prevData);
      }
      OnSettled();
    }

    /**
     * One toggle mutation with the copying updater: on failure the list
     * shows exactly what it showed before the mutation.
     */
    method ToggleTodoByCopy(id: string, completed: bool, reply: TodoRouter.Result<bool>)
      modifies this, cache
      ensures requests == old(requests) + [ToggleRequest(id, completed)] && title == old(title)
      ensures cache.stale && cache.fetching && cache.data.Some?
      ensures var snapshot := OrEmpty(old(cache.data));
              forall x :: x in snapshot ==> x.completed == old(x.completed)
      ensures reply.Err? ==> cache.data == Some(OrEmpty(old(cache.data)))
      ensures reply.Ok? ==> ReplacedFirst(OrEmpty(old(cache.data)), cache.data.value, id, completed)
      ensures reply.Ok? ==>
                forall k :: FirstItemWithId(OrEmpty(old(cache.data)), id, k) ==> fresh(cache.data.value[k])
      ensures reply.Err? ==> toasts == old(toasts) + [reply.error.message]
      ensures reply.Ok? ==> toasts == old(toasts)
    {
      var prevData := ToggleOnMutateByCopy(id, completed);
      requests := requests + [ToggleRequest(id, completed)];
      if reply.Err? {
        OnError(reply.error, prevData);
      }
      OnSettled();
    }

    /** One delete mutation, from `onMutate` to `onSettled`, given the server's reply. */
    method DeleteTodo(id: string, reply: TodoRouter.Result<bool>)
      modifies this, cache
      ensures requests == old(requests) + [DeleteRequest(id)] && title == old(title)
      ensures cache.stale && cache.fetching
      ensures reply.Err? ==> cache.data == Some(OrEmpty(old(cache.data)))
      ensures reply.Ok? ==> cache.data == Some(DropById(old(cache.data), id))
      ensures reply.Err? ==> toasts == old(toasts) + [reply.error.message]
      ensures reply.Ok? ==> toasts == old(toasts)
      ensures cache.log == old(cache.log) + [CancelCall, GetDataCall, SetDataCall]
                + (if reply.Err? then [SetDataCall] else []) + [InvalidateCall]
    {
      var prevData := DeleteOnMutate(id);
      requests := requests + [DeleteRequest(id)];
      if reply.Err? {
        OnError(reply.error, prevData);
      }
      OnSettled();
    }

    /**
     * `handleAdd`, reachable only through the Add button: clears the title,
     * then submits the title as it was before clearing.
     */
    method HandleAdd(tempId: string, reply: TodoRouter.Result<bool>)
      requires AddEnabled()
      modifies this, cache
      ensures title == ""
      ensures requests == old(requests) + [AddRequest(old(title))] && old(title) != ""
      ensures cache.stale && cache.fetching
      ensures reply.Err? ==> cache.data == Some(OrEmpty(old(cache.data)))
      ensures reply.Ok? && old(cache.data).Some? ==>
                && cache.data.Some? && |cache.data.value| == |old(cache.data).value| + 1
                && cache.data.value[|old(cache.data).value|].title == old(title)
    {
      var submitted := title;
      title := "";
      AddTodo(submitted, tempId, reply);
    }
  }

  /**
   * A failed toggle on a one-entry list: the entry starts undone, the
   * server rejects marking it done, and after the rollback the entry still
   * shows as done.
   */
  method FailedToggleKeepsFlag() returns (before: bool, after: bool)
    ensures !before && after
  {
    var cache := new QueryCache();
    var item := new Item("t1", "buy milk", false);
    cache.RefetchArrives([item]);
    var view := new TodoView(cache);
    before := item.completed;
    view.ToggleTodo("t1", true, TodoRouter.Err(TodoRouter.TrpcError(TodoRouter.InternalServerError, TodoRouter.CannotToggle)));
    assert FirstItemWithId([item], "t1", 0);
    after := item.completed;
  }

  /** The same failed toggle through the copying updater leaves the entry undone. */
  method FailedToggleByCopyRestoresFlag() returns (before: bool, after: bool)
    ensures !before && !after
  {
    var cache := new QueryCache();
    var item := new Item("t1", "buy milk", false);
    cache.RefetchArrives([item]);
    var view := new TodoView(cache);
    before := item.completed;
    view.ToggleTodoByCopy("t1", true, TodoRouter.Err(TodoRouter.TrpcError(TodoRouter.InternalServerError, TodoRouter.CannotToggle)));
    after := item.completed;
  }
}
