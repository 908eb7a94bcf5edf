/**
 * The to-do controller: an in-memory list of to-do items shared by every
 * request, with lookup, insertion with `max(Id) + 1` ids, update of name and
 * completion guarded by id checks, and deletion. Each operation answers with
 * the HTTP outcome it produces.
 */
module TodoItems {
  import opened Wrappers
  import opened Numerics
  import opened Search

  /** A to-do item; the name is nullable in the source. */
  datatype TodoItem = TodoItem(id: int64, name: Option<string>, isComplete: bool)

  /** The responses the controller produces. */
  datatype Response =
    | Ok(item: TodoItem)
    | Created(item: TodoItem)
    | NoContent
    | NotFound
    | BadRequest

  /** The two items the list starts with. */
  const InitialTodos: seq<TodoItem> := [
    TodoItem(1, Some("學習 C#"), false),
    TodoItem(2, Some("準備面試"), false)
  ]

  /** Position of the first item with `id`: what `List.Find(x => x.Id == id)` finds. */
  function FindById(items: seq<TodoItem>, id: int64): (r: Option<nat>)
    ensures r.Some? ==> r.value < |items| && items[r.value].id == id
    ensures r.Some? ==> forall j :: 0 <= j < r.value ==> items[j].id != id
    ensures r.None? <==> forall j :: 0 <= j < |items| ==> items[j].id != id
  {
    FirstIndex(items, (t: TodoItem) => t.id == id)
  }

  /** No two items share an id. */
  predicate IdsDistinct(items: seq<TodoItem>)
  {
    forall i, j :: 0 <= i < j < |items| ==> items[i].id != items[j].id
  }

  /** The largest id in a non-empty list (`_todos.Max(x => x.Id)`). */
  function MaxId(items: seq<TodoItem>): (m: int64)
    requires |items| > 0
    ensures forall i :: 0 <= i < |items| ==> items[i].id <= m
    ensures exists i :: 0 <= i < |items| && items[i].id == m
  {
    if |items| == 1 then items[0].id
    else
      var rest := MaxId(items[1..]);
      assert forall i :: 1 <= i < |items| ==> items[i].id == items[1..][i - 1].id;
      if items[0].id >= rest then items[0].id
      else
        ghost var k :| 0 <= k < |items[1..]| && items[1..][k].id == rest;
        assert items[k + 1].id == rest;
        rest
  }

  /**
   * The id a new item receives: 1 for an empty list, otherwise the largest id
   * plus one in 64-bit arithmetic. Below the largest `long` it is above every
   * id in the list; at the largest `long` it wraps to the smallest.
   */
  function NextId(items: seq<TodoItem>): (r: int64)
    ensures |items| == 0 ==> r == 1
    ensures |items| > 0 && MaxId(items) < MaxInt64 ==> r as int == MaxId(items) as int + 1
    ensures |items| > 0 && MaxId(items) < MaxInt64 ==>
              forall i :: 0 <= i < |items| ==> items[i].id < r
    ensures |items| > 0 && MaxId(items) == MaxInt64 ==> r == MinInt64
  {
    if |items| > 0 then WrappingIncrement(MaxId(items)) else 1
  }

  /** The list after the item at `k` takes the name and completion flag of `body`; ids and all other items stay. */
  function Renamed(items: seq<TodoItem>, k: nat, body: TodoItem): (r: seq<TodoItem>)
    requires k < |items|
    ensures |r| == |items|
    ensures r[k] == TodoItem(items[k].id, body.name, body.isComplete)
    ensures forall i :: 0 <= i < |items| && i != k ==> r[i] == items[i]
  {
    items[k := items[k].(name := body.name, isComplete := body.isComplete)]
  }

  /** The list without the item at `k`, the others in their original order. */
  function RemovedAt(items: seq<TodoItem>, k: nat): (r: seq<TodoItem>)
    requires k < |items|
    ensures |r| == |items| - 1
    ensures forall i :: 0 <= i < k ==> r[i] == items[i]
    ensures forall i :: k <= i < |r| ==> r[i] == items[i + 1]
    ensures multiset(r) == multiset(items) - multiset{items[k]}
  {
    assert items == items[..k] + [items[k]] + items[k + 1..];
    items[..k] + items[k + 1..]
  }

  /** The initial list has distinct ids, none complete, and the next id it hands out is 3. */
  lemma InitialTodosFacts()
    ensures |InitialTodos| == 2 && IdsDistinct(InitialTodos)
    ensures forall i :: 0 <= i < |InitialTodos| ==> !InitialTodos[i].isComplete
    ensures NextId(InitialTodos) == 3
  {
    assert MaxId(InitialTodos) == 2;
  }

  /** Appending an item with the next id keeps ids distinct, as long as the largest id is not the largest `long`. */
  lemma PostKeepsIdsDistinct(items: seq<TodoItem>, item: TodoItem)
    requires IdsDistinct(items)
    requires |items| == 0 || MaxId(items) < MaxInt64
    ensures IdsDistinct(items + [item.(id := NextId(items))])
  {
    var s := items + [item.(id := NextId(items))];
    forall i, j | 0 <= i < j < |s| ensures s[i].id != s[j].id {
      if j == |items| {
        assert s[i] == items[i];
      } else {
        assert s[i] == items[i] && s[j] == items[j];
      }
    }
  }

  /**
   * Where the C# `+ 1` wraps: a list whose largest id is the largest `long` and
   * which also holds the smallest `long` receives a second item with that id.
   */
  lemma PostAtMaxIdDuplicates()
    ensures var items := [TodoItem(MinInt64, None, false), TodoItem(MaxInt64, None, false)];
            var s := items + [TodoItem(NextId(items), None, false)];
            IdsDistinct(items) && !IdsDistinct(s)
  {
    var items := [TodoItem(MinInt64, None, false), TodoItem(MaxInt64, None, false)];
    assert MaxId(items) == MaxInt64;
    var s := items + [TodoItem(NextId(items), None, false)];
    assert s[0].id == s[2].id;
  }

  /** An update keeps ids, hence keeps them distinct. */
  lemma RenameKeepsIdsDistinct(items: seq<TodoItem>, k: nat, body: TodoItem)
    requires k < |items| && IdsDistinct(items)
    ensures IdsDistinct(Renamed(items, k, body))
  {
    var r := Renamed(items, k, body);
    assert forall i :: 0 <= i < |items| ==> r[i].id == items[i].id;
  }

  /** Deleting keeps ids distinct, and the deleted id is then gone. */
  lemma RemoveKeepsIdsDistinct(items: seq<TodoItem>, k: nat)
    requires k < |items| && IdsDistinct(items)
    ensures IdsDistinct(RemovedAt(items, k))
    ensures FindById(RemovedAt(items, k), items[k].id).None?
  {
    var r := RemovedAt(items, k);
    forall i, j | 0 <= i < j < |r| ensures r[i].id != r[j].id {
      var i' := if i < k then i else i + 1;
      var j' := if j < k then j else j + 1;
      assert r[i] == items[i'] && r[j] == items[j'];
    }
    forall i | 0 <= i < |r| ensures r[i].id != items[k].id {
      var i' := if i < k then i else i + 1;
      assert r[i] == items[i'];
    }
  }

  /** With distinct ids the lookup finds the one item carrying the id. */
  lemma FindByIdUnique(items: seq<TodoItem>, k: nat)
    requires k < |items| && IdsDistinct(items)
    ensures FindById(items, items[k].id) == Some(k)
  {
  }

  /**
   * The controller together with its list. In the source the list is static:
   * one list per process, initialised once and shared by every request. One
   * object stands for it, and its constructor for that one initialisation.
   */
  class TodoItemsController {
    var todos: seq<TodoItem>

    constructor ()
      ensures todos == InitialTodos
    {
      todos := InitialTodos;
    }

    /** GET all: the whole list in order. */
    method GetTodoItems() returns (r: seq<TodoItem>)
      ensures r == todos
    {
      r := todos;
    }

    /** GET by id: the first item with that id, or NotFound when there is none. */
    method GetTodoItem(id: int64) returns (r: Response)
      ensures r == NotFound <==> forall j :: 0 <= j < |todos| ==> todos[j].id != id
      ensures r.Ok? ==> exists k :: 0 <= k < |todos| && r.item == todos[k] &&
                                    todos[k].id == id &&
                                    forall j :: 0 <= j < k ==> todos[j].id != id
      ensures r.Ok? || r == NotFound
    {
      var found := FindById(todos, id);
      if found.None? {
        return NotFound;
      }
      r := Ok(todos[found.value]);
    }

    /** POST: give the item the next id and append it. */
    method PostTodoItem(item: TodoItem) returns (r: Response)
      modifies this
      ensures r == Created(item.(id := NextId(old(todos))))
      ensures todos == old(todos) + [r.item]
      ensures old(IdsDistinct(todos)) && (|old(todos)| == 0 || old(MaxId(todos)) < MaxInt64) ==>
                IdsDistinct(todos)
    {
      var nextId: int64 := if |todos| > 0 then WrappingIncrement(MaxId(todos)) else 1;
      var created := item.(id := nextId);
      if IdsDistinct(todos) && (|todos| == 0 || MaxId(todos) < MaxInt64) {
        PostKeepsIdsDistinct(todos, item);
      }
      todos := todos + [created];
      r := Created(created);
    }

    /** PUT: BadRequest on an id mismatch, NotFound on an unknown id, otherwise update name and completion. */
    method PutTodoItem(id: int64, item: TodoItem) returns (r: Response)
      modifies this
      ensures id != item.id ==> r == BadRequest && todos == old(todos)
      ensures id == item.id && FindById(old(todos), id).None? ==> r == NotFound && todos == old(todos)
      ensures id == item.id && FindById(old(todos), id).Some? ==>
                r == NoContent && todos == Renamed(old(todos), FindById(old(todos), id).value, item)
      ensures old(IdsDistinct(todos)) ==> IdsDistinct(todos)
    {
      if id != item.id {
        return BadRequest;
      }
      var found := FindById(todos, id);
      if found.None? {
        return NotFound;
      }
      if IdsDistinct(todos) {
        RenameKeepsIdsDistinct(todos, found.value, item);
      }
      todos := Renamed(todos, found.value, item);
      r := NoContent;
    }

    /** DELETE: NotFound on an unknown id, otherwise remove the first item with that id. */
    method DeleteTodoItem(id: int64) returns (r: Response)
      modifies this
      ensures FindById(old(todos), id).None? ==> r == NotFound && todos == old(todos)
      ensures FindById(old(todos), id).Some? ==>
                r == NoContent && todos == RemovedAt(old(todos), FindById(old(todos), id).value)
      ensures old(IdsDistinct(todos)) ==> IdsDistinct(todos) && FindById(todos, id).None?
    {
      var found := FindById(todos, id);
      if found.None? {
        return NotFound;
      }
      if IdsDistinct(todos) {
        RemoveKeepsIdsDistinct(todos, found.value);
      }
      todos := RemovedAt(todos, found.value);
      r := NoContent;
    }
  }
}
