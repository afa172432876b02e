/** The todo view: an in-memory list of items with add, toggle and delete, a
    filtered view and a completed count. */
module TodoComponent {
  import opened Optional
  import opened Text

  datatype Priority = Low | Medium | High

  /** One todo item; `createdAt` is a time in milliseconds since the epoch. */
  datatype Todo = Todo(
    id: int,
    title: string,
    description: string,
    completed: bool,
    priority: Priority,
    createdAt: int)

  datatype FilterType = All | Active | Completed

  /** The two items the view starts with (created 2024-01-01 and 2024-01-02, UTC). */
  const InitialTodos: seq<Todo> := [
    Todo(1, "Learn Angular 18", "Study standalone components and new features", false, High, 1704067200000),
    Todo(2, "Build Demo Project", "Create comprehensive demo for presentation", true, Medium, 1704153600000)
  ]

  // ---------------------------------------------------------------------------
  // Filters

  /** The items whose completion flag is `completed`, in list order. */
  function WithStatus(todos: seq<Todo>, completed: bool): (r: seq<Todo>)
    ensures |r| <= |todos|
    ensures forall x :: x in r <==> x in todos && x.completed == completed
  {
    if todos == [] then []
    else (if todos[0].completed == completed then [todos[0]] else []) + WithStatus(todos[1..], completed)
  }

  /** Filtering a concatenation filters each part in place, so the filter keeps
      the relative order of the items. */
  lemma {:induction false} WithStatusConcat(a: seq<Todo>, b: seq<Todo>, completed: bool)
    ensures WithStatus(a + b, completed) == WithStatus(a, completed) + WithStatus(b, completed)
  {
    if a != [] {
      assert (a + b)[1..] == a[1..] + b;
      WithStatusConcat(a[1..], b, completed);
    } else {
      assert a + b == b;
    }
  }

  /** The active and the completed items together are exactly the list. */
  lemma {:induction false} ActiveCompletedPartition(todos: seq<Todo>)
    ensures multiset(WithStatus(todos, false)) + multiset(WithStatus(todos, true)) == multiset(todos)
    ensures |WithStatus(todos, false)| + |WithStatus(todos, true)| == |todos|
  {
    if todos != [] {
      ActiveCompletedPartition(todos[1..]);
      assert todos == [todos[0]] + todos[1..];
    }
  }

  /** The number of completed items (the `completedTodos` getter). */
  function CompletedCount(todos: seq<Todo>): (n: nat)
    ensures n <= |todos|
  {
    |WithStatus(todos, true)|
  }

  /** The completed count plus the number of active items is the list length. */
  lemma CompletedCountComplement(todos: seq<Todo>)
    ensures CompletedCount(todos) + |WithStatus(todos, false)| == |todos|
  {
    ActiveCompletedPartition(todos);
  }

  // ---------------------------------------------------------------------------
  // Delete

  /** The list without any item whose id is `id`, the rest in their order. */
  function WithoutId(todos: seq<Todo>, id: int): (r: seq<Todo>)
    ensures |r| <= |todos|
    ensures forall x :: x in r <==> x in todos && x.id != id
  {
    if todos == [] then []
    else (if todos[0].id != id then [todos[0]] else []) + WithoutId(todos[1..], id)
  }

  /** Deleting keeps the relative order of the remaining items. */
  lemma {:induction false} WithoutIdConcat(a: seq<Todo>, b: seq<Todo>, id: int)
    ensures WithoutId(a + b, id) == WithoutId(a, id) + WithoutId(b, id)
  {
    if a != [] {
      assert (a + b)[1..] == a[1..] + b;
      WithoutIdConcat(a[1..], b, id);
    } else {
      assert a + b == b;
    }
  }

  /** Deleting an id that no item has leaves the list as it was. */
  lemma {:induction false} WithoutAbsentId(todos: seq<Todo>, id: int)
    requires forall j :: 0 <= j < |todos| ==> todos[j].id != id
    ensures WithoutId(todos, id) == todos
  {
    if todos != [] {
      WithoutAbsentId(todos[1..], id);
      assert todos == [todos[0]] + todos[1..];
    }
  }

  /** Deleting the same id twice is deleting it once. */
  lemma WithoutIdIdempotent(todos: seq<Todo>, id: int)
    ensures WithoutId(WithoutId(todos, id), id) == WithoutId(todos, id)
  {
    var r := WithoutId(todos, id);
    forall j | 0 <= j < |r| ensures r[j].id != id {
      assert r[j] in r;
    }
    WithoutAbsentId(r, id);
  }

  // ---------------------------------------------------------------------------
  // Toggle

  /** The index of the first item with id `id` (the `find` lookup), if any. */
  function FirstIndexOf(todos: seq<Todo>, id: int): (k: Option<nat>)
    ensures k.Some? ==> k.value < |todos| && todos[k.value].id == id
    ensures k.Some? ==> forall j :: 0 <= j < k.value ==> todos[j].id != id
    ensures k.None? ==> forall j :: 0 <= j < |todos| ==> todos[j].id != id
  {
    if todos == [] then None
    else if todos[0].id == id then Some(0)
    else match FirstIndexOf(todos[1..], id)
      case None => None
      case Some(k) => Some(k + 1)
  }

  /** The scan behind `find`: walks the list until an item with id `id` turns up. */
  method FindTodo(todos: seq<Todo>, id: int) returns (k: Option<nat>)
    ensures k.Some? ==> k.value < |todos| && todos[k.value].id == id
    ensures k.Some? ==> forall j :: 0 <= j < k.value ==> todos[j].id != id
    ensures k.None? ==> forall j :: 0 <= j < |todos| ==> todos[j].id != id
  {
    var i := 0;
    while i < |todos|
      invariant 0 <= i <= |todos|
      invariant forall j :: 0 <= j < i ==> todos[j].id != id
    {
      if todos[i].id == id {
        return Some(i);
      }
      i := i + 1;
    }
    return None;
  }

  /** The first item with id `id` with its completion flag flipped; the list is
      unchanged when no item has that id. */
  function Toggled(todos: seq<Todo>, id: int): (r: seq<Todo>)
    ensures |r| == |todos|
  {
    match FirstIndexOf(todos, id)
    case None => todos
    case Some(k) => todos[k := todos[k].(completed := !todos[k].completed)]
  }

  /** Toggle changes exactly one item, the first with the id, and only its flag. */
  lemma ToggledChangesFirstOnly(todos: seq<Todo>, id: int, j: nat)
    requires j < |todos|
    ensures Toggled(todos, id)[j] ==
      if FirstIndexOf(todos, id) == Some(j) then todos[j].(completed := !todos[j].completed) else todos[j]
  {
  }

  /** Toggling an absent id leaves the list as it was. */
  lemma ToggleAbsentId(todos: seq<Todo>, id: int)
    requires forall j :: 0 <= j < |todos| ==> todos[j].id != id
    ensures Toggled(todos, id) == todos
  {
  }

  /** Toggling the same id twice restores the list. */
  lemma ToggleTwice(todos: seq<Todo>, id: int)
    ensures Toggled(Toggled(todos, id), id) == todos
  {
    var once := Toggled(todos, id);
    match FirstIndexOf(todos, id)
    case None =>
    case Some(k) =>
      FirstIndexUnique(once, id, k);
  }

  /** Any index carrying `id` with no earlier `id` is the one `FirstIndexOf` finds. */
  lemma {:induction false} FirstIndexUnique(todos: seq<Todo>, id: int, k: nat)
    requires k < |todos| && todos[k].id == id
    requires forall j :: 0 <= j < k ==> todos[j].id != id
    ensures FirstIndexOf(todos, id) == Some(k)
  {
    if k > 0 {
      FirstIndexUnique(todos[1..], id, k - 1);
    }
  }

  /** Flipping one item's flag changes the completed count by exactly one. */
  lemma {:induction false} FlipChangesCount(todos: seq<Todo>, k: nat)
    requires k < |todos|
    ensures var flipped := todos[k := todos[k].(completed := !todos[k].completed)];
      CompletedCount(flipped) == if todos[k].completed then CompletedCount(todos) - 1 else CompletedCount(todos) + 1
  {
    var flipped := todos[k := todos[k].(completed := !todos[k].completed)];
    assert todos == todos[..k] + [todos[k]] + todos[k + 1..];
    assert flipped == todos[..k] + [flipped[k]] + todos[k + 1..];
    WithStatusConcat(todos[..k] + [todos[k]], todos[k + 1..], true);
    WithStatusConcat(todos[..k], [todos[k]], true);
    WithStatusConcat(todos[..k] + [flipped[k]], todos[k + 1..], true);
    WithStatusConcat(todos[..k], [flipped[k]], true);
  }

  /** Toggling an id that some item has moves the completed count by exactly one. */
  lemma ToggleChangesCount(todos: seq<Todo>, id: int)
    requires exists j :: 0 <= j < |todos| && todos[j].id == id
    ensures CompletedCount(Toggled(todos, id)) == CompletedCount(todos) + 1
         || CompletedCount(Toggled(todos, id)) == CompletedCount(todos) - 1
  {
    var k := FirstIndexOf(todos, id).value;
    FlipChangesCount(todos, k);
  }

  // ---------------------------------------------------------------------------
  // The component

  class TodoComponent {
    var newTodoTitle: string
    var newTodoDescription: string
    var newTodoPriority: Priority
    var todos: seq<Todo>
    var filterType: FilterType

    constructor ()
      ensures newTodoTitle == "" && newTodoDescription == "" && newTodoPriority == Medium
      ensures todos == InitialTodos && filterType == All
    {
      newTodoTitle := "";
      newTodoDescription := "";
      newTodoPriority := Medium;
      todos := InitialTodos;
      filterType := All;
    }

    /** The items shown under the current filter, in list order. */
    function FilteredTodos(): (r: seq<Todo>)
      reads this
      ensures forall x :: x in r ==> x in todos
      ensures filterType == All ==> r == todos
      ensures filterType != All ==> forall x :: x in r <==> x in todos && x.completed == (filterType == Completed)
    {
      match filterType
      case Active => WithStatus(todos, false)
      case Completed => WithStatus(todos, true)
      case All => todos
    }

    /** The number of completed items. */
    function CompletedTodos(): (n: nat)
      reads this
      ensures n <= |todos|
      ensures n == |WithStatus(todos, true)|
    {
      CompletedCount(todos)
    }

    /** Adds an item built from the input fields, unless the title is blank, and
        then clears the inputs. `now` and `createdAt` are the two clock reads
        (`Date.now()` for the id, `new Date()` for the timestamp). */
    method OnAddTodo(now: int, createdAt: int)
      modifies this
      ensures IsBlank(old(newTodoTitle)) ==> unchanged(this)
      ensures !IsBlank(old(newTodoTitle)) ==>
                && todos == old(todos) + [Todo(now, old(newTodoTitle), old(newTodoDescription), false, old(newTodoPriority), createdAt)]
                && newTodoTitle == "" && newTodoDescription == "" && newTodoPriority == Medium
                && filterType == old(filterType)
    {
      if !IsBlank(newTodoTitle) {
        var item := Todo(now, newTodoTitle, newTodoDescription, false, newTodoPriority, createdAt);
        todos := todos + [item];
        newTodoTitle := "";
        newTodoDescription := "";
        newTodoPriority := Medium;
      }
    }

    /** Flips the completion flag of the first item with id `id`, if any. */
    method OnToggleTodo(id: int)
      modifies this`todos
      ensures todos == Toggled(old(todos), id)
    {
      var k := FindTodo(todos, id);
      FirstIndexUniqueOrNone(todos, id, k);
      if k.Some? {
        var i := k.value;
        todos := todos[i := todos[i].(completed := !todos[i].completed)];
      }
    }

    /** Removes every item with id `id`. */
    method OnDeleteTodo(id: int)
      modifies this`todos
      ensures todos == WithoutId(old(todos), id)
    {
      todos := WithoutId(todos, id);
    }
  }

  /** What `FindTodo` returns is what `FirstIndexOf` computes. */
  lemma FirstIndexUniqueOrNone(todos: seq<Todo>, id: int, k: Option<nat>)
    requires k.Some? ==> k.value < |todos| && todos[k.value].id == id
    requires k.Some? ==> forall j :: 0 <= j < k.value ==> todos[j].id != id
    requires k.None? ==> forall j :: 0 <= j < |todos| ==> todos[j].id != id
    ensures FirstIndexOf(todos, id) == k
  {
    if k.Some? {
      FirstIndexUnique(todos, id, k.value);
    }
  }
}
