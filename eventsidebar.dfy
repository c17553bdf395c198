/** The to-do list of components/EventSidebar.tsx (`TodoList`): its items and the text
    typed into its input, with the add, toggle and remove handlers. */
module EventSidebar {
  import opened Strings
  import opened Types
  import opened Seqs

  /** `todos.map(todo => todo.id === id ? { ...todo, completed: !todo.completed } : todo)`. */
  function Toggled(todos: seq<TodoItem>, id: string): (r: seq<TodoItem>)
    ensures |r| == |todos|
    ensures forall i :: 0 <= i < |todos| ==>
      r[i] == if todos[i].id == id then todos[i].(completed := !todos[i].completed) else todos[i]
  {
    if todos == [] then []
    else
      var t := todos[0];
      [if t.id == id then t.(completed := !t.completed) else t] + Toggled(todos[1..], id)
  }

  /** Toggling the same item twice gives the list back. */
  lemma ToggleTwice(todos: seq<TodoItem>, id: string)
    ensures Toggled(Toggled(todos, id), id) == todos
  {
    var r := Toggled(Toggled(todos, id), id);
    assert forall i :: 0 <= i < |todos| ==> r[i] == todos[i];
  }

  /** Toggling an id no item has changes nothing. */
  lemma ToggleUnknown(todos: seq<TodoItem>, id: string)
    requires forall i :: 0 <= i < |todos| ==> todos[i].id != id
    ensures Toggled(todos, id) == todos
  {
  }

  /** `todos.filter(todo => todo.id !== id)`. */
  function Removed(todos: seq<TodoItem>, id: string): (r: seq<TodoItem>)
    ensures forall x :: x in r <==> x in todos && x.id != id
  {
    Filter(todos, (t: TodoItem) => t.id != id)
  }

  /** Removing keeps the order of what remains: removing from a joined list removes from
      each part. */
  lemma RemovedConcat(a: seq<TodoItem>, b: seq<TodoItem>, id: string)
    ensures Removed(a + b, id) == Removed(a, id) + Removed(b, id)
  {
    FilterConcat(a, b, (t: TodoItem) => t.id != id);
  }

  /** Removing an id no item has changes nothing. */
  lemma RemoveUnknown(todos: seq<TodoItem>, id: string)
    requires forall i :: 0 <= i < |todos| ==> todos[i].id != id
    ensures Removed(todos, id) == todos
  {
    FilterKeepsAll(todos, (t: TodoItem) => t.id != id);
  }

  class TodoList {
    var todos: seq<TodoItem>
    var newTodo: string

    /** The seed items and an empty input. */
    constructor(initial: seq<TodoItem>)
      ensures todos == initial && newTodo == ""
    {
      todos := initial;
      newTodo := "";
    }

    /** The input's `onChange`. */
    method SetInput(text: string)
      modifies this
      ensures newTodo == text && todos == old(todos)
    {
      newTodo := text;
    }

    /** `handleAddTodo`: text that trims to something is added at the end, trimmed and
        not done, and the input is cleared; blank text changes nothing. `id` stands for
        `Date.now().toString()`. */
    method AddTodo(id: string)
      modifies this
      ensures Trim(old(newTodo)) != [] ==>
        todos == old(todos) + [TodoItem(id, Trim(old(newTodo)), false)] && newTodo == ""
      ensures Trim(old(newTodo)) == [] ==> todos == old(todos) && newTodo == old(newTodo)
    {
      var text := Trim(newTodo);
      if text != [] {
        todos := todos + [TodoItem(id, text, false)];
        newTodo := "";
      }
    }

    /** `toggleTodo`. */
    method Toggle(id: string)
      modifies this
      ensures todos == Toggled(old(todos), id) && newTodo == old(newTodo)
    {
      todos := Toggled(todos, id);
    }

    /** `removeTodo`. */
    method Remove(id: string)
      modifies this
      ensures todos == Removed(old(todos), id) && newTodo == old(newTodo)
    {
      todos := Removed(todos, id);
    }
  }
}
