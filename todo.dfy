/**
 * The todo list widget: an ordered list of items, each with an id, a text
 * and a completion flag, plus the text typed into the input box.
 *
 * Adding, toggling and deleting build a new list from the old one (the pure
 * functions below) and assign it to the list field of class TodoList. Ids are
 * supplied by the caller and need not be unique.
 */
module Todos {

  datatype Todo = Todo(id: string, text: string, completed: bool)

  /** The list shown when nothing was saved before. */
  const InitialTodos: seq<Todo> := [
    Todo("1", "Learn React", true),
    Todo("2", "Build a Todo App", false),
    Todo("3", "Add styling with Tailwind", false)
  ]

  /** The characters String.prototype.trim strips: ECMAScript white space and line terminators. */
  predicate IsWhitespace(c: char) {
    || c == '\t' || c == '\n' || c == '\U{000B}' || c == '\U{000C}' || c == '\r' || c == ' '
    || c == '\U{00A0}' || c == '\U{1680}' || ('\U{2000}' <= c <= '\U{200A}')
    || c == '\U{2028}' || c == '\U{2029}' || c == '\U{202F}' || c == '\U{205F}'
    || c == '\U{3000}' || c == '\U{FEFF}'
  }

  /**
   * Among the ASCII characters, trim strips exactly tab, line feed, vertical
   * tab, form feed, carriage return and space; letters, digits and
   * punctuation are kept.
   */
  lemma AsciiWhitespace(c: char)
    requires c < '\U{0080}'
    ensures IsWhitespace(c) <==> c in {'\t', '\n', '\U{000B}', '\U{000C}', '\r', ' '}
  {
  }

  ghost predicate Blank(s: string) {
    forall i :: 0 <= i < |s| ==> IsWhitespace(s[i])
  }

  /** Positions lo up to hi of `s` are all white space. */
  ghost predicate WhiteSpan(s: string, lo: int, hi: int)
    requires 0 <= lo && hi <= |s|
  {
    forall i :: lo <= i < hi ==> IsWhitespace(s[i])
  }

  /** Drops the leading white space: what is left is a suffix that starts with a visible character. */
  function TrimStart(s: string): (r: string)
    ensures |r| <= |s| && r == s[|s| - |r|..]
    ensures WhiteSpan(s, 0, |s| - |r|)
    ensures r == [] || !IsWhitespace(r[0])
  {
    if s != [] && IsWhitespace(s[0]) then TrimStart(s[1..]) else s
  }

  /** Drops the trailing white space: what is left is a prefix that ends with a visible character. */
  function TrimEnd(s: string): (r: string)
    ensures |r| <= |s| && r == s[..|r|]
    ensures WhiteSpan(s, |r|, |s|)
    ensures r == [] || !IsWhitespace(r[|r| - 1])
  {
    if s != [] && IsWhitespace(s[|s| - 1]) then TrimEnd(s[..|s| - 1]) else s
  }

  /**
   * A prefix `r` of a suffix `t` of `s`, cut off by white space on both
   * sides, lies in `s` between a blank prefix and a blank suffix.
   */
  lemma SpanAround(s: string, t: string, r: string)
    requires |t| <= |s| && t == s[|s| - |t|..] && WhiteSpan(s, 0, |s| - |t|)
    requires |r| <= |t| && r == t[..|r|] && WhiteSpan(t, |r|, |t|)
    ensures exists k :: 0 <= k <= |s| - |r| && r == s[k..k + |r|] && WhiteSpan(s, 0, k) && WhiteSpan(s, k + |r|, |s|)
  {
    var k := |s| - |t|;
    assert r == s[k..k + |r|];
    assert WhiteSpan(s, k + |r|, |s|) by {
      forall i | k + |r| <= i < |s| ensures IsWhitespace(s[i]) {
        assert s[i] == t[i - k];
      }
    }
  }

  /**
   * String.prototype.trim: the text between a blank prefix and a blank
   * suffix, neither end of it white space.
   */
  function Trim(s: string): (r: string)
    ensures |r| <= |s|
    ensures exists k :: 0 <= k <= |s| - |r| && r == s[k..k + |r|] && WhiteSpan(s, 0, k) && WhiteSpan(s, k + |r|, |s|)
    ensures r == [] || (!IsWhitespace(r[0]) && !IsWhitespace(r[|r| - 1]))
  {
    var t := TrimStart(s);
    SpanAround(s, t, TrimEnd(t));
    TrimEnd(t)
  }

  /** A text trims to the empty string exactly when it is made of white space only. */
  lemma TrimEmptyIffBlank(s: string)
    ensures Trim(s) == [] <==> Blank(s)
  {
    var t := TrimStart(s);
    if Trim(s) == [] {
      assert Blank(t[0..]);
      assert t == [];
      assert s[..|s|] == s;
    }
    if Blank(s) && t != [] {
      assert false;
    }
  }

  /** `todos.map(...)`: flips `completed` on the items with the given id. */
  function Toggle(todos: seq<Todo>, id: string): (r: seq<Todo>)
    ensures |r| == |todos|
    ensures forall i :: 0 <= i < |r| ==>
      && r[i].id == todos[i].id
      && r[i].text == todos[i].text
      && (r[i].completed != todos[i].completed <==> todos[i].id == id)
  {
    if todos == [] then []
    else
      var t := todos[0];
      [if t.id == id then t.(completed := !t.completed) else t] + Toggle(todos[1..], id)
  }

  /** Toggling the same id twice restores the list. */
  lemma ToggleTwice(todos: seq<Todo>, id: string)
    ensures Toggle(Toggle(todos, id), id) == todos
  {
    var r := Toggle(Toggle(todos, id), id);
    assert forall i :: 0 <= i < |r| ==> r[i] == todos[i];
  }

  /** Toggling an id no item carries changes nothing. */
  lemma ToggleAbsent(todos: seq<Todo>, id: string)
    requires forall i :: 0 <= i < |todos| ==> todos[i].id != id
    ensures Toggle(todos, id) == todos
  {
    var r := Toggle(todos, id);
    assert forall i :: 0 <= i < |r| ==> r[i] == todos[i];
  }

  /** `a` is `b` with some items left out, the rest in their order. */
  ghost predicate IsSubsequence(a: seq<Todo>, b: seq<Todo>)
    decreases |b|
  {
    if a == [] then true
    else if b == [] then false
    else if a[0] == b[0] then IsSubsequence(a[1..], b[1..])
    else IsSubsequence(a, b[1..])
  }

  /**
   * `todos.filter(...)`: no item with the id is left, every other item is kept
   * as often as it occurred, and the kept items stay in their order.
   */
  function Delete(todos: seq<Todo>, id: string): (r: seq<Todo>)
    ensures forall i :: 0 <= i < |r| ==> r[i].id != id
    ensures forall t: Todo :: t.id != id ==> multiset(r)[t] == multiset(todos)[t]
    ensures IsSubsequence(r, todos)
  {
    if todos == [] then []
    else
      assert todos == [todos[0]] + todos[1..];
      if todos[0].id != id then [todos[0]] + Delete(todos[1..], id)
      else Delete(todos[1..], id)
  }

  /** Deleting an id no item carries changes nothing; in particular deleting twice is deleting once. */
  lemma {:induction false} DeleteAbsent(todos: seq<Todo>, id: string)
    requires forall i :: 0 <= i < |todos| ==> todos[i].id != id
    ensures Delete(todos, id) == todos
  {
    if todos != [] {
      DeleteAbsent(todos[1..], id);
    }
  }

  /** Deleting an item after toggling it is the same as deleting it. */
  lemma {:induction false} DeleteAfterToggle(todos: seq<Todo>, id: string)
    ensures Delete(Toggle(todos, id), id) == Delete(todos, id)
  {
    if todos != [] {
      var t := Toggle(todos, id);
      assert t[1..] == Toggle(todos[1..], id);
      DeleteAfterToggle(todos[1..], id);
    }
  }

  class TodoList {
    var todos: seq<Todo>
    var newTodo: string

    /** Mounted without saved data: the default list and an empty input. */
    constructor ()
      ensures todos == InitialTodos && newTodo == ""
    {
      todos := InitialTodos;
      newTodo := "";
    }

    /** The input box's change handler. */
    method SetNewTodo(value: string)
      modifies this
      ensures newTodo == value && todos == old(todos)
    {
      newTodo := value;
    }

    /**
     * Appends an item with the given id, the input text as typed and not
     * completed, and clears the input; a blank input changes nothing.
     */
    method AddTodo(id: string)
      modifies this
      ensures Blank(old(newTodo)) ==> todos == old(todos) && newTodo == old(newTodo)
      ensures !Blank(old(newTodo)) ==>
        todos == old(todos) + [Todo(id, old(newTodo), false)] && newTodo == ""
    {
      TrimEmptyIffBlank(newTodo);
      if Trim(newTodo) != "" {
        var todo := Todo(id, newTodo, false);
        todos := todos + [todo];
        newTodo := "";
      }
    }

    method ToggleTodo(id: string)
      modifies this
      ensures todos == Toggle(old(todos), id) && newTodo == old(newTodo)
    {
      todos := Toggle(todos, id);
    }

    method DeleteTodo(id: string)
      modifies this
      ensures todos == Delete(old(todos), id) && newTodo == old(newTodo)
    {
      todos := Delete(todos, id);
    }

    /** Only Enter adds the typed item (with the given id); any other key changes nothing. */
    method HandleKeyDown(key: string, id: string)
      modifies this
      ensures key != "Enter" ==> todos == old(todos) && newTodo == old(newTodo)
      ensures key == "Enter" && Blank(old(newTodo)) ==> todos == old(todos) && newTodo == old(newTodo)
      ensures key == "Enter" && !Blank(old(newTodo)) ==>
        todos == old(todos) + [Todo(id, old(newTodo), false)] && newTodo == ""
    {
      if key == "Enter" {
        AddTodo(id);
      }
    }
  }
}
