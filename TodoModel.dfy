/**
  The value-level part of the todo-list page: the shapes the remote API
  exchanges, the list transforms the handlers pass to the `todos` state cell,
  the whitespace trimming that guards submission, the error-message decision
  table, and each handler's completion as a function from the old page state
  to the new one.
 */
module TodoModel {

  datatype Option<T> = None | Some(value: T)

  /** One item of the list, as the remote store returns it. */
  datatype Todo = Todo(id: int, text: string, completed: bool)

  /** The `data` field of a response: either a list of items or one item. */
  datatype Payload = Many(items: seq<Todo>) | One(item: Todo)

  /** A decoded response body `{success, data, message?}`. */
  datatype Response = Response(success: bool, data: Payload, message: Option<string>)

  /** What a round trip yields: the request or the decoding threw, or a body arrived. */
  datatype Outcome = ConnectionFailed | Replied(response: Response)

  /** The request a handler issues to the remote API. */
  datatype Request = ListTodos | CreateTodo(text: string) | UpdateTodo(id: int, completed: bool) | RemoveTodo(id: int)

  /** The four state cells of the page. */
  datatype TodoState = TodoState(todos: seq<Todo>, newTodo: string, loading: bool, error: string)

  const LoadFailed: string := "Erro ao carregar todos"
  const AddFailed: string := "Erro ao adicionar todo"
  const UpdateFailed: string := "Erro ao atualizar todo"
  const DeleteFailed: string := "Erro ao deletar todo"
  const ConnectionError: string := "Erro de conex\U{00E3}o com a API"

  // ---------------------------------------------------------------------------
  // Trimming

  /** The characters `String.prototype.trim` strips: ECMAScript WhiteSpace and LineTerminator. */
  predicate IsWhitespace(c: char)
  {
    c == '\t' || c == '\n' || c == '\U{000B}' || c == '\U{000C}' || c == '\r' || c == ' ' ||
    c == '\U{00A0}' || c == '\U{1680}' || ('\U{2000}' <= c <= '\U{200A}') ||
    c == '\U{2028}' || c == '\U{2029}' || c == '\U{202F}' || c == '\U{205F}' ||
    c == '\U{3000}' || c == '\U{FEFF}'
  }

  predicate IsBlank(s: string)
  {
    forall i :: 0 <= i < |s| ==> IsWhitespace(s[i])
  }

  /** Drops the longest all-whitespace prefix. */
  function TrimStart(s: string): (r: string)
    ensures |r| <= |s| && r == s[|s| - |r|..]
    ensures forall i :: 0 <= i < |s| - |r| ==> IsWhitespace(s[i])
    ensures r != [] ==> !IsWhitespace(r[0])
  {
    if s != [] && IsWhitespace(s[0]) then TrimStart(s[1..]) else s
  }

  /** Drops the longest all-whitespace suffix. */
  function TrimEnd(s: string): (r: string)
    ensures |r| <= |s| && r == s[..|r|]
    ensures forall i :: |r| <= i < |s| ==> IsWhitespace(s[i])
    ensures r != [] ==> !IsWhitespace(r[|r| - 1])
  {
    if s != [] && IsWhitespace(s[|s| - 1]) then TrimEnd(s[..|s| - 1]) else s
  }

  /**
    `s.trim()`: the slice of `s` left after cutting an all-whitespace prefix
    and an all-whitespace suffix, where the slice, unless empty, starts and
    ends with a non-whitespace character; it is empty exactly when `s` is blank.
   */
  function Trim(s: string): (r: string)
    ensures exists a, b :: 0 <= a <= b <= |s| && r == s[a..b] &&
              (forall i :: 0 <= i < a ==> IsWhitespace(s[i])) &&
              (forall i :: b <= i < |s| ==> IsWhitespace(s[i]))
    ensures r != [] ==> !IsWhitespace(r[0]) && !IsWhitespace(r[|r| - 1])
    ensures r == [] <==> IsBlank(s)
  {
    TrimEndOfSuffix(s, TrimStart(s));
    TrimIsSlice(s, TrimStart(s));
    TrimEnd(TrimStart(s))
  }

  /** Trimming the end of a whitespace-cut suffix leaves a slice of `s` with whitespace on both sides. */
  lemma TrimIsSlice(s: string, front: string)
    requires |front| <= |s| && front == s[|s| - |front|..]
    requires forall i :: 0 <= i < |s| - |front| ==> IsWhitespace(s[i])
    ensures exists a, b :: 0 <= a <= b <= |s| && TrimEnd(front) == s[a..b] &&
              (forall i :: 0 <= i < a ==> IsWhitespace(s[i])) &&
              (forall i :: b <= i < |s| ==> IsWhitespace(s[i]))
  {
    var r := TrimEnd(front);
    var a := |s| - |front|;
    var b := a + |r|;
    assert r == s[a..b];
    forall i | b <= i < |s| ensures IsWhitespace(s[i]) {
      assert s[i] == front[i - a];
    }
  }

  /** Trimming the end of a suffix whose cut-off prefix is whitespace leaves nothing only when the whole is blank. */
  lemma TrimEndOfSuffix(s: string, front: string)
    requires |front| <= |s| && front == s[|s| - |front|..]
    requires forall i :: 0 <= i < |s| - |front| ==> IsWhitespace(s[i])
    ensures TrimEnd(front) == [] <==> IsBlank(s)
  {
    var k := |s| - |front|;
    if TrimEnd(front) == [] {
      forall i | 0 <= i < |s| ensures IsWhitespace(s[i]) {
        if i >= k {
          assert s[i] == front[i - k];
        }
      }
    } else {
      assert TrimEnd(front)[0] == front[0] == s[k];
    }
  }

  // ---------------------------------------------------------------------------
  // List transforms

  predicate HasId(s: seq<Todo>, id: int)
  {
    exists t :: t in s && t.id == id
  }

  /** No two items share an id. */
  predicate UniqueIds(s: seq<Todo>)
  {
    forall i, j :: 0 <= i < j < |s| ==> s[i].id != s[j].id
  }

  /** Number of items carrying `id`. */
  function CountId(s: seq<Todo>, id: int): (n: nat)
    ensures n <= |s|
    ensures n == 0 <==> !HasId(s, id)
  {
    if s == [] then 0
    else (if s[0].id == id then 1 else 0) + CountId(s[1..], id)
  }

  /** `r` is `s` with some items left out, the rest kept in their relative order. */
  predicate IsSubsequence(r: seq<Todo>, s: seq<Todo>)
    decreases |s|
  {
    if r == [] then true
    else if s == [] then false
    else (r[0] == s[0] && IsSubsequence(r[1..], s[1..])) || IsSubsequence(r, s[1..])
  }

  /** `prev.map(todo => todo.id === id ? {...todo, completed} : todo)` */
  function SetCompleted(s: seq<Todo>, id: int, completed: bool): (r: seq<Todo>)
    ensures |r| == |s|
    ensures forall i :: 0 <= i < |s| && s[i].id == id ==>
              r[i] == Todo(s[i].id, s[i].text, completed)
    ensures forall i :: 0 <= i < |s| && s[i].id != id ==> r[i] == s[i]
  {
    if s == [] then []
    else [if s[0].id == id then s[0].(completed := completed) else s[0]] + SetCompleted(s[1..], id, completed)
  }

  /** `prev.filter(todo => todo.id !== id)` */
  function RemoveById(s: seq<Todo>, id: int): (r: seq<Todo>)
    ensures forall t :: t in r <==> t in s && t.id != id
    ensures IsSubsequence(r, s)
    ensures |r| + CountId(s, id) == |s|
    ensures !HasId(s, id) ==> r == s
  {
    if s == [] then []
    else if s[0].id == id then RemoveById(s[1..], id)
    else
      var rest := RemoveById(s[1..], id);
      assert ([s[0]] + rest)[1..] == rest;
      [s[0]] + rest
  }

  /** `todos.filter(t => t.completed).length` */
  function CompletedCount(s: seq<Todo>): (n: nat)
    ensures n <= |s|
    ensures n == 0 <==> forall i :: 0 <= i < |s| ==> !s[i].completed
    ensures n == |s| <==> forall i :: 0 <= i < |s| ==> s[i].completed
  {
    if s == [] then 0
    else (if s[0].completed then 1 else 0) + CompletedCount(s[1..])
  }

  /**
    The count is additive over concatenation; with the single-item case (1 for
    a completed item, 0 otherwise, from the contract above) this pins it to the
    number of completed items.
   */
  lemma {:induction false} CompletedCountConcat(a: seq<Todo>, b: seq<Todo>)
    ensures CompletedCount(a + b) == CompletedCount(a) + CompletedCount(b)
  {
    if a != [] {
      CompletedCountConcat(a[1..], b);
      assert (a + b)[1..] == a[1..] + b;
    } else {
      assert a + b == b;
    }
  }

  // ---------------------------------------------------------------------------
  // View values

  /** The submit button's `disabled` expression. */
  function SubmitDisabled(loading: bool, newTodo: string): (r: bool)
    ensures r <==> loading || IsBlank(newTodo)
  {
    loading || Trim(newTodo) == []
  }

  /** The request `addTodo` issues for the current input, or None when it returns early. */
  function AddRequest(newTodo: string): (r: Option<Request>)
    ensures r.None? <==> IsBlank(newTodo)
    ensures r.Some? ==> r.value == CreateTodo(Trim(newTodo))
    ensures r.Some? ==> r.value.text != [] &&
                        !IsWhitespace(r.value.text[0]) && !IsWhitespace(r.value.text[|r.value.text| - 1])
  {
    var text := Trim(newTodo);
    if text == [] then None else Some(CreateTodo(text))
  }

  // ---------------------------------------------------------------------------
  // Error messages

  /** `result.message || fallback`: an absent or empty message gives way to the fallback. */
  function MessageOr(message: Option<string>, fallback: string): (r: string)
    ensures message.Some? && message.value != [] ==> r == message.value
    ensures message.None? || message.value == [] ==> r == fallback
    ensures fallback != [] ==> r != []
  {
    if message.Some? && message.value != [] then message.value else fallback
  }

  /** The error text a failed add, toggle or delete leaves. */
  function FailureText(o: Outcome, fallback: string): (r: string)
    ensures fallback != [] ==> r != []
    ensures o.ConnectionFailed? ==> r == ConnectionError
    ensures o.Replied? && o.response.message.Some? && o.response.message.value != [] ==> r == o.response.message.value
    ensures o.Replied? && (o.response.message.None? || o.response.message.value == []) ==> r == fallback
  {
    match o
    case ConnectionFailed => ConnectionError
    case Replied(resp) => MessageOr(resp.message, fallback)
  }

  // ---------------------------------------------------------------------------
  // Handler completions

  function Initial(): TodoState
  {
    TodoState([], "", true, "")
  }

  predicate FetchAccepted(o: Outcome)
  {
    o.Replied? && o.response.success && o.response.data.Many?
  }

  predicate AddAccepted(o: Outcome)
  {
    o.Replied? && o.response.success && o.response.data.One?
  }

  predicate ChangeAccepted(o: Outcome)
  {
    o.Replied? && o.response.success
  }

  /** `setLoading(true)` at the start of `fetchTodos`. */
  function StartFetch(st: TodoState): (r: TodoState)
    ensures r.loading && r.todos == st.todos && r.newTodo == st.newTodo && r.error == st.error
  {
    st.(loading := true)
  }

  /** The rest of `fetchTodos`, ending with `setLoading(false)` in `finally`. */
  function FinishFetch(st: TodoState, o: Outcome): (r: TodoState)
    ensures !r.loading && r.newTodo == st.newTodo
    ensures FetchAccepted(o) ==> r.todos == o.response.data.items && r.error == ""
    ensures !FetchAccepted(o) ==> r.todos == st.todos
    ensures o.ConnectionFailed? ==> r.error == ConnectionError
    ensures o.Replied? && !FetchAccepted(o) ==> r.error == LoadFailed
  {
    match o
    case ConnectionFailed => st.(error := ConnectionError, loading := false)
    case Replied(resp) =>
      if resp.success && resp.data.Many? then st.(todos := resp.data.items, error := "", loading := false)
      else st.(error := LoadFailed, loading := false)
  }

  /** The completion of `addTodo` once its request was sent. */
  function FinishAdd(st: TodoState, o: Outcome): (r: TodoState)
    ensures r.loading == st.loading
    ensures AddAccepted(o) ==> r.todos == st.todos + [o.response.data.item] && r.newTodo == "" && r.error == ""
    ensures !AddAccepted(o) ==> r.todos == st.todos && r.newTodo == st.newTodo && r.error == FailureText(o, AddFailed)
    ensures r.error == "" <==> AddAccepted(o)
  {
    match o
    case ConnectionFailed => st.(error := ConnectionError)
    case Replied(resp) =>
      if resp.success && resp.data.One? then st.(todos := st.todos + [resp.data.item], newTodo := "", error := "")
      else st.(error := MessageOr(resp.message, AddFailed))
  }

  /** The completion of `toggleTodo(id, completed)`: the new flag is `!completed`, the value passed in. */
  function FinishToggle(st: TodoState, id: int, completed: bool, o: Outcome): (r: TodoState)
    ensures r.loading == st.loading && r.newTodo == st.newTodo
    ensures ChangeAccepted(o) ==> r.todos == SetCompleted(st.todos, id, !completed) && r.error == ""
    ensures !ChangeAccepted(o) ==> r.todos == st.todos && r.error == FailureText(o, UpdateFailed)
    ensures r.error == "" <==> ChangeAccepted(o)
  {
    match o
    case ConnectionFailed => st.(error := ConnectionError)
    case Replied(resp) =>
      if resp.success then st.(todos := SetCompleted(st.todos, id, !completed), error := "")
      else st.(error := MessageOr(resp.message, UpdateFailed))
  }

  /** The completion of `deleteTodo(id)`. */
  function FinishDelete(st: TodoState, id: int, o: Outcome): (r: TodoState)
    ensures r.loading == st.loading && r.newTodo == st.newTodo
    ensures ChangeAccepted(o) ==> r.todos == RemoveById(st.todos, id) && r.error == ""
    ensures !ChangeAccepted(o) ==> r.todos == st.todos && r.error == FailureText(o, DeleteFailed)
    ensures r.error == "" <==> ChangeAccepted(o)
  {
    match o
    case ConnectionFailed => st.(error := ConnectionError)
    case Replied(resp) =>
      if resp.success then st.(todos := RemoveById(st.todos, id), error := "")
      else st.(error := MessageOr(resp.message, DeleteFailed))
  }

  // ---------------------------------------------------------------------------
  // Interleaved completions

  /**
    Everything that changes the page state. Each completion applies to the
    state current when it arrives, so concurrently outstanding requests are a
    sequence of these events in arrival order.
   */
  datatype Event =
    | InputChanged(text: string)
    | FetchStarted
    | FetchCompleted(outcome: Outcome)
    | AddCompleted(outcome: Outcome)
    | ToggleCompleted(id: int, completed: bool, outcome: Outcome)
    | DeleteCompleted(id: int, outcome: Outcome)

  function Apply(st: TodoState, e: Event): TodoState
  {
    match e
    case InputChanged(text) => st.(newTodo := text)
    case FetchStarted => StartFetch(st)
    case FetchCompleted(o) => FinishFetch(st, o)
    case AddCompleted(o) => FinishAdd(st, o)
    case ToggleCompleted(id, completed, o) => FinishToggle(st, id, completed, o)
    case DeleteCompleted(id, o) => FinishDelete(st, id, o)
  }

  function Run(st: TodoState, events: seq<Event>): TodoState
    decreases |events|
  {
    if events == [] then st else Run(Apply(st, events[0]), events[1..])
  }

  /**
    What uniqueness of ids needs from each completion: a listed page has no
    duplicates, and a created item's id is not already on the list when its
    reply arrives. A server that never reuses an id does not ensure the second
    part: a list reply that already holds the new item and arrives before the
    create's reply breaks it (see FetchThenAddDuplicates).
   */
  predicate Admissible(st: TodoState, e: Event)
  {
    match e
    case FetchCompleted(o) => FetchAccepted(o) ==> UniqueIds(o.response.data.items)
    case AddCompleted(o) => AddAccepted(o) ==> !HasId(st.todos, o.response.data.item.id)
    case _ => true
  }

  predicate AllAdmissible(st: TodoState, events: seq<Event>)
    decreases |events|
  {
    events == [] || (Admissible(st, events[0]) && AllAdmissible(Apply(st, events[0]), events[1..]))
  }

  // ---------------------------------------------------------------------------
  // Lemmas

  lemma {:induction false} UniqueIdsCountAtMostOne(s: seq<Todo>, id: int)
    requires UniqueIds(s)
    ensures CountId(s, id) <= 1
  {
    if s != [] {
      UniqueIdsCountAtMostOne(s[1..], id);
      if s[0].id == id {
        assert !HasId(s[1..], id) by {
          forall t | t in s[1..] ensures t.id != id {
            var k :| 0 <= k < |s[1..]| && s[1..][k] == t;
            assert s[k + 1] == t;
          }
        }
      }
    }
  }

  /** Deleting an id held by exactly one item of a duplicate-free list shortens it by one. */
  lemma {:induction false} DeletePresentShrinksByOne(s: seq<Todo>, id: int)
    requires UniqueIds(s) && HasId(s, id)
    ensures |RemoveById(s, id)| == |s| - 1
  {
    UniqueIdsCountAtMostOne(s, id);
  }

  lemma {:induction false} SubsequenceMembers(r: seq<Todo>, s: seq<Todo>)
    requires IsSubsequence(r, s)
    ensures forall t :: t in r ==> t in s
    decreases |s|
  {
    if r != [] {
      if r[0] == s[0] && IsSubsequence(r[1..], s[1..]) {
        SubsequenceMembers(r[1..], s[1..]);
        assert r == [r[0]] + r[1..];
      } else {
        SubsequenceMembers(r, s[1..]);
      }
    }
  }

  lemma {:induction false} SubsequenceKeepsUnique(r: seq<Todo>, s: seq<Todo>)
    requires IsSubsequence(r, s) && UniqueIds(s)
    ensures UniqueIds(r)
    decreases |s|
  {
    if r != [] && s != [] {
      assert UniqueIds(s[1..]) by {
        forall i, j | 0 <= i < j < |s[1..]| ensures s[1..][i].id != s[1..][j].id {
          assert s[1..][i] == s[i + 1] && s[1..][j] == s[j + 1];
        }
      }
      if r[0] == s[0] && IsSubsequence(r[1..], s[1..]) {
        SubsequenceKeepsUnique(r[1..], s[1..]);
        SubsequenceMembers(r[1..], s[1..]);
        forall j | 0 < j < |r| ensures r[0].id != r[j].id {
          assert r[j] == r[1..][j - 1];
          assert r[j] in s[1..];
          var k :| 0 <= k < |s[1..]| && s[1..][k] == r[j];
          assert s[k + 1] == r[j];
        }
        forall i, j | 0 <= i < j < |r| ensures r[i].id != r[j].id {
          if i > 0 {
            assert r[i] == r[1..][i - 1] && r[j] == r[1..][j - 1];
          }
        }
      } else {
        SubsequenceKeepsUnique(r, s[1..]);
      }
    }
  }

  lemma SetCompletedKeepsUnique(s: seq<Todo>, id: int, completed: bool)
    requires UniqueIds(s)
    ensures UniqueIds(SetCompleted(s, id, completed))
  {
    var r := SetCompleted(s, id, completed);
    assert forall i :: 0 <= i < |s| ==> r[i].id == s[i].id;
  }

  lemma AppendFreshKeepsUnique(s: seq<Todo>, t: Todo)
    requires UniqueIds(s) && !HasId(s, t.id)
    ensures UniqueIds(s + [t])
  {
    var r := s + [t];
    forall i, j | 0 <= i < j < |r| ensures r[i].id != r[j].id {
      if j == |s| {
        assert r[i] == s[i];
        assert s[i] in s;
      }
    }
  }

  /** One admissible event keeps the ids of the list unique. */
  lemma ApplyKeepsUnique(st: TodoState, e: Event)
    requires UniqueIds(st.todos) && Admissible(st, e)
    ensures UniqueIds(Apply(st, e).todos)
  {
    match e
    case AddCompleted(o) =>
      if AddAccepted(o) {
        AppendFreshKeepsUnique(st.todos, o.response.data.item);
      }
    case ToggleCompleted(id, completed, o) =>
      SetCompletedKeepsUnique(st.todos, id, !completed);
    case DeleteCompleted(id, o) =>
      SubsequenceKeepsUnique(RemoveById(st.todos, id), st.todos);
    case _ =>
  }

  /**
    The append at line 65 has no guard: when a list reply that already holds
    the created item arrives before the create's reply, the item appears twice,
    though the server issued its id once.
   */
  lemma FetchThenAddDuplicates(t: Todo)
    ensures Run(Initial(), [FetchCompleted(Replied(Response(true, Many([t]), None))),
                            AddCompleted(Replied(Response(true, One(t), None)))]).todos == [t, t]
    ensures !UniqueIds(Run(Initial(), [FetchCompleted(Replied(Response(true, Many([t]), None))),
                                       AddCompleted(Replied(Response(true, One(t), None)))]).todos)
  {
    var fetched := FetchCompleted(Replied(Response(true, Many([t]), None)));
    var added := AddCompleted(Replied(Response(true, One(t), None)));
    var events := [fetched, added];
    var mid := Apply(Initial(), fetched);
    assert mid.todos == [t];
    assert events[1..] == [added];
    assert Run(mid, [added]) == Apply(mid, added);
    assert Run(Initial(), events) == Run(mid, [added]);
    assert Apply(mid, added).todos == [t] + [t] == [t, t];
    assert [t, t][0].id == [t, t][1].id;
  }

  /**
    Whatever order completions arrive in, ids stay unique as long as each
    listed page is duplicate-free and each created item's id is not on the
    list when its reply arrives (see Admissible).
   */
  lemma {:induction false} RunKeepsUnique(st: TodoState, events: seq<Event>)
    requires UniqueIds(st.todos) && AllAdmissible(st, events)
    ensures UniqueIds(Run(st, events).todos)
    decreases |events|
  {
    if events != [] {
      ApplyKeepsUnique(st, events[0]);
      RunKeepsUnique(Apply(st, events[0]), events[1..]);
    }
  }

  /** A toggle and a delete of the same id, both confirmed, leave the same list in either arrival order. */
  lemma {:induction false} RemoveAfterSetCompleted(s: seq<Todo>, id: int, completed: bool)
    ensures RemoveById(SetCompleted(s, id, completed), id) == RemoveById(s, id)
  {
    if s != [] {
      RemoveAfterSetCompleted(s[1..], id, completed);
      var r := SetCompleted(s, id, completed);
      assert r[1..] == SetCompleted(s[1..], id, completed);
    }
  }

  lemma ToggleDeleteCommute(st: TodoState, id: int, completed: bool, o1: Outcome, o2: Outcome)
    requires ChangeAccepted(o1) && ChangeAccepted(o2)
    ensures FinishDelete(FinishToggle(st, id, completed, o1), id, o2) ==
            FinishToggle(FinishDelete(st, id, o2), id, completed, o1)
    ensures !HasId(FinishDelete(FinishToggle(st, id, completed, o1), id, o2).todos, id)
  {
    RemoveAfterSetCompleted(st.todos, id, !completed);
  }

  /** Of two confirmed toggles of one id, the later one decides the flag. */
  lemma LastToggleWins(s: seq<Todo>, id: int, first: bool, second: bool)
    ensures SetCompleted(SetCompleted(s, id, first), id, second) == SetCompleted(s, id, second)
  {
    var a := SetCompleted(SetCompleted(s, id, first), id, second);
    var b := SetCompleted(s, id, second);
    assert forall i :: 0 <= i < |s| ==> a[i] == b[i];
  }

  /** Deleting an id that is already gone changes nothing: no error, no state change. */
  lemma DeleteIsIdempotent(st: TodoState, id: int, o1: Outcome, o2: Outcome)
    requires ChangeAccepted(o1) && ChangeAccepted(o2)
    ensures FinishDelete(FinishDelete(st, id, o1), id, o2) == FinishDelete(st, id, o1)
  {
    var mid := FinishDelete(st, id, o1);
    assert !HasId(mid.todos, id);
  }

  /** A confirmed create raises the total by one and the completed count by one exactly when the new item is completed. */
  lemma AddUpdatesCounts(st: TodoState, o: Outcome)
    requires AddAccepted(o)
    ensures |FinishAdd(st, o).todos| == |st.todos| + 1
    ensures CompletedCount(FinishAdd(st, o).todos) ==
            CompletedCount(st.todos) + (if o.response.data.item.completed then 1 else 0)
  {
    CompletedCountConcat(st.todos, [o.response.data.item]);
  }

  /** Only the fetch handler moves `loading`; a fetch always ends with it false. */
  lemma LoadingFollowsFetch(st: TodoState, e: Event)
    ensures e.FetchStarted? ==> Apply(st, e).loading
    ensures e.FetchCompleted? ==> !Apply(st, e).loading
    ensures !e.FetchStarted? && !e.FetchCompleted? ==> Apply(st, e).loading == st.loading
  {
  }

  /** Failures never touch the list: every unaccepted completion leaves `todos` as it was and sets a non-empty error. */
  lemma FailureKeepsList(st: TodoState, e: Event)
    requires e.FetchCompleted? || e.AddCompleted? || e.ToggleCompleted? || e.DeleteCompleted?
    requires !(e.FetchCompleted? && FetchAccepted(e.outcome))
    requires !(e.AddCompleted? && AddAccepted(e.outcome))
    requires !((e.ToggleCompleted? || e.DeleteCompleted?) && ChangeAccepted(e.outcome))
    ensures Apply(st, e).todos == st.todos
    ensures Apply(st, e).error != ""
  {
  }
}
