/**
  The todo-list page as an object: the four state cells it declares and one
  method per handler. A handler's network round trip is its `outcome`
  parameter; the request it would send is returned. Each method changes the
  cells step by step as the handler does and ends in the state the matching
  completion function of TodoModel gives.
 */
module TodoController {
  import opened TodoModel

  class Controller {
    var todos: seq<Todo>
    var newTodo: string
    var loading: bool
    var error: string

    function State(): TodoState
      reads this
    {
      TodoState(todos, newTodo, loading, error)
    }

    /** The initial values of the four `useState` cells. */
    constructor ()
      ensures State() == Initial()
      ensures todos == [] && newTodo == "" && loading && error == ""
    {
      todos := [];
      newTodo := "";
      loading := true;
      error := "";
    }

    /** The text input's `onChange`. */
    method ChangeInput(text: string)
      modifies this
      ensures State() == Apply(old(State()), InputChanged(text))
      ensures newTodo == text && todos == old(todos) && loading == old(loading) && error == old(error)
    {
      newTodo := text;
    }

    /** `fetchTodos`: loading is raised before the request and lowered in `finally`, whatever the outcome. */
    method FetchTodos(outcome: Outcome) returns (request: Request)
      modifies this
      ensures request == ListTodos
      ensures State() == FinishFetch(StartFetch(old(State())), outcome)
      ensures !loading && newTodo == old(newTodo)
      ensures FetchAccepted(outcome) ==> todos == outcome.response.data.items && error == ""
      ensures !FetchAccepted(outcome) ==> todos == old(todos) && error != ""
    {
      loading := true;
      request := ListTodos;
      match outcome {
        case ConnectionFailed =>
          error := ConnectionError;
        case Replied(response) =>
          if response.success && response.data.Many? {
            todos := response.data.items;
            error := "";
          } else {
            error := LoadFailed;
          }
      }
      loading := false;
    }

    /** `addTodo`: a blank input returns before any request; otherwise the outcome of the POST is applied. */
    method AddTodo(outcome: Outcome) returns (sent: Option<Request>)
      modifies this
      ensures sent == AddRequest(old(newTodo))
      ensures sent.None? ==> State() == old(State())
      ensures sent.Some? ==> State() == FinishAdd(old(State()), outcome)
      ensures loading == old(loading)
      ensures sent.Some? && AddAccepted(outcome) ==> todos == old(todos) + [outcome.response.data.item]
      ensures !(sent.Some? && AddAccepted(outcome)) ==> todos == old(todos)
    {
      sent := AddRequest(newTodo);
      if sent.Some? {
        CompleteAdd(outcome);
      }
    }

    /** The part of `addTodo` after the POST returned or threw. */
    method CompleteAdd(outcome: Outcome)
      modifies this
      ensures State() == FinishAdd(old(State()), outcome)
    {
      match outcome {
        case ConnectionFailed =>
          error := ConnectionError;
        case Replied(response) =>
          if response.success && response.data.One? {
            todos := todos + [response.data.item];
            newTodo := "";
            error := "";
          } else {
            error := MessageOr(response.message, AddFailed);
          }
      }
    }

    /** `toggleTodo(id, completed)`: asks for `!completed` and, once confirmed, stores it on every item with that id. */
    method ToggleTodo(id: int, completed: bool, outcome: Outcome) returns (request: Request)
      modifies this
      ensures request == UpdateTodo(id, !completed)
      ensures State() == FinishToggle(old(State()), id, completed, outcome)
      ensures |todos| == |old(todos)| && newTodo == old(newTodo) && loading == old(loading)
    {
      request := UpdateTodo(id, !completed);
      match outcome {
        case ConnectionFailed =>
          error := ConnectionError;
        case Replied(response) =>
          if response.success {
            todos := SetCompleted(todos, id, !completed);
            error := "";
          } else {
            error := MessageOr(response.message, UpdateFailed);
          }
      }
    }

    /** `deleteTodo(id)`: once confirmed, drops every item with that id. */
    method DeleteTodo(id: int, outcome: Outcome) returns (request: Request)
      modifies this
      ensures request == RemoveTodo(id)
      ensures State() == FinishDelete(old(State()), id, outcome)
      ensures ChangeAccepted(outcome) ==> !HasId(todos, id) && IsSubsequence(todos, old(todos))
      ensures newTodo == old(newTodo) && loading == old(loading)
    {
      request := RemoveTodo(id);
      match outcome {
        case ConnectionFailed =>
          error := ConnectionError;
        case Replied(response) =>
          if response.success {
            todos := RemoveById(todos, id);
            error := "";
          } else {
            error := MessageOr(response.message, DeleteFailed);
          }
      }
    }
  }
}
