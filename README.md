# Todo list page: a Dafny model

This project models the todo-list page of a small Next.js demo (`pages/todos.tsx`).
The page holds four state cells: `todos`, `newTodo`, `loading` and `error`.
Four handlers (`fetchTodos`, `addTodo`, `toggleTodo`, `deleteTodo`) each make one
round trip to a remote REST API. They then update those cells according to the outcome.

The round trip is an input here. An `Outcome` is either `ConnectionFailed`, which stands
for the `catch` branch (the request or `response.json()` threw), or `Replied(response)`
with a decoded `{success, data, message?}` body. Each handler returns the `Request` it
would send, so "no request is issued" can be stated.

- `TodoModel.dfy` (module `TodoModel`) is the value-level part:
  - the `Todo`, `Payload`, `Response`, `Outcome` and `Request` shapes;
  - the list transforms passed to `setTodos`: append, `map` with a conditional copy (`SetCompleted`) and `filter` (`RemoveById`);
  - `String.prototype.trim`, modelled exactly over the ECMAScript whitespace and line-terminator characters;
  - the error-message decision table (`result.message || fallback`);
  - the completed count and the submit button's `disabled` expression;
  - each handler's completion as a function on a `TodoState` value;
  - an `Event` sequence for completions arriving in any order, with lemmas about it.
- `TodoController.dfy` (module `TodoController`) holds the class `Controller`.
  It has the four state cells as fields and one method per handler.
  Each method updates the fields step by step, as the handler does.
  Each method's `ensures` ties the new state to the completion function of `TodoModel`.

The model follows the code as written:
- A successful create appends the returned item without any duplicate-id guard (line 65).
  So ids stay unique only while every listed page is duplicate-free and a created item's id is not already on the list when the create's reply arrives; `RunKeepsUnique` proves uniqueness under exactly that condition.
  A server that never reuses an id does not ensure it: a list reply that already holds the new item and arrives before the create's reply leaves the item twice (`FetchThenAddDuplicates`).
  On the page itself this order is hard to reach, because the one fetch runs on mount and the input and submit button are disabled while `loading` is true.
- A transport failure during the list fetch sets the connection message (line 41). The load-failed message is only for a reply that fails (line 38).
- A successful toggle or delete clears `error` even when no item has that id.

## Model

| member | source | states |
|---|---|---|
| TodoModel.Trim | pages/todos.tsx:51 | `newTodo.trim()` is a slice of the input with only whitespace cut off before and after it; a non-empty result starts and ends with a non-whitespace character, so exactly the leading and trailing whitespace is removed; it is empty exactly when every character is whitespace |
| TodoModel.AddRequest | pages/todos.tsx:51-59 | `addTodo` sends no request exactly when the input is blank; otherwise it posts exactly `newTodo.trim()`, which is then non-empty with no surrounding whitespace |
| TodoModel.SubmitDisabled | pages/todos.tsx:166 | the submit button is disabled exactly when `loading` is true or the input consists only of whitespace |
| TodoModel.CompletedCount | pages/todos.tsx:200 | the completed count is at most the total; it is 0 exactly when no item is completed and equals the total exactly when all are (so a single item counts 1 exactly when it is completed) |
| TodoModel.CompletedCountConcat | pages/todos.tsx:200 | the completed count of two lists joined is the sum of their counts; with the single-item case this makes it the number of completed items |
| TodoModel.AddUpdatesCounts | pages/todos.tsx:65 | a confirmed create raises the total by one and the completed count by one exactly when the new item is completed |
| TodoModel.SetCompleted | pages/todos.tsx:91-94 | the toggle's `map` keeps length and order; every item with the id gets the given flag with id and text kept; every other item is unchanged |
| TodoModel.RemoveById | pages/todos.tsx:116 | the delete's `filter` keeps exactly the items without the id, in their relative order; it drops one item per occurrence of the id; an absent id leaves the list unchanged |
| TodoModel.MessageOr | pages/todos.tsx:69 | the `message`-or-fallback choice is the message when it is present and non-empty, and the fallback when it is absent or empty; it is never empty when the fallback is not |
| TodoModel.FailureText | pages/todos.tsx:68-73 | a failed create, toggle or delete reports the connection message on a transport failure; on a reply it reports the server message when that is non-empty and the operation's fallback otherwise; never empty |
| TodoModel.StartFetch | pages/todos.tsx:30 | starting a fetch raises `loading` and changes nothing else |
| TodoModel.FinishFetch | pages/todos.tsx:31-45 | a success with an array replaces `todos` by exactly that array and clears `error`; any other reply keeps `todos` and sets the load-failed message; a transport failure keeps `todos` and sets the connection message; `loading` is false afterwards in every case |
| TodoModel.FinishAdd | pages/todos.tsx:62-73 | a success with a single item appends it after all prior items and clears `newTodo` and `error`; any failure keeps `todos` and `newTodo` and sets the failure text; `error` is empty afterwards exactly when the create was accepted |
| TodoModel.FinishToggle | pages/todos.tsx:88-102 | a success stores `!completed` (the value passed in) on every item with the id and clears `error`; a failure keeps `todos` and sets the failure text; `newTodo` and `loading` are untouched |
| TodoModel.FinishDelete | pages/todos.tsx:113-123 | a success removes every item with the id and clears `error`; a failure keeps `todos` and sets the failure text; `newTodo` and `loading` are untouched |
| TodoModel.DeletePresentShrinksByOne | pages/todos.tsx:116 | in a list without duplicate ids, deleting a present id shortens the list by exactly one |
| TodoModel.SubsequenceKeepsUnique | pages/todos.tsx:116 | filtering items out of a list without duplicate ids leaves a list without duplicate ids |
| TodoModel.SetCompletedKeepsUnique | pages/todos.tsx:92-94 | the toggle's `map` keeps every id, so it keeps ids unique |
| TodoModel.AppendFreshKeepsUnique | pages/todos.tsx:65 | appending an item whose id is not yet in the list keeps ids unique |
| TodoModel.ApplyKeepsUnique | pages/todos.tsx:35-116 | every completion keeps ids unique, provided a listed page has no duplicates and a created item's id is not already on the list when its reply arrives |
| TodoModel.RunKeepsUnique | pages/todos.tsx:35-116 | in any arrival order of completions, ids stay unique provided each listed page is duplicate-free and each created item's id is absent from the list when its reply arrives (a list reply already holding the item breaks this) |
| TodoModel.FetchThenAddDuplicates | pages/todos.tsx:35-65 | a list reply holding an item followed by the create reply for the same item leaves it twice, since the append has no duplicate guard |
| TodoModel.RemoveAfterSetCompleted | pages/todos.tsx:92-116 | deleting an id after toggling it gives the same list as deleting it alone |
| TodoModel.ToggleDeleteCommute | pages/todos.tsx:90-117 | a confirmed toggle and a confirmed delete of the same id give the same state in either arrival order, and the item is gone |
| TodoModel.LastToggleWins | pages/todos.tsx:92-94 | of two confirmed toggles of one id, the later completion decides the flag |
| TodoModel.DeleteIsIdempotent | pages/todos.tsx:115-117 | a second confirmed delete of an already removed id changes nothing, `error` included |
| TodoModel.LoadingFollowsFetch | pages/todos.tsx:30-45 | only the fetch moves `loading`: starting raises it, finishing lowers it, every other event keeps it |
| TodoModel.FailureKeepsList | pages/todos.tsx:37-123 | every failed completion leaves `todos` unchanged and sets a non-empty `error` |
| TodoController.Controller.constructor | pages/todos.tsx:19-22 | the page starts with no items, empty input, `loading` true and no error |
| TodoController.Controller.ChangeInput | pages/todos.tsx:161 | typing replaces `newTodo` and nothing else |
| TodoController.Controller.FetchTodos | pages/todos.tsx:28-46 | issues the list request; the new state is the finished fetch applied to the old state with `loading` raised; `loading` ends false; `todos` is the payload on success and unchanged with a non-empty error otherwise |
| TodoController.Controller.AddTodo | pages/todos.tsx:49-75 | sends a request exactly when the trimmed input is non-empty, and otherwise changes nothing; the new state is the create completion; `todos` grows by the returned item only on success |
| TodoController.Controller.CompleteAdd | pages/todos.tsx:62-73 | applying the POST's outcome gives the create completion of the old state |
| TodoController.Controller.ToggleTodo | pages/todos.tsx:78-104 | asks for `!completed`; the new state is the toggle completion; the list keeps its length |
| TodoController.Controller.DeleteTodo | pages/todos.tsx:107-125 | issues the delete request; the new state is the delete completion; on success no item has the id and the rest keep their order |

## Left out

- The HTTP calls, headers, JSON encoding and decoding, and the API base URL with its environment fallback (lines 25, 31-32, 54-62, 80-88, 109-113). These are I/O and configuration. The round trip is the `Outcome` parameter, and the request is returned as a `Request` value.
- A response body that lacks `data` or is not shaped like the `ApiResponse` interface. The model takes the interface at its word: `data` is always a list or one item. The optional `count` field is never read by the page and is not modelled.
- `console.error` calls (lines 42, 73, 102, 124). These are logging only.
- `e.preventDefault()` (line 50). It is a browser event detail.
- The JSX rendering, CSS and `Head` (lines 131-204), apart from the counts (line 200) and the submit button's `disabled` expression (line 166).
- The text input's own `disabled={loading}` (line 164). `ChangeInput` accepts input in any state.
- `useEffect` running the first fetch on mount (lines 127-129). This is framework lifecycle.
- Asynchronous interleaving inside the class. The `Controller` methods run a handler's request and completion as one step. Interleaved completions, including typing between a submit and its reply, are modelled by the `Event` sequences of `TodoModel` (`Apply`, `Run`). Each completion applies to the state current when it arrives.
- Todo ids are JavaScript numbers. They are modelled as mathematical integers, compared for equality only.
- The landing page, the health endpoint and the build configuration. They are not part of this model.
