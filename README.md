# Thread ownership and agent routing, modelled in Dafny

This project models the decision logic of the example backend of
copilotkit-langgraph-history-example, a demo that persists LangGraph
conversation threads and lets users resume them.

- `ownership.dfy` (module `Ownership`): the thread-ownership registry of
  `agent/ownership.py`. The `thread_ownership` table becomes a
  `map<ThreadId, Row>`, where a row is `(user_id, title, created_at)`. Each
  writing route handler (create, delete, update title) is a pure transition
  function `Table -> Outcome` (the new table plus a reply `Ok`, `Forbidden` =
  403, or `NotFound` = 404). Each is also a method of the class
  `OwnershipStore`, which holds the table in a field and changes it in place.
  The owner lookup and `verify_thread_ownership` are functions of the table.
  The per-user listing only reads the table too, but it is a method, because
  it chooses an order among rows with equal `created_at`; its answer satisfies
  `IsUserListing`: every owned row once, as stored, newest first.
- `ownership_trace.dfy` (module `OwnershipTrace`): relations between the
  handlers, and invariants over any sequence of requests served one after
  another. A row changes only through its owner's delete or rename. A thread
  leaves its owner only through the owner's delete. Whoever owns a thread at
  the end created it, unless they already owned it at the start.
- `agent.dfy` (module `Agent`): the routing rules of `agent/agent.py`.
  `should_route_to_tool_node` and the `get_weather` lookup are loops, so they
  are methods proved against quantified specifications. The routing step of
  `chat_node` is a method that calls the former.
- `wrappers.dfy`: the `Option` type standing for Python's `None`.

Conventions: the clock `datetime.utcnow()` is an input `now: Timestamp`, a
natural number for which larger means later. Strings are `seq<char>`, so one
element is one Unicode code point, as in Python. Python dicts read by the
routing code are `map<string, string>`, and a missing key reads as `None`.

## Model

| member | source | states |
|---|---|---|
| `Ownership.Prefix` | agent/ownership.py:131 | `thread_id[:8]`: the first 8 characters, or the whole id when it is shorter; always a prefix of the id |
| `Ownership.DefaultTitle` | agent/ownership.py:131 | the default title is `"Thread "`, then the id's first 8 characters, then `"..."`, so it has at most 18 characters |
| `Ownership.TitleFor` | agent/ownership.py:131 | a new thread's title is the requested one unless it is missing or empty, when it is `"Thread " + thread_id[:8] + "..."`; it is never empty |
| `Ownership.CreateThread` | agent/ownership.py:122-169 | create never answers 404; it answers 403 exactly when another user owns the thread; a registered thread's table is left as is, and the owner gets the stored row back; an unregistered thread gains exactly one row `(user_id, title, now)`, which is also the answer; no other row changes and no owner changes |
| `Ownership.DeleteThread` | agent/ownership.py:171-201 | 404 exactly when the thread is unregistered, 403 exactly when another user owns it, and the table is unchanged in both cases; on success the caller was the owner and exactly that row is removed |
| `Ownership.UpdateTitle` | agent/ownership.py:222-254 | 404 and 403 as for delete, table unchanged; on success the caller was the owner, only that row's title changes (owner and `created_at` kept), and the answer is the updated row |
| `Ownership.GetThreadOwner` | agent/ownership.py:203-220 | `None` exactly for an unregistered thread, else the stored `user_id` |
| `Ownership.VerifyThreadOwnership` | agent/ownership.py:259-284 | access is granted exactly when the owner lookup finds no owner or finds the caller |
| `Ownership.ListUserThreads` | agent/ownership.py:93-120 | the answer holds every row the user owns, exactly once and as stored, and nothing else; `created_at` is non-increasing along it |
| `Ownership.ListingCoversOwned` | agent/ownership.py:103-111 | a listing names exactly the user's threads and has one entry per owned thread |
| `Ownership.ListingsAgree` | agent/ownership.py:103-111 | two listings of the same table for the same user have the same length and the same entries, and two entries the listings put in opposite orders have equal `created_at` |
| `Ownership.OwnershipStore.constructor` | agent/ownership.py:38-48 | a freshly created table holds no rows |
| `Ownership.OwnershipStore.CreateUserThread` | agent/ownership.py:122-169 | the stored table and the reply become those of `CreateThread` on the old table |
| `Ownership.OwnershipStore.DeleteUserThread` | agent/ownership.py:171-201 | the stored table and the reply become those of `DeleteThread` on the old table |
| `Ownership.OwnershipStore.UpdateThreadTitle` | agent/ownership.py:222-254 | the stored table and the reply become those of `UpdateTitle` on the old table |
| `OwnershipTrace.StepKeepsRow` | agent/ownership.py:122-254 | a request by a non-owner, for another thread, or a create leaves a registered row exactly as it was |
| `OwnershipTrace.RowChangesOnlyByOwner` | agent/ownership.py:122-254 | over any sequence of requests, a registered row stays as it was unless its owner sent a delete or rename for that thread |
| `OwnershipTrace.OwnerLeavesOnlyByDelete` | agent/ownership.py:187-201 | ownership never transfers: if a thread is gone or has another owner at the end, its original owner sent a delete for it |
| `OwnershipTrace.OwnerIsCreator` | agent/ownership.py:154-169 | if a thread has a new owner at the end, or was unregistered at the start, the final owner sent a create for it |
| `OwnershipTrace.CreateIdempotent` | agent/ownership.py:140-152 | repeating a successful create, with any title and clock, changes nothing and answers the same |
| `OwnershipTrace.CreateForbiddenIffAccessDenied` | agent/ownership.py:140-145 | create answers 403 exactly when `verify_thread_ownership` denies the caller |
| `OwnershipTrace.MutationAllowedIffOwner` | agent/ownership.py:187-194 | delete and rename succeed exactly when the owner lookup names the caller, and then access is granted too |
| `OwnershipTrace.OwnerAfterCreateAndDelete` | agent/ownership.py:203-220 | after a successful create the owner lookup names the creator; after a successful delete it finds nothing, and every user is granted access |
| `Agent.CallName` | agent/agent.py:96-100 | a dict call's name is its `name` entry, `None` exactly when the key is missing; an object call's name is its `name` attribute, `None` when absent |
| `Agent.FrontendTools` | agent/agent.py:123 | a missing `copilotkit` entry or a missing `actions` key gives the empty frontend tool list; otherwise the list is the `actions` entry |
| `Agent.FrontendToolNames` | agent/agent.py:93 | the set of `name` entries of the frontend tools, with `None` for a nameless tool; empty for a `None` list |
| `Agent.ShouldRouteToToolNode` | agent/agent.py:84-104 | false for a `None` or empty call list; false if some call's name is a frontend tool name; true exactly when there is a call and no call names a frontend tool |
| `Agent.NoFrontendToolsRoutesAnyCalls` | agent/agent.py:93 | with a `None` or empty frontend tool list no call counts as a frontend call |
| `Agent.NamelessCallMatchesNamelessTool` | agent/agent.py:96-101 | a call whose name is missing counts as a frontend call when some frontend tool lacks a name |
| `Agent.ChatNodeRoute` | agent/agent.py:149-154 | routes to `tool_node` exactly when the response has tool calls and none names a frontend tool, else to `__end__`; both carry the response as the `messages` update; the target is named `"tool_node"` or `"__end__"` accordingly; a missing `copilotkit` or `actions` entry routes every non-empty call list to the tool node |
| `Agent.LowerChar` | agent/agent.py:55 | ASCII upper-case letters move to lower case, and every other character stays |
| `Agent.ToLower` | agent/agent.py:55 | the lower-cased location has the same length and is lower-cased character by character |
| `Agent.Contains` | agent/agent.py:57 | substring test: a contained needle is no longer than the text, and a prefix or suffix of the text is contained |
| `Agent.GetWeather` | agent/agent.py:47-60 | the report names the weather of the first city, in table order, that occurs in the lower-cased location; when none occurs it is the not-available message; both echo the location as given |
| `Agent.AbsentLetterRulesOut` | agent/agent.py:57 | a city with a letter the location lacks does not occur in it |
| `Agent.TableOrderDecides` | agent/agent.py:47-58 | for "Sydney, Paris" the first match is Paris: table order decides, not position in the text |
| `Agent.NoCityInBerlin` | agent/agent.py:56-60 | "Berlin" contains no table city, so it gets the not-available report |
| `Agent.FirstMatchUnique` | agent/agent.py:56-58 | at most one entry is the first match, so the report is determined by the location |

## Left out

- The TypeScript streaming client of the repository (event-stream frame decoder, history, state and run-join client) is not part of this model.
- `agent/main.py`: environment checks, the FastAPI lifespan, pool and checkpointer setup, CORS, router registration and server start-up are wiring with no decision logic.
- SQL text, the pool accessors `set_db_pool` / `get_db_pool` and `setup_ownership_table`, and the pydantic request and response classes. The model keeps the table semantics and the record shapes.
- The `VARCHAR(255)` column limits: an id or title longer than 255 characters makes the database reject the statement, and the model stores it.
- The `title` column is nullable in the table definition, but every handler writes a string, so the model stores a `string`.
- `created_at` is rendered with `isoformat()` in the answers; the model answers with the timestamp value itself.
- The null-`created_at` branch of the listing: every row gets its timestamp from create, and a null would not fit the `created_at: str` field of the answer.
- The tie order of `ORDER BY created_at DESC`: the database may order rows with equal `created_at` either way. `Ownership.ListUserThreads` picks any such order, and `IsUserListing` admits them all.
- Concurrency: the check-then-insert in create can race under concurrent requests. Handlers are modelled one at a time.
- The model invocation, tool binding and system prompt of `chat_node`; the model's response is an input of `Agent.ChatNodeRoute`.
- `get_time`, which reads the wall clock, and `create_workflow`, which only builds the LangGraph graph.
- `str.lower()` beyond ASCII: `Agent.ToLower` changes only `A`-`Z`.
- Tool-call dicts and frontend tool dicts keep only their string-valued entries; a `name` entry holding `None` reads as a missing key, which gives the same `None`.
- Two exception paths of `chat_node`: a `copilotkit` entry that is `None` raises `AttributeError` at `state.get("copilotkit", {}).get(...)`, and an `actions` entry that is `None` raises `TypeError` when the tools are bound (`[*fe_tools, *tools]`), both before any routing. `Agent.ChatNodeRoute` represents neither: its state has a `copilotkit` entry that is missing or a record, and an `actions` entry that is missing or a list.
