# Shopping list controller and SEO schema builders, in Dafny

This project models the core of a small React shopping-list application.

- **The list controller** (`src/components/wrapper/TodoWrapper.jsx`). It holds an ordered list of todo records `{id, task, completed, isEditing}` in its `todos` state. It also uses one key, `"todos"`, of the browser's local store. Its five operations are `addTodo`, `toggleComplete`, `deleteTodo`, `editTodo` and `editTask`. A load step runs on mount.
  - Module `TodoList` (`todo_list.dfy`) holds the record type and the pure list transformations each operation computes. These are `map` with an id test (`MapMatching`, used by `Toggled`, `EditToggled` and `TaskEdited`), `filter` (`Deleted`) and append. It also holds the lemmas about them.
  - Module `Wrapper` (`todo_wrapper.dfy`) holds the class `TodoWrapper`. Its fields are `todos` and `store`, and its methods change them as the component does. Each method's postcondition ties the new state to those functions.
  - `Wrapper` also holds two client methods. They run a session, and a restart from the same store, against the class's contracts.
- **The structured-data builders** (`src/components/seo/schemas.js`). Module `Schemas` (`schemas.dfy`) has the schema.org JSON-LD records as datatypes and the four generators as functions. The two fixed schemas are functions of the page origin. The lemmas cover lengths, order, the 1-based `position` numbering and the default-value rules.

Two behaviours of the controller are modelled as written:

- `addTodo` calls `uuidv4()` twice (lines 20 and 25). One call builds the persisted record and the other builds the record shown. `AddTodo` therefore takes two ids. After a restart, `Load` brings back the persisted id, not the one shown before (`RestartAfterAdd`).
- Only `addTodo` writes the store. Toggle, delete and both edits leave `store` unchanged.

Three behaviours of the code a reader might not expect:

- `editTask` negates `isEditing`; it does not clear it. It ends `false` only when it started `true`.
- `deleteTodo` removes exactly the records with that id. With unique ids that is one record (`DeletedUnique`).
- Load with the key absent leaves the state as it was (initially `[]`). It does not reset the state to `[]`.

Environment inputs become parameters:

- The two `uuidv4()` results are the `persistedId`/`shownId` parameters of `AddTodo`.
- The browser store that earlier sessions left is the constructor's `store` parameter.
- `window.location?.origin` is `location: Option<string>`, with `None` when there is no location.

## Model

| member | source | states |
|---|---|---|
| TodoList.MapMatchingAt | src/components/wrapper/TodoWrapper.jsx:29-55 | the id-matching `map` keeps length and order; record i is changed exactly when its id equals the argument |
| TodoList.MapMatchingMiss | src/components/wrapper/TodoWrapper.jsx:29-55 | when no record carries the id, the mapped list equals the input |
| TodoList.MapMatchingKeepsIds | src/components/wrapper/TodoWrapper.jsx:29-55 | no update changes an id: ids stay in place, unique ids stay unique, the id is present after iff before |
| TodoList.MapMatchingTwice | src/components/wrapper/TodoWrapper.jsx:29-47 | a flip of `completed` or `isEditing` applied twice to the same id restores the list |
| TodoList.ToggledSpec | src/components/wrapper/TodoWrapper.jsx:29-35 | toggleComplete keeps length and order, flips `completed` on matching records only, keeps their other fields, leaves other records equal, and is the identity on a miss |
| TodoList.ToggledTwice | src/components/wrapper/TodoWrapper.jsx:29-35 | toggleComplete twice on the same id restores the list (involution) |
| TodoList.EditToggledSpec | src/components/wrapper/TodoWrapper.jsx:41-47 | editTodo keeps length and order, flips `isEditing` on matching records only, and is the identity on a miss |
| TodoList.EditToggledTwice | src/components/wrapper/TodoWrapper.jsx:41-47 | editTodo twice on the same id restores the list, so a second click cancels edit mode |
| TodoList.TaskEditedSpec | src/components/wrapper/TodoWrapper.jsx:49-55 | editTask sets `task` and negates `isEditing` on matching records and keeps their `id` and `completed`; other records are unchanged; a record in edit mode leaves it; a miss is the identity |
| TodoList.DeletedMembers | src/components/wrapper/TodoWrapper.jsx:37-39 | deleteTodo keeps a record iff it was in the list with a different id; the result is never longer, is strictly shorter when the id is present, and equals the input when it is absent |
| TodoList.DeletedConcat | src/components/wrapper/TodoWrapper.jsx:38 | the filter distributes over concatenation, so survivors keep their original relative order |
| TodoList.DeletedUnique | src/components/wrapper/TodoWrapper.jsx:37-39 | with unique ids, deleting the id of record k yields the list without record k, the rest in order |
| TodoList.DeletedKeepsUniqueIds | src/components/wrapper/TodoWrapper.jsx:38 | deleting keeps ids unique |
| TodoList.AppendSpec | src/components/wrapper/TodoWrapper.jsx:23-26 | addTodo's new list is one longer; the old records are its unchanged prefix; the last record has the task, `completed = false` and `isEditing = false` |
| TodoList.AppendKeepsUniqueIds | src/components/wrapper/TodoWrapper.jsx:23-26 | appending a record with a fresh id keeps ids unique |
| Wrapper.PersistedSpec | src/components/wrapper/TodoWrapper.jsx:13-15 | persistData stores the list under `"todos"` and leaves every other key as it was |
| Wrapper.LoadRoundTrip | src/components/wrapper/TodoWrapper.jsx:57-66 | loading what persistData wrote yields that list; with the key absent the state is unchanged |
| Wrapper.TodoWrapper.constructor | src/components/wrapper/TodoWrapper.jsx:11 | a mounted component starts with an empty list over the existing store |
| Wrapper.TodoWrapper.PersistData | src/components/wrapper/TodoWrapper.jsx:13-15 | the store's `"todos"` entry becomes the blob of the new list; other keys are kept |
| Wrapper.TodoWrapper.AddTodo | src/components/wrapper/TodoWrapper.jsx:17-27 | the store gets the old list plus a record with the first id; the state becomes the old list plus a record with the second id; the two agree except on that id |
| Wrapper.TodoWrapper.ToggleComplete | src/components/wrapper/TodoWrapper.jsx:29-35 | state becomes the toggled list; the store is unchanged |
| Wrapper.TodoWrapper.DeleteTodo | src/components/wrapper/TodoWrapper.jsx:37-39 | state becomes the filtered list; the store is unchanged |
| Wrapper.TodoWrapper.EditTodo | src/components/wrapper/TodoWrapper.jsx:41-47 | state becomes the list with `isEditing` flipped on matches; the store is unchanged |
| Wrapper.TodoWrapper.EditTask | src/components/wrapper/TodoWrapper.jsx:49-55 | state becomes the list with task set and `isEditing` flipped on matches; the store is unchanged |
| Wrapper.TodoWrapper.Load | src/components/wrapper/TodoWrapper.jsx:57-66 | with no stored entry the state is kept; otherwise it becomes the stored blob's `todos` |
| Wrapper.RestartAfterAdd | src/components/wrapper/TodoWrapper.jsx:17-27 | after adding "milk" and reloading from the same store, the record comes back with the persisted id, not the shown one |
| Wrapper.MilkSession | src/components/wrapper/TodoWrapper.jsx:17-55 | add, toggle, edit, commit "almond milk", delete: the list goes to `[{milk,false,false}]`, then `[{almond milk,true,false}]`, then `[]`; the store keeps only the first add |
| Schemas.OriginFields | src/components/seo/schemas.js:12-13 | both fixed schemas share the url, which is the origin or ""; the organisation logo and the article publisher logo are that url plus `/groceries.webp` |
| Schemas.BreadcrumbSchemaAt | src/components/seo/schemas.js:47-56 | `itemListElement` has the input's length; element i has position i + 1, the name and the url of breadcrumb i |
| Schemas.FaqSchemaAt | src/components/seo/schemas.js:59-70 | `mainEntity` has the input's length and order; question i has faq i's question as name and its answer as accepted answer text |
| Schemas.ArticleAuthor | src/components/seo/schemas.js:79-82 | the author name is the given author when truthy, else "Groceries App Team", hence never empty; the headline is the title |
| Schemas.ArticleDates | src/components/seo/schemas.js:91-92 | `dateModified` is the given one when truthy, else `datePublished`; it is missing only if `datePublished` is |
| Schemas.HowToSupplyAt | src/components/seo/schemas.js:103-107 | a missing supply list gives `[]`; otherwise one supply per entry, in order, named by it |
| Schemas.SuppliesAt | src/components/seo/schemas.js:104-107 | the supply `map` keeps length and order |
| Schemas.HowToStepAt | src/components/seo/schemas.js:108-115 | a missing step list gives `[]`; otherwise step i has position i + 1 and the name, description (as text) and image of step i |
| Schemas.StepsAt | src/components/seo/schemas.js:109-115 | the step `map` keeps length and numbers positions from 1 |

## Left out

- The guard `if (!localStorage) return;` (TodoWrapper.jsx:58): the model's store is always available.
- Storage write failures are not modelled.
- `JSON.stringify`/`JSON.parse`: serialisation is the identity on `Blob`.
- A malformed stored blob is not modelled. The source does not handle it.
- Generating ids with `uuidv4()`: the ids are parameters.
- The discarded module-level `uuidv4()` call (line 8) has no effect and is not modelled.
- Id freshness is not required by `AddTodo`. It appears only as the precondition of `AppendKeepsUniqueIds`.
- React rendering and state batching: each operation runs to completion on the current state.
- The `isEditing` render switch (lines 76-88) is view code and not modelled.
- The view components and the metadata injection are not part of this model: `SEO.jsx`, `hooks.js`, the form components, `Todo.jsx` and `App.jsx`.
- Every string the builders copy from their input (names, urls, questions, answers, titles, descriptions, images, dates, supply entries) is an `Option<string>`, so a missing one is carried through as `None`. JavaScript values other than strings are not modelled.
- `JSON.stringify` drops `undefined` members; here they stay as `None`.
- The constant `@context` and `@type` members of every schema are not separate fields. The datatype names stand for the `@type` values.
