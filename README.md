# Kanban board mutations and session sign-in, modelled in Dafny

This project models the core of a single-board Kanban application
(kirk-ryan/pm-tool):

- **The board and its handlers.** The board is a normalised store. It is an
  ordered list of columns `{id, title, cardIds}` and a map from card id to card
  `{id, title, details}`. The board component's handlers each build a new board
  from the old one: rename a column, add a card, delete a card, and, at the end
  of a drag, replace the columns with what `moveCard` computes. Every handler's
  change goes through `persist`, which replaces the component's `board` state;
  the load on mount (not modelled) also assigns it.
- **The authentication provider.** It holds a tri-state flag: unknown until the
  mount step has read session storage, then signed in or signed out. The flag is
  backed by the `kanban_auth` session-storage entry. There is one fixed
  credential pair, `user` / `password`.

Files:

- `wrappers.dfy` (`Wrappers`): `Option` and `Result`.
- `board_model.dfy` (`BoardModel`): `Card`, `Column`, `Board`, and `Listed`, the
  multiset of every listed card id. It also holds the board invariant `Valid`
  and facts about `Listed`.
- `board_ops.dfy` (`BoardOps`): the handlers' board transforms as pure functions,
  with lemmas about what they change and keep, and about when they keep the
  invariant.
- `kanban_component.dfy` (`KanbanComponent`): class `KanbanBoard`, the
  component's state (`board`, `saveError`, `activeCardId`). `Persist` and the
  handler methods update it.
- `auth.dfy` (`Auth`): class `AuthProvider` with the fields `isAuthenticated`
  and `storage`, plus `useAuth`.
- `seed_data.dfy` (`SeedData`): the five-column board the backend seeds its
  database with, proved valid.
- `board_scenarios.dfy` (`BoardScenarios`): the five empty columns the component
  tests load, and their add-then-delete sequence on its first column, for any
  title and details.

The board invariant `Valid(b)` has three parts. Column ids are distinct. Cards
are stored under their own ids. And `Listed(b.columns) == multiset(b.cards.Keys)`.
That one equation says that every listed id is a key of `cards` (no dangling
id), that every key is listed (no orphan card), and that no id is listed twice,
whether in one column or in two. `ValidMeansIntegrity` spells these out one by
one, and `IntegrityMeansValid` proves the converse.

## The code and the board invariant

The handlers do not check their arguments, and the model follows the code:

- Adding a card under an unknown column id still stores the card in `cards`.
  The card is then an orphan. `AddCardValidity` proves that, for a fresh id, the
  invariant survives exactly when some column has the given id.
- Deleting a card removes its key from `cards` but filters only the named
  column. If another column lists the card, the id is left dangling there.
  `DeleteCardValidity` proves that the invariant survives exactly when the card
  is absent or is listed by the named column.

So "every mutation keeps the invariant" holds only under these conditions.
Adding to an unknown column is not a no-op either: the card map grows.

## Model

| member | source | states |
|---|---|---|
| `BoardModel.ValidMeansIntegrity` | frontend/src/components/KanbanBoard.tsx:192-196 | on a valid board every listed id is a card key, no column lists an id twice, no id is in two columns, and every card is listed by some column |
| `BoardModel.IntegrityMeansValid` | frontend/src/components/KanbanBoard.tsx:192-196 | conversely, a board with distinct column ids, cards stored under their own ids, no dangling id, no duplicate in a column, no id in two columns and no orphan card satisfies the board invariant |
| `BoardModel.ListedAtMostOne` | frontend/src/components/KanbanBoard.tsx:192-196 | an id that no column lists twice and no two columns both list is counted at most once among all listed ids |
| `BoardModel.ListedReplaceOne` | frontend/src/components/KanbanBoard.tsx:86-88 | changing one column's card list changes the board's listed multiset by exactly the old list removed and the new one added |
| `BoardOps.RemoveAll` | frontend/src/components/KanbanBoard.tsx:100 | `filter(id => id !== cardId)` leaves no occurrence of the id, keeps every other id, and never lengthens the list |
| `BoardOps.RemoveAllConcat` | frontend/src/components/KanbanBoard.tsx:100 | the filter of a concatenation is the concatenation of the filters, so the kept ids stay in display order |
| `BoardOps.RemoveAllListedOnce` | frontend/src/components/KanbanBoard.tsx:100 | for an id listed once at position p, the filter removes exactly that position and keeps the ids before and after it in order |
| `BoardOps.RemoveAllCounts` | frontend/src/components/KanbanBoard.tsx:100 | the filter drops the count of the removed id to zero and keeps every other count |
| `BoardOps.RenameColumn` | frontend/src/components/KanbanBoard.tsx:69-76 | only titles change, and only those of columns with the given id; card lists, column count, order and ids, the other columns and the cards map are unchanged |
| `BoardOps.RenameUnknownColumnIsNoop` | frontend/src/components/KanbanBoard.tsx:72-74 | renaming a column id that no column has returns the input board |
| `BoardOps.RenameColumnKeepsValid` | frontend/src/components/KanbanBoard.tsx:69-76 | renaming keeps the board invariant |
| `BoardOps.DetailsOrPlaceholder` | frontend/src/components/KanbanBoard.tsx:84 | a stored card's details are never empty: the given details when non-empty, else "No details yet." |
| `BoardOps.AddCard` | frontend/src/components/KanbanBoard.tsx:78-90 | the card `{id, title, details or placeholder}` is stored under `id`; other cards keep their values; `id` is appended at the end of the named column's list; column count, order and ids and the other columns are unchanged |
| `BoardOps.AddCardListed` | frontend/src/components/KanbanBoard.tsx:86-88 | with distinct column ids and a matching column, adding lists the new id exactly once more and changes no other count |
| `BoardOps.AddCardKeepsValid` | frontend/src/components/KanbanBoard.tsx:81-88 | adding a card with a fresh id to a column that exists keeps the board invariant |
| `BoardOps.AddCardOrphan` | frontend/src/components/KanbanBoard.tsx:81-88 | adding a card under an unknown column id stores it in `cards` while no column lists it (an orphan) |
| `BoardOps.AddCardValidity` | frontend/src/components/KanbanBoard.tsx:78-89 | for a valid board and a fresh id, the result is valid exactly when some column has the given id; otherwise the new card is stored but listed by no column (an orphan) |
| `BoardOps.DeleteCard` | frontend/src/components/KanbanBoard.tsx:92-104 | the key is removed from `cards` and the other cards keep their values; every occurrence is filtered from the named column's list; column count, order and ids and the other columns are unchanged |
| `BoardOps.DeleteCardListed` | frontend/src/components/KanbanBoard.tsx:98-102 | with distinct column ids, deleting lowers the listed count of the card by the number of times the named column listed it, and changes no other count |
| `BoardOps.KeysWithout` | frontend/src/components/KanbanBoard.tsx:95-97 | dropping a key from the cards map drops its count, and only its, to zero |
| `BoardOps.DeleteCardKeepsValid` | frontend/src/components/KanbanBoard.tsx:92-103 | deleting a card that is absent, or is listed by the named column, keeps the board invariant |
| `BoardOps.DeleteCardDangles` | frontend/src/components/KanbanBoard.tsx:95-102 | deleting a card that the named column does not list leaves its id listed elsewhere but no longer in `cards` (a dangling id) |
| `BoardOps.DeleteCardValidity` | frontend/src/components/KanbanBoard.tsx:92-103 | on a valid board, the result is valid exactly when the card is absent or listed by the named column |
| `BoardOps.DeleteAbsentCardIsNoop` | frontend/src/components/KanbanBoard.tsx:95-102 | deleting a card that is not on a valid board returns the input board |
| `BoardOps.DeleteCardIdempotent` | frontend/src/components/KanbanBoard.tsx:92-104 | deleting the same card from the same column twice gives the same board as deleting it once |
| `BoardOps.AddThenDeleteRestores` | frontend/src/components/KanbanBoard.tsx:78-104 | adding a card under an id the board does not use, then deleting that id from the same column, gives back the original board (cards map, every column's list and title) |
| `BoardOps.DragEnd` | frontend/src/components/KanbanBoard.tsx:55-67 | with no drop target, or a card dropped on itself, the board is unchanged; otherwise the columns are what `moveCard` returns; the cards map is never touched |
| `BoardOps.DragEndKeepsValid` | frontend/src/components/KanbanBoard.tsx:59-66 | the drag end keeps the board invariant whenever `moveCard` keeps column ids distinct and lists the same ids |
| `BoardOps.ColumnCards` | frontend/src/components/KanbanBoard.tsx:196 | the looked-up card list has one entry per listed id, present exactly when the id is a key of `cards`, and each present entry is the card stored under that id |
| `BoardOps.ValidRendersEveryCard` | frontend/src/components/KanbanBoard.tsx:196 | on a valid board every listed id of every column finds its card, and that card carries the listed id |
| `KanbanComponent.KanbanBoard.constructor` | frontend/src/components/KanbanBoard.tsx:22-25 | the component starts with an empty (valid) board, no save error and no dragged card |
| `KanbanComponent.KanbanBoard.Persist` | frontend/src/components/KanbanBoard.tsx:45-49 | the board is replaced wholesale by the new one and the save error is cleared; the dragged card is kept |
| `KanbanComponent.KanbanBoard.SaveFailed` | frontend/src/components/KanbanBoard.tsx:48 | a failed save raises the error flag and does not roll the board back |
| `KanbanComponent.KanbanBoard.DragStart` | frontend/src/components/KanbanBoard.tsx:51-53 | the dragged card id is recorded; board and error flag are unchanged |
| `KanbanComponent.KanbanBoard.DragEnd` | frontend/src/components/KanbanBoard.tsx:55-67 | the dragged card is cleared; without a target or when dropped on itself nothing else changes; otherwise the board becomes the drag-end board, with the same cards, and is persisted |
| `KanbanComponent.KanbanBoard.RenameColumn` | frontend/src/components/KanbanBoard.tsx:69-76 | the persisted board is the renamed board, and a valid board stays valid |
| `KanbanComponent.KanbanBoard.AddCard` | frontend/src/components/KanbanBoard.tsx:78-90 | with a fresh id from createId, the persisted board is the board with the card added; a valid board stays valid exactly when the named column exists |
| `KanbanComponent.KanbanBoard.DeleteCard` | frontend/src/components/KanbanBoard.tsx:92-104 | the persisted board is the board with the card deleted; a valid board stays valid exactly when the card is absent or listed by the named column |
| `KanbanComponent.KanbanBoard.ActiveCard` | frontend/src/components/KanbanBoard.tsx:106 | the drag preview card exists exactly when a non-empty dragged id is a key of `cards`, and is that card; on a valid board it is the dragged card itself (its id is the dragged id) |
| `SeedData.SeedListed` | backend/db.py:8-14 | the five seed columns list the eight seed card ids once each |
| `SeedData.SeedKeys` | backend/db.py:15-24 | the eight seed cards are stored under their own ids |
| `SeedData.SeedBoardValid` | backend/db.py:7-25 | the seed board has five columns and satisfies the board invariant |
| `BoardScenarios.AddThenDeleteOnEmptyBoard` | frontend/src/components/KanbanBoard.test.tsx:75-103 | on five empty columns, adding a card with any title and details (the test types "New card" and "Notes") to the first column gives a valid board listing just that card, stored with its title and its details or the placeholder when they are empty, and deleting it restores the empty board |
| `Auth.GetItemAfterLogin` | frontend/src/lib/auth.test.tsx:27 | after storage is written by a successful login, reading `kanban_auth` gives "true" |
| `Auth.GetItemAfterLogout` | frontend/src/lib/auth.test.tsx:59 | after a logout removes the key, reading `kanban_auth` gives nothing |
| `Auth.StoredSignIn` | frontend/src/lib/auth.tsx:27 | the stored session counts as signed in exactly when `kanban_auth` holds "true" |
| `Auth.AuthProvider.constructor` | frontend/src/lib/auth.tsx:23-24 | before the mount step the state is unknown and storage is as given |
| `Auth.AuthProvider.Mount` | frontend/src/lib/auth.tsx:26-28 | after mount the state is signed in exactly when storage holds `kanban_auth = "true"`, signed out otherwise; storage is unchanged |
| `Auth.AuthProvider.Login` | frontend/src/lib/auth.tsx:30-37 | returns true exactly for "user" / "password"; success stores "true" under `kanban_auth` and signs in; failure changes neither state nor storage |
| `Auth.AuthProvider.Logout` | frontend/src/lib/auth.tsx:39-42 | from any state, the key is removed from storage, nothing else in storage changes, and the state is signed out |
| `Auth.UseAuth` | frontend/src/lib/auth.tsx:51-55 | without a provider the result is the error "useAuth must be used within AuthProvider"; with one it is that provider |
| `Auth.LoginIsRestoredOnMount` | frontend/src/lib/auth.tsx:26-34 | storage written by a successful login is read as signed in by the next mount |
| `Auth.LogoutIsRestoredOnMount` | frontend/src/lib/auth.tsx:26-42 | storage left by a logout is read as signed out by the next mount |

## Left out

- `moveCard` and `createId` come from `frontend/src/lib/kanban`, which is not part of this model. `moveCard` is a function-valued parameter of `DragEnd`, and its drop-placement rules are not modelled. `createId` is a caller-supplied id; `KanbanBoard.AddCard` requires it not to be a key of `cards` already.
- `KanbanComponent.KanbanBoard.DragEnd`, `BoardOps.DragEndKeepsValid`: whether the drag keeps the invariant depends on `moveCard`. The lemma only assumes what `moveCard` must keep; it does not prove it.
- The request that loads the board on mount and the loading and error status it sets: asynchronous network I/O. So the model starts from the empty board that is set before loading.
- `saveBoard` in `persist`: an asynchronous request with no rollback. The model keeps only its two effects on state. `Persist` clears the error flag, and `SaveFailed` is the failure callback.
- The chat widget hands a whole board to `persist` without checking it. `Persist` accepts any board, as the code does. The widget, its request and its message list are not modelled.
- The `cards` object's key order and the JavaScript-object edge cases of the spread are not modelled; `cards` is a Dafny `map`.
- The drag-and-drop library (sensors, collision detection, the ids it reports) and all rendering except the card lookup at line 196.
- React's re-rendering and context plumbing in the auth provider. Session storage is the `storage` field of `AuthProvider`, and the mount effect is the `Mount` method, which runs once.
- The login page, the home page redirect, the API wrappers, the backend's database and AI calls, and the end-to-end tests.
