# MindFlow map editing and bookkeeping, modelled in Dafny

MindFlow is a collaborative mind-map editor: an Express/MongoDB backend stores
maps and collaborator permissions, and a React client edits a map as a graph of
nodes (each holding topics with links) and edges, keeps a cache of the user's
own and shared maps, shows toast notifications, and lets the user study
flashcards made from topics.

This project models the parts of that system that carry logic beyond
plumbing:

- **Map routes** (`MapRoutes`, backend/routes/maps.js): a `MapStore` class
  holding the map collection and the permission collection. Saving is gated by
  ownership or an `edit` permission record; a request without an `id` creates a
  map owned by the requester; for requests that do not overlap, a share
  token is issued once and then kept; delete is owner-only and removes every
  permission on the map; the shared-with-me listing skips permissions whose
  map no longer exists. Each request is one atomic step of the store.
- **Editor document** (`MindmapDoc`, frontend-react/src/pages/MindmapPage.js):
  loading a stored map into editor nodes and edges, the save payload, the
  per-node topic update, the single-topic edit selection, the per-topic link
  update, the theme recolouring, and the module-level counter behind
  `node-N` ids (a `NodeIdCounter` class). The main result is that a new node's
  id is never the id of a loaded node, and that every edit this client makes
  itself preserves this. Nodes relayed from collaborators do not move the
  counter, so the result covers one client.
- **Study cursor** (`StudyCursor`, frontend-react/src/pages/StudyPage.js): a
  `StudySession` class with the card index and the flipped flag, cyclic
  next/prev and the index correction after a delete. The delete runs in two
  steps, because its test reads the index of the render that started it
  while its decrement applies to the live index. A navigation while the delete
  is pending can so leave the index at -1 (`StudyCursor.StaleDeleteIndex`).
- **Notification queue** (`Notifications`,
  frontend-react/src/context/NotificationContext.js): a `NotificationQueue`
  class with the id counter and the list; ids stay strictly increasing, and
  removing a just-shown entry restores the list.
- **Client map cache** (`MapCache`, frontend-react/src/context/MapProvider.js):
  a `MapProvider` class with the own and shared lists and the loading flag, the
  PUT/POST choice of `saveMap`, the lookup that prefers own maps, and the
  list fallbacks of `fetchAllMaps`.
- **Flashcard form** (`FlashcardForm`,
  frontend-react/src/components/FlashcardModal.js): the trimmed-field check
  and the payload, plus the reset of the fields when a new topic arrives.
- Shared pieces: `MapSchema` (the stored shapes of backend/models/Map.js and
  the permission record), `JsText` (ECMAScript white space, `trim`,
  `parseInt(s, 10)`, `String(n)`, `split('-')[1]`, truthiness of an optional
  string, `a || b` on strings) and `Wrappers` (`Option`).

Server replies, confirmation dialogs, DOM text extraction, freshly generated
Mongo ids and uuid tokens, and the coordinate reading and writing of node
positions are parameters of the operations that use them.

The editor payload has its map id in field `id`, not `_id`
(frontend-react/src/pages/MindmapPage.js:209), so `saveMap` always takes
its POST branch (`MapCache.EditorSaveIsPost`). The backend's POST route
updates a map when the body's `id` is truthy (`MapRoutes.MapStore.Save`).
The PUT branch of `saveMap` is never taken from the editor. It would target a
route that backend/routes/maps.js does not define.

The real-time relay in backend/socketHandlers.js (session registry, join
gate, change broadcast) is not part of this model.

## Model

| member | source | states |
|---|---|---|
| `MapRoutes.MapStore.Save` | backend/routes/maps.js:13-44 | A truthy `id` naming no map gives 404 and no change. A requester that is neither the owner nor holds an `edit` record gives 403 and no change. Otherwise the map is replaced by its update. Without an `id`, a new map owned by the requester, not public and without a token, is added under a fresh id. Permissions never change. |
| `MapRoutes.Updated` | backend/routes/maps.js:35 | An authorised save replaces title, nodes and connections. Id, owner, `isPublic` and `shareId` are kept. |
| `MapRoutes.ShareMap` | backend/routes/maps.js:87-90 | After sharing, the map is public and has a truthy token. An existing truthy token is kept. No other field changes. |
| `MapRoutes.ShareIsStable` | backend/routes/maps.js:87-93 | Sharing twice returns the first token, whatever the second draw. The token is the old one if present, else the fresh one. |
| `MapRoutes.MapStore.Share` | backend/routes/maps.js:80-94 | A map the requester does not own (or no such map) gives 404 and no change. Otherwise the map becomes `ShareMap` of itself and its token is returned. |
| `MapRoutes.WithoutMap` | backend/routes/maps.js:110 | The cascade never adds permission records. |
| `MapRoutes.WithoutMapMembers` | backend/routes/maps.js:110 | The cascade keeps exactly the permissions whose map is another one. |
| `MapRoutes.WithoutMapAppend` | backend/routes/maps.js:110 | The survivors keep their order and multiplicity: the cascade distributes over concatenation of record sequences. |
| `MapRoutes.MapStore.Delete` | backend/routes/maps.js:101-112 | Only the owner may delete, else 404 and no change. Delete removes the map and exactly the permissions on it. |
| `MapRoutes.SharedMaps` | backend/routes/maps.js:63-71 | The listing has at most one entry per permission record. |
| `MapRoutes.SharedMapsMembers` | backend/routes/maps.js:63-71 | The listing holds exactly the stored maps pointed to by the requester's permission records. Records of deleted maps are skipped, so every listed map is in the collection. |
| `MapRoutes.SharedMapsAppend` | backend/routes/maps.js:71 | The listing follows permission order: it distributes over concatenation of record sequences. |
| `MapRoutes.DeletedMapNotListed` | backend/routes/maps.js:71 | A map removed from the collection is never listed, even while records still point to it. |
| `MapRoutes.MapStore.SharedWithMe` | backend/routes/maps.js:61-72 | The route answers the `SharedMaps` listing of the current collections and changes nothing. |
| `MindmapDoc.Load` | frontend-react/src/pages/MindmapPage.js:165-179 | Loading keeps node count, order, ids and topic text and links. It sets every `isEditing` to false and reads positions from the stored lengths. It sets no theme colour. Every connection becomes an animated smoothstep edge with the same id, source and target. |
| `MindmapDoc.Payload` | frontend-react/src/pages/MindmapPage.js:209 | `mapToSave` carries the current map id in `id`, the title, one saved node per editor node with the same id, and at most one connection per edge; its nodes are `SaveNodes` of the document and its connections `SaveConnections` of the edges, which `SaveAfterLoad`, `SaveLinksPayload` and `PayloadIgnoresViewState` characterise; `MapCache.EditorSaveIsPost` gives the request it becomes. |
| `MindmapDoc.SaveNodes` | frontend-react/src/pages/MindmapPage.js:199-203 | One saved node per editor node, in order, with the same id and formatted position. Each topic keeps exactly text and links, so it loses only `isEditing`. |
| `MindmapDoc.SaveConnections` | frontend-react/src/pages/MindmapPage.js:205-207 | There is at most one saved connection per edge. |
| `MindmapDoc.SaveConnectionsMembers` | frontend-react/src/pages/MindmapPage.js:205-207 | The saved connections are exactly the edges having truthy id, source and target, cut down to those three fields. So every saved connection is complete. |
| `MindmapDoc.SaveConnectionsAppend` | frontend-react/src/pages/MindmapPage.js:205-207 | Saved connections keep the order of the edges. |
| `MindmapDoc.SaveAfterLoad` | frontend-react/src/pages/MindmapPage.js:167-207 | Saving a freshly loaded map gives back its stored nodes, when formatting a parsed coordinate reproduces its text. It also gives back its connections, when each is complete. |
| `MindmapDoc.UpdateNodeData` | frontend-react/src/pages/MindmapPage.js:155-158 | Nodes with the given id get the new topics. Ids, positions and colours of all nodes are kept, and every other node is unchanged. |
| `MindmapDoc.UpdateNodeDataOverrides` | frontend-react/src/pages/MindmapPage.js:155-158 | A second update of the same node overrides the first. |
| `MindmapDoc.EditTopic` | frontend-react/src/pages/MindmapPage.js:228-241 | It is a no-op exactly when there is no menu, or the first node with the menu's id has no topic at the menu's index. Otherwise each node with that id has exactly the chosen topic in editing mode. Texts and links are kept, and other nodes are unchanged. |
| `MindmapDoc.EditTopicSelectsOne` | frontend-react/src/pages/MindmapPage.js:239 | In the chosen node, the chosen topic is being edited and no other topic is. |
| `MindmapDoc.EditTopicIdempotent` | frontend-react/src/pages/MindmapPage.js:239 | Choosing the same topic again changes nothing further. |
| `MindmapDoc.SaveLinks` | frontend-react/src/pages/MindmapPage.js:275-281 | Only the topic at the given index of nodes with the given id gets the new links. Texts, editing flags, positions, colours and all other topics and nodes are kept. |
| `MindmapDoc.SaveLinksPayload` | frontend-react/src/pages/MindmapPage.js:275-282 | The save after a link edit differs from the save before it only in that topic's links. |
| `MindmapDoc.Recolor` | frontend-react/src/pages/MindmapPage.js:109-116 | Every node's data gets the theme's node and font colours. Ids, positions and topics are kept. |
| `MindmapDoc.RecolorIdempotent` | frontend-react/src/pages/MindmapPage.js:110-115 | Recolouring twice with one theme is recolouring once. |
| `MindmapDoc.PayloadIgnoresViewState` | frontend-react/src/pages/MindmapPage.js:199-203 | Neither the theme colours nor the edit selection change the saved nodes. |
| `MindmapDoc.NodeSuffix` | frontend-react/src/pages/MindmapPage.js:181 | `parseInt(id.split('-')[1], 10)` is NaN for an id without '-'; `NodeIdForSuffix` gives its value on the ids `addNode` builds. |
| `MindmapDoc.NodeIdFor` | frontend-react/src/pages/MindmapPage.js:216 | `node-${nodeIdCounter}` is "node-" followed by the counter's decimal digits without a leading zero; `NodeIdForSuffix` reads it back. |
| `MindmapDoc.MaxSuffix` | frontend-react/src/pages/MindmapPage.js:180-183 | The reduce is at least 0 and at least every numeric suffix. It is 0 or one of the suffixes. NaN suffixes are ignored. |
| `MindmapDoc.MaxOf` | frontend-react/src/pages/MindmapPage.js:180-183 | The running maximum from 0 over the parsed suffixes is at least 0 and at least every number among them. It is 0 or one of them. |
| `MindmapDoc.NodeIdForSuffix` | frontend-react/src/pages/MindmapPage.js:181 | The id `node-N` built by `addNode` reads back as suffix N. |
| `MindmapDoc.LoadedBelowCounter` | frontend-react/src/pages/MindmapPage.js:180-184 | After loading, the counter (max suffix + 1) is above every numeric suffix of the loaded ids. |
| `MindmapDoc.NewIdIsFresh` | frontend-react/src/pages/MindmapPage.js:216 | While the counter is above every suffix, `node-<counter>` is the id of no node. |
| `MindmapDoc.AddKeepsBelow` | frontend-react/src/pages/MindmapPage.js:215-225 | Adding the new node and incrementing the counter keeps the counter above every suffix. |
| `MindmapDoc.EditsKeepBelow` | frontend-react/src/pages/MindmapPage.js:155-158 | The topic update, the edit selection, the link update and the recolouring keep node ids, so they keep the counter fresh. |
| `MindmapDoc.NodeIdCounter.constructor` | frontend-react/src/pages/MindmapPage.js:29 | The counter starts at 1. |
| `MindmapDoc.NodeIdCounter.ConvertToFlowData` | frontend-react/src/pages/MindmapPage.js:165-185 | Without a map nothing changes. With one, the document is `Load` of it and the counter becomes max suffix + 1, above every loaded suffix. |
| `MindmapDoc.NodeIdCounter.AddNode` | frontend-react/src/pages/MindmapPage.js:215-226 | The new node is `node-<old counter>` with one editing topic "Novo Tópico" at the given position. The counter is incremented. |
| `JsText.TrimStart` | frontend-react/src/components/FlashcardModal.js:27 | The result is a suffix of the input after a run of white space, and starts with a non-space. |
| `JsText.TrimEnd` | frontend-react/src/components/FlashcardModal.js:27 | The result is a prefix of the input before a run of white space, and ends with a non-space. |
| `JsText.Trim` | frontend-react/src/components/FlashcardModal.js:27 | The result is the part of the input between a leading and a trailing run of white space. It is empty, or starts and ends with non-space characters. |
| `JsText.TrimBetween` | frontend-react/src/components/FlashcardModal.js:27 | Removing a blank run from the front and another from the back leaves a slice of the input between two blank runs. |
| `JsText.TrimEmptyIffBlank` | frontend-react/src/components/FlashcardModal.js:27 | `s.trim()` is empty exactly when `s` is empty or all white space. |
| `JsText.ParseInt` | frontend-react/src/pages/MindmapPage.js:181 | `parseInt` is NaN exactly when no digit follows the optional white space and sign. |
| `JsText.ParseIntOf` | frontend-react/src/pages/MindmapPage.js:181 | After leading white space and an optional sign, `parseInt` reads the longest run of digits as a decimal number, negated after '-', and ignores the rest. |
| `JsText.Decimal` | frontend-react/src/pages/MindmapPage.js:216 | The decimal text of a counter is non-empty digits without a leading zero. |
| `JsText.DecimalValue` | frontend-react/src/pages/MindmapPage.js:216 | The decimal text of n has value n. |
| `JsText.ParseDecimal` | frontend-react/src/pages/MindmapPage.js:181 | `parseInt(String(n), 10)` is n. |
| `JsText.SecondField` | frontend-react/src/pages/MindmapPage.js:181 | `split('-')[1]` is undefined exactly when the id has no '-'. |
| `JsText.SecondFieldOf` | frontend-react/src/pages/MindmapPage.js:181 | `split('-')[1]` of `prefix-field` followed by nothing or by a further '-' field is `field`, when neither contains '-'. |
| `JsText.Find` | frontend-react/src/pages/MindmapPage.js:231 | `find` on a key gives the first element with that key, or nothing when no element has it. Used for nodes and for maps. |
| `JsText.FindAt` | frontend-react/src/pages/MindmapPage.js:231 | The first element with the key is the one `find` gives. |
| `JsText.OrElse` | frontend-react/src/context/MapProvider.js:38 | `a \|\| b` on an optional string gives `a` when it is truthy, else `b`. |
| `StudyCursor.JsRem` | frontend-react/src/pages/StudyPage.js:35 | JavaScript's `%`: the remainder is below the modulus in size, has the sign of the dividend, and differs from it by a multiple of the modulus, which fixes its value. |
| `StudyCursor.NextIndex` | frontend-react/src/pages/StudyPage.js:35 | With more than one card, next stays below n and wraps from n-1 to 0, else adds one. From -1 it gives 0. |
| `StudyCursor.PrevIndex` | frontend-react/src/pages/StudyPage.js:41 | With more than one card, prev stays below n and wraps from 0 to n-1, else subtracts one. From -1 it gives n-2. |
| `StudyCursor.NextPrevInverse` | frontend-react/src/pages/StudyPage.js:35-41 | Prev after next, and next after prev, return to a valid index. |
| `StudyCursor.StepMoves` | frontend-react/src/pages/StudyPage.js:33-43 | A step always changes the index, so the card is always turned face down. |
| `StudyCursor.AfterDelete` | frontend-react/src/pages/StudyPage.js:49-50 | The index drops by exactly one, exactly when the delete succeeded and the index was > 0 and ≥ n-1. Otherwise it is kept. |
| `StudyCursor.AfterDeleteInRange` | frontend-react/src/pages/StudyPage.js:49-50 | A valid index stays valid in the list one card shorter, or is 0 when the list becomes empty, when nothing moves the index while the delete is pending. |
| `StudyCursor.Resolved` | frontend-react/src/pages/StudyPage.js:48-50 | When the delete resolves, the live index drops by exactly one exactly when the delete succeeded and the captured index was > 0 and ≥ the captured count - 1. Otherwise it is kept. |
| `StudyCursor.ResolvedInPlace` | frontend-react/src/pages/StudyPage.js:45-51 | When the live index is still the captured one, resolving is `AfterDelete`. |
| `StudyCursor.StaleDeleteIndex` | frontend-react/src/pages/StudyPage.js:33-51 | Deleting the last of n > 1 cards and pressing next before the delete resolves leaves the index at -1. Pressing prev instead gives n-3 where `AfterDelete` gives n-2. |
| `StudyCursor.StudySession.constructor` | frontend-react/src/pages/StudyPage.js:13-14 | The session starts at card 0, face down. |
| `StudyCursor.StudySession.SetIndex` | frontend-react/src/pages/StudyPage.js:54-56 | Setting the index to a different value turns the card face down. The same value keeps the flip. |
| `StudyCursor.StudySession.Navigate` | frontend-react/src/pages/StudyPage.js:22-31 | Navigation ends at the target index with the card face down. |
| `StudyCursor.StudySession.Next` | frontend-react/src/pages/StudyPage.js:33-37 | With one card or none it does nothing. Otherwise the index becomes `NextIndex`, face down. |
| `StudyCursor.StudySession.Prev` | frontend-react/src/pages/StudyPage.js:39-43 | With one card or none it does nothing. Otherwise the index becomes `PrevIndex`, face down. |
| `StudyCursor.StudySession.BeginDelete` | frontend-react/src/pages/StudyPage.js:45-47 | A declined confirmation starts nothing. A confirmed delete captures the current index and card count. Nothing changes. |
| `StudyCursor.StudySession.DeleteResolved` | frontend-react/src/pages/StudyPage.js:47-50 | The index becomes `Resolved` of the live index and the captured request. A changed index is face down. |
| `StudyCursor.StudySession.Delete` | frontend-react/src/pages/StudyPage.js:45-52 | With nothing in between the two steps: a cancelled delete changes nothing, a confirmed one moves the index to `AfterDelete`, and a changed index is face down. |
| `StudyCursor.StudySession.Flip` | frontend-react/src/pages/StudyPage.js:78 | Flipping toggles the face and keeps the index. |
| `Notifications.Without` | frontend-react/src/context/NotificationContext.js:22 | The list never grows. Removing an absent id is a no-op. |
| `Notifications.WithoutMembers` | frontend-react/src/context/NotificationContext.js:22 | It keeps exactly the entries with another id. |
| `Notifications.WithoutIdempotent` | frontend-react/src/context/NotificationContext.js:22 | Removing an id twice is removing it once. |
| `Notifications.WithoutKeepsOrder` | frontend-react/src/context/NotificationContext.js:22 | Removal keeps strictly increasing ids strictly increasing. |
| `Notifications.RemoveUndoesShow` | frontend-react/src/context/NotificationContext.js:16-22 | Removing the id of an entry just appended, when the id was unused, restores the earlier list. |
| `Notifications.NotificationQueue.constructor` | frontend-react/src/context/NotificationContext.js:11-14 | The counter starts at 0 with no entries. |
| `Notifications.NotificationQueue.Show` | frontend-react/src/context/NotificationContext.js:16-19 | It appends one entry with the old counter value as id and the given type, or 'success'. Earlier entries are kept and the counter is incremented. Ids stay distinct and strictly increasing, and the new id was unused. |
| `Notifications.NotificationQueue.Remove` | frontend-react/src/context/NotificationContext.js:21-23 | The list becomes `Without` the id. The counter is kept and ids stay strictly increasing. |
| `MapCache.RequestFor` | frontend-react/src/context/MapProvider.js:76-77 | PUT to `/maps/<_id>` exactly when `_id` is truthy, otherwise POST to `/maps`. |
| `MapCache.EditorSaveIsPost` | frontend-react/src/pages/MindmapPage.js:209-210 | Every editor save is a POST to `/maps` without `_id`, for existing maps too. The map id travels in `id`. |
| `MapCache.GetMapById` | frontend-react/src/context/MapProvider.js:120-122 | An own map with the id wins. Otherwise the shared lookup's result is given, which is nothing when neither list has the id. |
| `JsText.FindInConcat` | frontend-react/src/context/MapProvider.js:121 | Searching a concatenation finds the first list's match, if any, and otherwise the second's. |
| `MapCache.RemoveById` | frontend-react/src/context/MapProvider.js:111 | The list never grows. |
| `MapCache.RemoveByIdAbsent` | frontend-react/src/context/MapProvider.js:111 | Removing an id that no map has is a no-op. |
| `MapCache.RemoveByIdMembers` | frontend-react/src/context/MapProvider.js:111 | It keeps exactly the maps with another id. |
| `MapCache.RemoveByIdAppend` | frontend-react/src/context/MapProvider.js:111 | The kept maps keep their order and multiplicity: the filter distributes over concatenation. |
| `MapCache.Fetched` | frontend-react/src/context/MapProvider.js:26-49 | The lists load exactly when both requests were answered, both bodies parse and both replies are OK; a non-array body counts as an empty list. Otherwise the error is, in this order: a rejected request's reason, the own then the shared body's parse error, the own reply's `message` or its fallback, the shared reply's `message` or its fallback. |
| `MapCache.RejectionFirst` | frontend-react/src/context/MapProvider.js:27-33 | A rejected request decides the error whatever the other reply's body or status. |
| `MapCache.BodyBeforeStatus` | frontend-react/src/context/MapProvider.js:32-44 | With both requests answered, an unparsable body decides the error before any status, the own body before the shared one. |
| `MapCache.MapProvider.constructor` | frontend-react/src/context/MapProvider.js:17-19 | Both lists start empty and `loading` starts false. |
| `MapCache.MapProvider.GetMap` | frontend-react/src/context/MapProvider.js:120-122 | The lookup is `GetMapById` over the current lists and changes nothing. |
| `MapCache.MapProvider.FetchAllMaps` | frontend-react/src/context/MapProvider.js:23-53 | Unauthenticated, nothing changes. Otherwise both lists come from `Fetched`, or any failure empties both with an error notice. `loading` ends false. |
| `MapCache.MapProvider.SaveMap` | frontend-react/src/context/MapProvider.js:75-100 | The request is `RequestFor` the data. The saved body is returned exactly on an OK reply whose body parses, with the success notice. Failures give the rejection's message, or the body's parse error, or `msg` or the PUT/POST-specific fallback. The lists are untouched and `loading` ends false. |
| `MapCache.MapProvider.DeleteMap` | frontend-react/src/context/MapProvider.js:102-118 | A declined confirmation changes nothing. An OK reply removes exactly the own maps with that id. Failures keep the lists and give the rejection's message, the body's parse error, or `msg` or the fallback. Shared maps are untouched and `loading` ends false. |
| `FlashcardForm.Submit` | frontend-react/src/components/FlashcardModal.js:21-36 | A closed modal renders nothing. An open one refuses exactly when front or back is empty or white space only. Otherwise the payload has the map id, the untrimmed fields and deck 'Padrão'. |
| `FlashcardForm.FlashcardModal.constructor` | frontend-react/src/components/FlashcardModal.js:9-10 | Both fields start empty. |
| `FlashcardForm.FlashcardModal.TopicChanged` | frontend-react/src/components/FlashcardModal.js:12-18 | Without a topic nothing changes. A new topic sets the front to its text content and resets the back to empty. |
| `FlashcardForm.FlashcardModal.EditFront` | frontend-react/src/components/FlashcardModal.js:52 | Typing in the front changes only the front. |
| `FlashcardForm.FlashcardModal.EditBack` | frontend-react/src/components/FlashcardModal.js:61 | Typing in the back changes only the back. |
| `FlashcardForm.FlashcardModal.HandleSubmit` | frontend-react/src/components/FlashcardModal.js:25-37 | Submitting the current fields gives `Submit` of them and changes nothing. |

## Left out

- The real-time relay (session registry, join authorisation, change broadcast, presence): `backend/socketHandlers.js` is not part of this model. The client side (frontend-react/src/pages/MindmapPage.js:62-107,118-126) is socket emit/listen plumbing.
- Applying node and edge changes (`applyNodeChanges`, `applyEdgeChanges`, and `addNode`/`deleteNode`/`handleDeleteEdge`/`onConnect`, which feed them): reactflow's change application is outside this model. `AddNode` returns the node it would add. This includes the node changes a collaborator relays through `nodes:updated` (MindmapPage.js:87,90): a relayed `node-<c>` does not move this client's module-level counter. Two clients that loaded the same map start from the same counter, so their next `addNode` (MindmapPage.js:216) builds the same id. `NewIdIsFresh` and `AddKeepsBelow` cover one client's own edits only.
- The id of a new edge is built from the current time (MindmapPage.js:130). This is a clock and is not modelled.
- Position reading and writing (`parseFloat` of "Npx", the `${x}px` template): these are float and string numerics. They are the `parse` and `format` parameters.
- Saved `width`/`height`: they come from reactflow's runtime measurement, so the saved node shape leaves them out.
- The other topic-menu actions (links, flashcard, word cloud, audio, questions): they only open modals or show notifications.
- Page navigation, `setCurrentMap` after a save, titles, and all rendering (MindmapPage.js:187-196,210-212,286-378): these are UI state.
- The reload effect (MindmapPage.js:187-196) depends on `getMapById`, which MapProvider rebuilds on every render (MapProvider.js:120-122). MapProvider re-renders whenever a notification is shown or removed, because the notification context value is a fresh object on every render (NotificationContext.js:28). Each such render therefore re-runs `convertToFlowData` on the cached map, which drops unsaved editor nodes and resets the counter. React's render scheduling is not modelled; `ConvertToFlowData` is the effect of one such run.
- `MapRoutes.MapStore.Save`: each request is modelled as atomic, though the handler awaits between `findById` (maps.js:22) and `findByIdAndUpdate` (maps.js:35). A delete landing in between makes the save answer 201 with a `null` body, which the client reports as "Mapa salvo com sucesso!" and returns as null (MapProvider.js:85-93). Interleaved requests are not modelled.
- `MapRoutes.MapStore.Share`: each request is modelled as atomic, though the handler awaits between `findOne` (maps.js:82) and `save` (maps.js:90). Two overlapping shares of a map without a token both read no `shareId`, each draws and answers its own token, and the last write wins, so one caller holds a token the map no longer has. `ShareIsStable` holds for shares in sequence.
- GET `/` (own maps sorted by `createdAt`): it depends on a timestamp order, which is a clock.
- Mongo errors: invalid ObjectId casts, server errors (500) and schema validation and defaults on create (required title, default title). These are database plumbing.
- The `populate` of owner names in the shared-with-me listing: it is a read-only join for display.
- Uniqueness of share tokens (the sparse unique index): uuid generation is randomness, and the token is the `token` parameter.
- `createNewMap`, `generateShareLink`, `getCollaborators`, `inviteCollaborator`, `removeCollaborator` (MapProvider.js): each is one request whose only logic is choosing a notification message.
- `fetchWithAuth`'s token expiry check (api/index.js): it is a float clock comparison with a redirect.
- `MapCache.Fetched`: when both requests of `Promise.all` reject, the source reports whichever rejection comes first in time. The model reports the own-maps rejection.
- The topic menu's action handler closes all menus (`closeAllMenus`, MindmapPage.js:235) before running an action on an existing topic. Menu visibility is UI state.
- After a link edit, `handleSaveLinks` shows "Links atualizados e mapa salvo com sucesso!" without checking the result of `saveMap` (MindmapPage.js:282-283), so the notice also follows a failed save, whose `saveMap` returns null (MapProvider.js:94-96). That notice is not modelled; `SaveMap` returns the notice `saveMap` itself shows.
- `MapCache.MapProvider.SaveMap`: the refresh `fetchAllMaps` started on success runs concurrently. It is a separate `FetchAllMaps` call, not part of the save.
- Timers: the 150 ms flip delay in StudyPage.js:25-27 and the auto-close in Notification.js are pure delays. Navigation happens at once.
- DOM text extraction of a topic (FlashcardModal.js:14-16) is a foreign DOM call. Its result is the `text` parameter.
- `JsText.ParseInt`, `JsText.Decimal`: JavaScript numbers are doubles. Precision beyond 2^53 and exponent notation beyond 10^21 are not modelled.
- `JsText.IsSpace`: JavaScript strings are UTF-16 code units, while Dafny characters are Unicode scalar values. The white space set is that of ECMAScript.
- What the study page renders at an index outside the list (StudyPage.js:62-92): `flashcards[-1]` is undefined, so it shows the empty-deck message and no navigation, though cards remain. Rendering is not modelled; `StaleDeleteIndex` shows how the index gets there.
- The flashcard list and its reloads: FlashcardProvider is outside this model, and the card count is a parameter of the study cursor's methods.
