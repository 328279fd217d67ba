# BurnBox room store, in Dafny

BurnBox is an anonymous, ephemeral chat server. All of its state is one in-memory
array of rooms (`salas`), seeded with three rooms at start-up, that five HTTP
handlers read and change: list the rooms, create a room, delete a room (only its
creator may, and never an official pinned room), read a room's messages, and post
a message (which also resets the room's preview text). This project models that
store and proves what its handlers promise.

- `chat.dfy` (module `Chat`): the values — `Room`, `Message`, the listing's
  `Summary`, the handlers' `Reply` (success, or 400/403/404 with the server's
  error text), the three-valued `Creator` (`null`, `undefined` or a string, as
  JavaScript's strict `!==` tells them apart), the 50-character `Preview`
  truncation and the seeded rooms.
- `registry.dfy` (module `Registry`): each handler as a function of the room list
  giving its reply and the new list; `FindIndex`, the first room with an id; and
  `Run`, the store after a sequence of requests handled one at a time.
- `registry_properties.dfy` (module `RegistryProperties`): the properties —
  validation before lookup, the creator check before the pinned check, what a
  successful create, delete or post adds or removes, and what holds across any
  run: the set of pinned rooms never changes, ids stay unique when created ids
  are fresh, and a room's messages are its earlier ones followed by the accepted
  posts in posting order.
- `store.dfy` (module `Store`): class `RoomStore`, the store as the server keeps
  it, with a `salas` field that the handlers reassign in place, a linear-scan
  `IndexOf` loop for `find`/`findIndex`, and each handler proved to produce the
  reply and new list of its `Registry` counterpart.
- `generators.dfy` (module `Generators`): the formatting step of the nickname and
  room-name generators, for a given number and word positions.

Fresh uuids and the clock are parameters: `CreateRoom` takes the new room's id
(and requires it not to be in use), `PostMessage` takes the message id and the
timestamp text.

Points of the code's behaviour the model keeps as written:
- a delete checks the creator (server.js:116) before the pinned flag (server.js:121),
  so a requester who is not the creator gets "Apenas o criador pode deletar a sala"
  even on a pinned room;
- the preview marker appended after 50 characters is three dots `...` (server.js:172),
  not a single ellipsis character;
- `tempoAutoDestruicao` is stored and echoed (server.js:80, 59, 95) but nothing
  expires rooms, so the model has no expiry;
- `tempoAutoDestruicao || 360` (server.js:80) turns a requested budget of 0 into 360.

Two consequences of strict comparison are proved rather than corrected
(`SeededRoomDeletedByNullCreator`, `DeleteSucceedsIff`): the unpinned seeded rooms have creator `null`, so a
delete request that sends `"criador": null` removes them, while one that omits
the field (`undefined`) is refused; and a room created without a creator is
deleted by any request that also omits it.

## Model

| member | source | states |
|---|---|---|
| `Chat.Preview` | server.js:172 | the preview is the text when it has at most 50 characters, otherwise its first 50 characters followed by "..."; never longer than 53 |
| `Chat.Summarize` | server.js:54-62 | a summary holds every field of the room but its messages: putting any messages back gives the room with those messages, and putting its own back gives the room itself |
| `Chat.Seed` | server.js:15-44 | the store starts with three rooms of distinct ids, none with a creator or messages; only the first is pinned |
| `Registry.List` | server.js:51-64 | one summary per room, in store order, each of which restores its room when the room's messages are put back |
| `Registry.Budget` | server.js:80 | the stored budget is the requested one when it is present and non-zero, otherwise 360; it is never 0 |
| `Registry.NewRoom` | server.js:75-84 | a new room has the given id, name and creator, one user, no messages, is not pinned, and has a non-zero budget |
| `Registry.Create` | server.js:68-100 | the create succeeds exactly when the name is present and non-empty; otherwise 400 and the list is unchanged; on success the list is the old one plus the new room, and the reply is that room's summary |
| `Registry.Delete` | server.js:103-128 | a refusal is 403 or 404 and leaves the list unchanged; 404 exactly when no room has the id; a success removes one room and adds none |
| `Registry.Read` | server.js:131-144 | 404 exactly when no room has the id, otherwise the messages of a room with that id |
| `Registry.Post` | server.js:147-178 | the list keeps its length; a refusal leaves it unchanged and is 400 exactly when sender or text is absent or empty; the post succeeds exactly when both are non-empty and a room has the id; the reply is a non-system message with the given sender and text |
| `Registry.FindIndex` | server.js:107 | the result is -1 exactly when no room has the id, otherwise the position of the first room with it |
| `Store.RoomStore.constructor` | server.js:15-44 | the store starts with the three seeded rooms, whose ids are distinct |
| `Store.RoomStore.IndexOf` | server.js:107 | the linear scan returns the first position holding the id, or -1, as `FindIndex` |
| `Store.RoomStore.ListRooms` | server.js:51-64 | one summary per room in store order, each the room without its messages, and the online count 28; nothing changes |
| `Store.RoomStore.CreateRoom` | server.js:68-100 | with a fresh id, the reply and new room list are those of `Registry.Create`, and ids stay unique |
| `Store.RoomStore.DeleteRoom` | server.js:103-128 | the reply and new room list are those of `Registry.Delete`, and ids stay unique |
| `Store.RoomStore.GetMessages` | server.js:131-144 | 404 exactly when no room has the id, otherwise that room's messages; nothing changes |
| `Store.RoomStore.PostMessage` | server.js:147-178 | the reply and new room list are those of `Registry.Post`, and ids stay unique |
| `RegistryProperties.ListAfterCreate` | server.js:75-99 | after a valid create the listing is the old listing followed by the summary the create replied with |
| `RegistryProperties.ListAfterPost` | server.js:169-172 | a successful post changes the listing only in the target room's preview |
| `RegistryProperties.CreateRejectsMissingName` | server.js:71-73 | an absent or empty name gets 400 and leaves the room list unchanged |
| `RegistryProperties.CreateAppendsOneRoom` | server.js:75-99 | a valid create appends exactly one room after the unchanged earlier rooms: given id, name and creator, 1 user, preview "Sala recém-criada", not pinned, no messages, budget the given value when non-zero else 360; the reply is its summary |
| `RegistryProperties.CreateKeepsIdsUnique` | server.js:76-86 | a create with a fresh id keeps ids unique and adds exactly that id when it succeeds |
| `RegistryProperties.DeleteUnknownId` | server.js:107-111 | an id no room has gets 404 and changes nothing |
| `RegistryProperties.DeleteChecksCreatorFirst` | server.js:115-118 | a requester whose creator value differs from the room's gets 403 "Apenas o criador…" and nothing changes, pinned or not |
| `RegistryProperties.DeletePinnedForbidden` | server.js:120-123 | the room's own creator gets 403 "Não é possível deletar salas oficiais" on a pinned room and nothing changes |
| `RegistryProperties.DeleteSucceedsIff` | server.js:107-125 | a delete succeeds if and only if some room has the id and the first such room has the requester's creator value and is not pinned |
| `RegistryProperties.DeleteRemovesFirstMatch` | server.js:107-125 | a successful delete removes exactly the first room with the id; the rooms before and after it keep their order and the multiset loses just that room |
| `RegistryProperties.DeleteKeepsPinnedRooms` | server.js:115-125 | every pinned room is still in the list after any delete call |
| `RegistryProperties.DeleteThenNotFound` | server.js:107-137 | with unique ids, after a successful delete the id is gone, ids stay unique and reading the room gives 404 |
| `RegistryProperties.SeededRoomDeletedByNullCreator` | server.js:116-125 | on the seeded store, deleting "sala2" without a creator gives 403, with creator null succeeds leaving "sala1" and "sala3", and deleting pinned "sala1" with null gives 403 |
| `RegistryProperties.PostValidatesBeforeLookup` | server.js:151-159 | an empty or absent sender or text gets 400 whatever the room id, and nothing changes |
| `RegistryProperties.PostUnknownId` | server.js:155-159 | a valid post to an id no room has gets 404 and nothing changes |
| `RegistryProperties.PostAppendsToTarget` | server.js:161-176 | a valid post to a present room replies with a non-system message holding the given id, sender, text and time, appends it at the end of the target room's messages, sets its preview (at most 53 characters), and leaves every other field and every other room unchanged |
| `RegistryProperties.PostThenRead` | server.js:134-169 | reading a room after a valid post to it gives its earlier messages followed by the new one |
| `RegistryProperties.PostToSeededRoom` | server.js:161-172 | posting "hello" as "Alice" to the pinned seeded room and reading it gives exactly that one user message |
| `RegistryProperties.CreateKeepsPinnedIds` | server.js:82-86 | a create never changes the set of pinned room ids |
| `RegistryProperties.DeleteKeepsPinnedIds` | server.js:120-125 | a delete never changes the set of pinned room ids |
| `RegistryProperties.PostKeepsPinnedIds` | server.js:169-172 | a post never changes the set of pinned room ids |
| `RegistryProperties.StepKeepsPinnedIds` | server.js:51-178 | no request of any kind changes the set of pinned room ids |
| `RegistryProperties.RunKeepsPinnedIds` | server.js:51-178 | after any sequence of requests the set of pinned room ids is what it was |
| `RegistryProperties.SeedPinnedForever` | server.js:15-44 | from the seeded store, "sala1" is the only pinned room after any sequence of requests |
| `RegistryProperties.StepKeepsIdsUnique` | server.js:76-125 | one request keeps ids unique when a created id is fresh |
| `RegistryProperties.RunKeepsIdsUnique` | server.js:76-125 | any sequence of requests whose created ids are fresh keeps ids unique |
| `RegistryProperties.FindIndexIs` | server.js:107 | the first position holding an id is the one the lookup finds |
| `RegistryProperties.DeleteKeepsOtherRoom` | server.js:107-125 | a delete of another id, accepted or refused, keeps the room found for this id unchanged |
| `RegistryProperties.StepAppendsAccepted` | server.js:103-178 | a request that is not a delete of the id keeps a room with it and appends exactly the message it accepts for that room; a request that is no delete keeps the room at the same position |
| `RegistryProperties.RunAppendsAccepted` | server.js:103-178 | after any sequence of requests none of which deletes the id, a room with it remains and holds its earlier messages followed by every valid post addressed to it, in request order |
| `RegistryProperties.ReadAfterRun` | server.js:134-169 | reading a room after any sequence of requests none of which deletes it gives its earlier messages followed by the accepted posts to it, in posting order |
| `RegistryProperties.CreateDeleteScenario` | server.js:68-137 | create "Test" for "u1" with budget 5 succeeds; "u2"'s delete gets 403 and changes nothing; "u1"'s delete restores the earlier list, where the id reads as 404 |
| `Generators.Decimal` | server.js:183 | the decimal text of a number is non-empty and made of digits |
| `Generators.DecimalRoundTrip` | server.js:183 | reading the decimal text back gives the number |
| `Generators.FourDigits` | server.js:182 | every number from 1000 to 9999 prints as four digits |
| `Generators.Apelido` | server.js:181-189 | the nickname is "BURN", the number's decimal text (four digits), then "#": nine characters from which the number reads back |
| `Generators.NomeSala` | server.js:192-204 | the room name is the prefix, a space, the suffix, a space and the number's decimal text (four digits), from which the number reads back |

## Left out

- Express setup, CORS, JSON body parsing, static files, the catch-all `index.html` route and `app.listen` (server.js:1-12, 206-214): transport, not store logic.
- `uuidv4()` and `new Date().toISOString()` (server.js:76, 162, 165): foreign calls; the ids and the timestamp text are parameters, and a new room's id is required to be fresh. Message ids are not required to be unique, because nothing looks a message up.
- `Math.random()` in the generators (server.js:182, 195-197): floating point and randomness; the drawn number and word positions are parameters.
- Expiry of rooms after `tempoAutoDestruicao`: the server stores and echoes the field but never acts on it, so there is no behaviour to model.
- `usuariosOnline` is a constant 28 that the listing reports; nothing updates it.
- Request fields of other JSON types: the model takes `nome`, `remetente` and `texto` as strings (absent or `null` being `None`), `tempoAutoDestruicao` as an integer and `criador` as null, undefined or a string. A numeric name or text, a boolean or object creator (objects compare by reference), or a string budget are not modelled.
- The missing `fixa` field of the two unpinned seeded rooms is modelled as `false`; the server's JSON listing omits the field for them instead of sending `false`.
- Text length and truncation count characters; JavaScript counts UTF-16 code units, which differ for characters outside the Basic Multilingual Plane.
- The in-place update of a room object (`sala.mensagens.push`, `sala.preview = …`) is modelled as replacing that room's value in `salas`; no other reference to a room object outlives a request, so no aliasing is lost. JSON serialisation of replies is not modelled.
