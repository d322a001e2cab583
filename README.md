# Floor-plan editor core: placement registry, interaction dispatcher, model catalogue

This project models, in Dafny, the sequential core of a 3D floor-plan editor. Users click on a floor plate to create rooms, drag rooms to move or resize them, and place furniture models inside rooms. The core has three parts:

- **Placement registry** (`useModelManager`, module `ModelManager`). It is an ordered list of placed model instances. Each instance carries its id, its room id, the catalogue entry it came from, its cloned scene graph (whose root holds the `visible` flag), its position and its scale. The registry offers placement, a derived visible count, a visibility refresh, cascade removal by room, removal by id and a per-room query. The room list and the selected-floor token are passed to the operations that read them. Commands sent to the external scene (add, remove, dispose) are kept in a log, `scene`.
- **Interaction dispatcher** (`createInteractionHandler`, module `Interaction`). It holds the closure state `lastClickedFloorIndex` and `lastClickTime`, uses a 300 ms double-click window, and keeps the room list it appends to. A floor-plate click is recorded every time. A double click on the same floor either places the selected model in the first containing room or creates, selects and shows a new room. Any other floor-plate click clears the room selection. Room clicks and model clicks return action records. The callbacks the dispatcher is created with are modelled as a log of calls.
- **Model catalogue and selection** (`useModelLoader`, module `ModelLoader`). It derives display names and paths from file names. It keeps the template cache as a `map`: a hit returns the cached template without asking the loader; a successful miss marks every mesh as casting and receiving shadows and caches the result; a failure leaves the cache alone. It also holds the toggling model selection and the loading flag.

Support modules: `Wrappers` (Option, Result), `Seqs` (JavaScript's `find`, `findIndex` and `filter` over sequences, with their laws), `Strings` (`indexOf`, `replace` with a string pattern, the `[-_]` replacement and a decimal `parseInt`), `Rooms` (room records, exact-real coordinates, containment, lookup by id).

Coordinates are Dafny `real`s, which are exact rationals, so `+ 0.5`, `width / 2` and the offsets are exact. Click times are integers (milliseconds).

Behaviours of the code worth noting, which the model follows:
- `availableModels` is assigned only inside the `try` block (src/composables/useModelLoader.js:28). The `catch` branch only logs (src/composables/useModelLoader.js:34-35), so a failed listing leaves the previous catalogue in place.
- A double click with a model selected places into the *first* room in list order that lies on that floor and contains the point.
- `replace('.glb', '')` removes the first ".glb" anywhere in the name, not a suffix (`DisplayNameRemovesFirstGlbOnly`).
- An empty floor token is falsy, so it means "no filter", like a missing one. A token whose number fails to parse (NaN) matches no floor. As a result, `updateModelVisibility` hides every instance whose room exists.

## Model

| member | source | states |
|---|---|---|
| `Seqs.FindFirst` | src/composables/useModelManager.js:88 | `findIndex`: the index returned holds an element passing the test, no earlier element passes it, and `None` (-1) means no element passes |
| `Seqs.Find` | src/composables/useModelManager.js:11 | `find`: a returned element is the first element of the list that passes the test; `None` (undefined) exactly when no element passes |
| `Seqs.Filter` | src/composables/useModelManager.js:108-110 | `filter` keeps no more elements than it was given, and every kept element passes the test |
| `Seqs.FilterMembers` | src/composables/useModelManager.js:63 | an element is in the filtered list exactly when it is in the list and passes the test |
| `Seqs.FilterConcat` | src/composables/useModelManager.js:108-110 | filtering distributes over concatenation, so it keeps the source order |
| `Seqs.FilterLengthCountsPositions` | src/composables/useModelManager.js:10-13 | the length of a filtered list equals the number of positions whose element passes the test |
| `Strings.IndexOfFrom` | src/composables/useModelManager.js:9 | the first occurrence of the pattern at or after the start, or `None` exactly when it occurs nowhere there |
| `Strings.ReplaceFirst` | src/composables/useModelManager.js:9 | definition of `replace` with a string pattern: the first occurrence found by `IndexOf` is swapped for the replacement, and a string without the pattern is returned as it is; its meaning is proved in `ReplaceFirstAtFront` and `ReplaceFirstAbsent` |
| `Strings.ReplaceFirstAtFront` | src/composables/useModelManager.js:9 | replacing a pattern at the front of a string puts the replacement there and keeps the rest |
| `Strings.ReplaceFirstAbsent` | src/composables/useModelLoader.js:29 | a string that does not contain the pattern is returned unchanged |
| `Strings.SeparatorsToSpaces` | src/composables/useModelLoader.js:29 | same length; each `-` or `_` becomes a space and every other character stays; no separator remains |
| `Strings.LeadingDigits` | src/composables/useModelManager.js:9 | the longest all-digit prefix: a prefix, all digits, followed by a non-digit or the end |
| `Strings.ParseInt` | src/composables/useModelManager.js:9 | definition of the decimal `parseInt`: an optional sign, then the leading digits read as a number, with `None` for NaN when there are no digits; its meaning is proved in `ParseIntOfDecimal` |
| `Strings.ParseIntOfDecimal` | src/composables/useModelManager.js:9 | `parseInt` reads back exactly the natural number printed in decimal |
| `Rooms.RoomById` | src/composables/useModelManager.js:11 | `rooms.find` by id: a returned room is in the list with that id and no earlier room has it; `None` exactly when no room has the id |
| `ModelLoader.DisplayName` | src/composables/useModelLoader.js:29 | definition of the display name: the first ".glb" removed, then every hyphen and underscore turned into a space; its meaning is proved in `DisplayNameOfGlbFile`, `PlainGlbName`, `DisplayNameHasNoSeparators` and `DisplayNameRemovesFirstGlbOnly` |
| `ModelLoader.Describe` | src/composables/useModelLoader.js:28-33 | definition of one catalogue entry: the display name, the file name, the models directory joined with the file name, and no thumbnail; its meaning is proved in `CatalogueEntries` |
| `ModelLoader.Catalogue` | src/composables/useModelLoader.js:28-33 | definition of the `map` over the listing: one entry per file, in order; its meaning is proved in `CatalogueEntries` and `BundledCatalogueStart` |
| `ModelLoader.CatalogueEntries` | src/composables/useModelLoader.js:28-33 | one entry per listed file, in order: its file name, path `/src/assets/models/` + name, no thumbnail, and the derived display name |
| `ModelLoader.DisplayNameHasNoSeparators` | src/composables/useModelLoader.js:29 | a display name contains no hyphen and no underscore |
| `ModelLoader.DisplayNameOfGlbFile` | src/composables/useModelLoader.js:29 | for `stem.glb` with no ".glb" inside the stem, the name is the stem with separators turned into spaces |
| `ModelLoader.PlainGlbName` | src/composables/useModelLoader.js:29 | a plain stem (no dot, no separator) plus ".glb" is displayed as the stem itself |
| `ModelLoader.BundledCatalogueStart` | src/composables/useModelLoader.js:16-33 | the bundled listing yields eight entries, the first being "chair" for `chair.glb` |
| `ModelLoader.DisplayNameRemovesFirstGlbOnly` | src/composables/useModelLoader.js:29 | only the first ".glb" is removed: `a.glb.glb` is displayed as `a.glb` |
| `ModelLoader.WithShadows` | src/composables/useModelLoader.js:51-56 | definition of the traversal: every mesh node gets `castShadow` and `receiveShadow`, at every depth; its meaning is proved in `WithShadowsMarksMeshes`, `WithShadowsFixesShadowed` and `WithShadowsIdempotent` |
| `ModelLoader.WithShadowsMarksMeshes` | src/composables/useModelLoader.js:51-56 | after the traversal every mesh casts and receives shadows, and the tree's shape, visibility and non-mesh nodes are unchanged |
| `ModelLoader.WithShadowsFixesShadowed` | src/composables/useModelLoader.js:51-56 | a tree whose meshes already cast and receive shadows is left exactly as it is |
| `ModelLoader.WithShadowsIdempotent` | src/composables/useModelLoader.js:51-56 | marking twice is the same as marking once |
| `ModelLoader.Toggled` | src/composables/useModelLoader.js:73-75 | the new selection is null exactly when the current one has the given model's file name, and otherwise it is that model |
| `ModelLoader.ToggledTwice` | src/composables/useModelLoader.js:73-75 | selecting the same model twice from null gives null; from a same-file selection it gives that model |
| `ModelLoader.Loader.constructor` | src/composables/useModelLoader.js:5-10 | an empty catalogue, not loading, no selection, an empty cache |
| `ModelLoader.Loader.LoadAvailableModels` | src/composables/useModelLoader.js:12-39 | on success the catalogue is the listing's catalogue, on failure it is unchanged; the loading flag goes true then false either way; nothing else changes |
| `ModelLoader.Loader.LoadModel` | src/composables/useModelLoader.js:41-71 | a hit returns the cached template without calling the loader and keeps the cache; a successful miss calls the loader once, caches the shadow-marked scene under the path and returns it; a failure returns the cause and keeps the cache; every template returned or cached has its meshes shadowed |
| `ModelLoader.Loader.SelectModel` | src/composables/useModelLoader.js:73-75 | the selection becomes the toggled selection, and nothing else changes |
| `ModelLoader.Loader.ClearSelection` | src/composables/useModelLoader.js:77-79 | the selection becomes null, and nothing else changes |
| `ModelManager.FloorFilterOf` | src/composables/useModelManager.js:8-9 | no filter exactly when the token is null or empty (falsy) |
| `ModelManager.FloorTokenSelectsFloor` | src/composables/useModelManager.js:9 | the token `"floor" + n` filters on floor `n` |
| `ModelManager.VisibleCount` | src/composables/useModelManager.js:7-14 | definition of `visibleObjects`: the number of placed objects with no floor selected, otherwise the length of the list filtered on the floor; its meaning is proved in `VisibleCountMeaning`, `VisibleCountAppend` and `VisibleCountAfterRefresh` |
| `ModelManager.VisibleCountMeaning` | src/composables/useModelManager.js:7-14 | with no floor selected the count is the number of placed objects; with a floor selected it is the number of positions whose object's room exists and lies on that floor; never more than the total |
| `ModelManager.OnFloorCount` | src/composables/useModelManager.js:10-13 | the filtered length with a floor selected is the number of positions whose object's room exists and lies on that floor |
| `ModelManager.VisibleCountAppend` | src/composables/useModelManager.js:7-14 | one more object raises the count by one exactly when it counts itself: always with no floor selected; with a floor selected, exactly when its room exists and lies on that floor, so an object whose room is missing never counts |
| `ModelManager.PlacementPosition` | src/composables/useModelManager.js:21-22 | definition of the placement position: the room's centre plus the offsets, at the floor's height plus 0.5; its meaning is proved in `Interaction.ClickPlacementLandsOnPoint` and stated in `Manager.PlaceModelInRoom` |
| `ModelManager.RefreshOne` | src/composables/useModelManager.js:49-58 | definition of one step of either forEach: show with no filter; with a filter, set `visible` to whether the room is on the floor, or leave the object as it is when its room is missing; its meaning is proved in `RefreshedVisibility` |
| `ModelManager.Refreshed` | src/composables/useModelManager.js:45-59 | definition of the refreshed list: `RefreshOne` at every position; its meaning is proved in `RefreshedVisibility` and `VisibleCountAfterRefresh` |
| `ModelManager.RefreshedVisibility` | src/composables/useModelManager.js:45-60 | a refresh changes only `visible`: everything shown with no filter; with a filter, an object with a room is shown exactly when its room is on the floor; an object without a room keeps its flag |
| `ModelManager.VisibleCountAfterRefresh` | src/composables/useModelManager.js:7-14 | when every object's room exists, the derived count after a refresh equals the number of objects actually shown |
| `ModelManager.ModelsInRoom` | src/composables/useModelManager.js:108-110 | `getModelsInRoom` returns no more than the placed objects, and each one it returns belongs to the room |
| `ModelManager.ModelsInRoomExactly` | src/composables/useModelManager.js:108-110 | the room's list holds exactly the placed objects of that room, in placement order |
| `ModelManager.WithoutRoom` | src/composables/useModelManager.js:80-84 | definition of what the splice loop keeps: the objects of other rooms, in order; its meaning is proved in `SpliceStep`, `CleanupReleasesEachOnce` and `CleanupKeepsOtherRooms` |
| `ModelManager.ReleaseLog` | src/composables/useModelManager.js:64-77 | definition of the release commands: for each released object in order, a scene removal and then a disposal; its meaning is proved in `ReleaseLogOccurrences` |
| `ModelManager.ReleaseLogOccurrences` | src/composables/useModelManager.js:64-77 | the release commands remove and dispose each id once per released object carrying it, and add nothing |
| `ModelManager.UniqueIdsAtMostOne` | src/composables/useModelManager.js:32 | with unique ids, at most one placed object carries any given id |
| `ModelManager.CleanupReleasesEachOnce` | src/composables/useModelManager.js:62-85 | after cleanup the room has no objects; with unique ids each removed object is removed from the scene and disposed exactly once, and no kept object is touched |
| `ModelManager.FilterKeepsUniqueIds` | src/composables/useModelManager.js:80-84 | the objects a splice pass keeps (any filter of a list with unique ids) still have unique ids |
| `ModelManager.CleanupKeepsOtherRooms` | src/composables/useModelManager.js:62-85 | cleaning up one room leaves every other room's list as it was, in order |
| `ModelManager.SpliceStep` | src/composables/useModelManager.js:80-84 | one backwards step of the splice loop removes position `i` exactly when it belongs to the room, extending the filtered suffix by one position |
| `ModelManager.RemoveFirstById` | src/composables/useModelManager.js:87-105 | definition of `removeModel`'s effect on the list: the list unchanged when `findIndex` finds nothing, otherwise that position spliced out; its meaning is proved in `RemoveFirstByIdEffect` |
| `ModelManager.RemoveFirstByIdEffect` | src/composables/useModelManager.js:87-105 | an unknown id changes nothing; a known id removes its first holder only: one shorter, one holder of the id fewer, every other id's objects kept in order |
| `ModelManager.RemoveAtKeepsHolders` | src/composables/useModelManager.js:104 | splicing out a holder of an id leaves one holder of that id fewer and every other id's objects as they were, in order |
| `ModelManager.PlacingExtendsRoom` | src/composables/useModelManager.js:36 | a placement appends the new object to its room's list and leaves other rooms' lists unchanged |
| `ModelManager.Manager.constructor` | src/composables/useModelManager.js:4-5 | an empty registry, no scene commands, the given floor height |
| `ModelManager.Manager.PlaceModelInRoom` | src/composables/useModelManager.js:16-43 | on load failure: null, with no change to the list or the scene; on success: one object appended at `(room.x + x, floorIndex * floorHeight + 0.5, room.z + z)` with scale 1 and the room's id, one scene addition, earlier entries unchanged; with a fresh id, ids stay unique |
| `ModelManager.Manager.UpdateModelVisibility` | src/composables/useModelManager.js:45-60 | the list becomes its refreshed version, and the scene is untouched |
| `ModelManager.Manager.ShowFloor` | src/composables/useModelManager.js:46-54 | with a floor selected, the list becomes its refresh under that floor: an object whose room exists is shown exactly when the room is on the floor, and any other object is left alone; the scene is untouched |
| `ModelManager.Manager.ShowAll` | src/composables/useModelManager.js:55-58 | with no floor selected, the list becomes its refresh with every object shown; the scene is untouched |
| `ModelManager.Manager.CleanupRoomModels` | src/composables/useModelManager.js:62-85 | the list becomes the non-room objects in their original order, and the scene gets a removal and a disposal for each room object, in order; unique ids stay unique, so the exactly-once release holds for every later cleanup too |
| `ModelManager.Manager.RemoveModel` | src/composables/useModelManager.js:87-106 | the list loses the first object with the id, and that object alone is removed from the scene and disposed; an unknown id changes nothing |
| `Rooms.ContainsPoint` | src/utils/interactionHandler.js:27-28 | definition of the bounds test: the point is within half the width and half the depth of the room's centre, borders included; its meaning is proved in `Interaction.ContainingRoom` |
| `Interaction.ContainingRoom` | src/utils/interactionHandler.js:24-28 | the first room on that floor whose bounds contain the point; `None` exactly when there is no such room |
| `Interaction.ClickPlacementLandsOnPoint` | src/utils/interactionHandler.js:30-33 | placing the model at the offsets a click computes (the point minus the room's centre) puts it exactly at the clicked point, half a unit above the room's floor |
| `Interaction.HandleModelClick` | src/utils/interactionHandler.js:72-80 | an action exactly for a hit on a placed model, and then it selects that hit object |
| `Interaction.Handler.constructor` | src/utils/interactionHandler.js:2-14 | no last floor, last click time 0, no callbacks called |
| `Interaction.Handler.HandleFloorBaseClick` | src/utils/interactionHandler.js:16-49 | not a double click: only `selectRoom(null)`; double click with a model: one placement call for the first containing room with its offsets, or nothing, and rooms unchanged; double click without a model: exactly one new room at the point, selected, then one visibility refresh; always records the floor and the time |
| `Interaction.Handler.IsRepeatClick` | src/utils/interactionHandler.js:19 | definition of the double-click test: less than 300 ms since the last floor-plate click, on the same floor; its meaning is proved in `HandleFloorBaseClick` and the scenarios `DoubleClickCreatesRoom` and `LateSecondClickCreatesNothing` |
| `Interaction.Handler.NewRoom` | src/utils/interactionHandler.js:38 | definition of the room the external constructor builds: centred at the clicked point, on the clicked floor, with the handler's default extents; its meaning is stated in `HandleFloorBaseClick` and `DoubleClickCreatesRoom` |
| `Interaction.Handler.HandleRoomClick` | src/utils/interactionHandler.js:51-70 | a handle gives `resize` with its handle type; a room floor gives null exactly within the window, otherwise `move`; anything else gives null |
| `Interaction.RoomClickTiming` | src/utils/interactionHandler.js:51-70 | a resize does not depend on the time; once a move is allowed, later clicks still move |
| `Interaction.RoomClickIgnoresFloor` | src/utils/interactionHandler.js:59 | a room click depends only on when the last floor-plate click was, not on which floor it was on |
| `Interaction.DoubleClickCreatesRoom` | src/utils/interactionHandler.js:16-49 | clicks at 0 ms and 250 ms on floor 0 with no model create exactly one room at (2, 3) and select it |
| `Interaction.LateSecondClickCreatesNothing` | src/utils/interactionHandler.js:16-49 | a second click 400 ms later creates no room and clears the selection again |
| `Interaction.MoveSuppressedAfterFloorClick` | src/utils/interactionHandler.js:57-68 | a room-floor click 200 ms after a floor-plate click is ignored, and 300 ms after it starts a move |
| `Interaction.DoubleClickPlacesModel` | src/utils/interactionHandler.js:23-35 | with a model selected, a double click at (1, 0.5) in a 4 × 3 room at the origin of floor 1 asks for placement at offset (1, 0.5), and placing with floor height 3 gives position (1, 3.5, 0.5) |

## Left out

- The GLTF network fetch and parse are not modelled. `LoadModel` receives the loader's outcome as a parameter (a scene graph or a failure cause), so every outcome is covered. The same goes for the load behind `placeModelInRoom`: `PlaceModelInRoom` receives `loadModelFn`'s outcome.
- Progress logging (a floating-point percentage) and all `console` output are left out. They only log.
- Clone independence is not modelled. A three.js clone is modelled as a copy of an immutable value, so sharing geometry between clones cannot be expressed.
- The disposal traversal (`traverse`, geometry and material `dispose()` calls) is not modelled node by node. Each released instance logs one `Disposed(id)` command, standing for disposing every geometry and material of its scene graph.
- Vue `ref` and `computed` reactivity are left out. Refs are plain fields and `visibleObjects` is a pure function.
- `Date.now()` and `Math.random()` id generation is not modelled. The new instance id is a parameter. Uniqueness is not guaranteed, so lemmas that need unique ids take that as a hypothesis, and `PlaceModelInRoom` states that a fresh id keeps ids unique.
- `ModelManager.Manager.PlaceModelInRoom`: the offsets `x` and `z` are required parameters, although `placeModelInRoom` gives them the default 0 (src/composables/useModelManager.js:16). A caller that omits them corresponds to passing 0.0.
- The `Room` constructor is external. A new room's id is a parameter of `HandleFloorBaseClick`, and its default extents are the handler's `roomWidth` and `roomDepth`.
- Async interleaving is a concurrency matter and is not modelled: the double-load race in `loadModel`, overlapping placements, and `placeModelFn` running unawaited. Each call is atomic.
- `Strings.ParseInt` is a decimal `parseInt` with an optional sign. It leaves out leading whitespace, the `0x` hexadecimal prefix and the loss of precision beyond 2^53.
- `Handler.HandleFloorBaseClick` requires a floor-plate hit. The handler reads `intersect.object.userData.floorIndex` (src/utils/interactionHandler.js:17), which only floor-plate objects carry. For other hits the JavaScript would read an undefined floor index.
- `LoadAvailableModels` receives the listing's outcome as a parameter. The code lists a fixed array, and its failure branch only logs.
- JavaScript numbers are modelled as exact reals (coordinates, floor height) and integers (times, floor indices). Floating-point rounding is left out.
- mycasasole-boilerplate/src/App.jsx is a React user interface with no logic to verify, and is not part of this model.
