# Match3 board core in Dafny

A model of the board layer of the Match3 Unity game (hailuu-1103/Match3). It covers three parts, and proves properties of each.

- **Bonus detonation** (`Assets/Scripts/Board/BonusItem.cs`). A bonus item carries a pattern: `NONE`, `HORIZONTAL`, `VERTICAL` or `ALL`. On exploding, it collects target cells by walking the neighbour links of its cell, then calls `ExplodeItem` on each target in list order. The model fixes exactly which cells it collects:
  - a line pattern takes the maximal run of linked cells in each direction;
  - the bomb takes the cross plus a side column only where the side neighbour exists.
- **The skin table** (`Assets/Scripts/Board/ItemSkin.cs`). Two dictionaries, one keyed by normal item type and one by bonus pattern, give a prefab name for each item type. Writes are guarded, and the lookup tries the normal dictionary first. A hand-written serialiser flattens each dictionary into parallel lists and rebuilds it. The model proves the round trip for any dictionary enumeration order.
- **The item view lifecycle** (`Assets/Scripts/Board/Item.cs`). An item takes a view from a per-prefab-name LIFO pool, found through a process-wide prefab cache. It animates the view and recycles it when it explodes or is cleared. As the code stands, `_prefabKey` is never assigned. The release branch of `RecycleToPool` is therefore never taken: every recycled view is destroyed and no pool ever grows. The model keeps the release branch. Its claims that views are destroyed and pools unchanged hold under that condition: `Items.Item.RecycleToPool` and `Items.Item.Clear` state it for `!ReleasesToPool()`, and `Items.ExplodeAndComplete` requires a null `_prefabKey`.

Layout:

| file | module | contents |
|---|---|---|
| `basics.dfy` | `Basics` | `Option`, duplicate-free sequences |
| `cells.dfy` | `Cells` | see below |
| `bonus_item.dfy` | `Bonuses` | the pattern enum, its target functions, and the imperative collectors and detonation loops |
| `item_skin.dfy` | `Skins` | the `ItemSkin` class, prefab lookup, serialisation |
| `item.dfy` | `Items` | see below |
| `grid.dfy` | `Grids` | rectangular boards and cell-by-cell statements of the patterns |

`cells.dfy` holds:
- cells with four partial neighbour maps;
- the walk along one direction, with an independent characterisation as a maximal chain of links;
- the `Board` whose `ExplodeItem` calls form a trace.

`item.dfy` holds:
- Unity's objects as ids in a `Scene`, with active, parent, scale, renderer and sorting-order state;
- DOTween as one tween slot per view;
- `Pool`, and `Registry` (the two static dictionaries);
- `Item`.

Modelling decisions:
- **The board wiring** is an assumption (`Cells.WellWired`), because `Cell` and the code that links cells are not part of this model. It says three things:
  - a link leads to a cell of the board;
  - a link moves strictly along its own row or column;
  - the board's cells lie in its `width` × `height` box.

  This is what makes the `while (true)` loops of the line detonations terminate.
- **Item subclasses.** `Item`'s subclasses become one class with a `kind`:
  - `Bonus(pattern)` is a `BonusItem`;
  - `Plain(typeName)` is any item that keeps `Item`'s own `IsSameType` and `ExplodeView`.
- **C# null.** A C# `null` string is `None` of `Skins.Text`. A `NullReferenceException` is the outcome `NullReference`. Two such paths are modelled:
  - `SetView` without a skin asset;
  - a bonus pattern other than `NONE` on an item without a cell.
- **Call order in `SetView`.** `Item.SetView` records the resolved skin in the item's field after taking the view, not before. Nothing between the two steps reads that field.

Where the intended design and the code differ, the model follows the code:
- Recycled views are destroyed, not returned to their pool.
- Pools are created only by `SetView`.
- Targets are detonated in the list order the code builds, not in an unspecified order.
- A bonus item runs its pattern even when it has no view; only the shrink that follows is guarded by the view.

## Model

| member | source | states |
|---|---|---|
| Cells.Walk | Assets/Scripts/Board/BonusItem.cs:127-145 | every cell a directional walk collects is on the board and lies strictly beyond the start, on its row or column |
| Cells.WalkIsMaximalChain | Assets/Scripts/Board/BonusItem.cs:127-135 | the walk follows one neighbour link per step from the origin and stops exactly at the first cell without a neighbour that way |
| Cells.MaximalChainIsWalk | Assets/Scripts/Board/BonusItem.cs:127-135 | any sequence that follows links from the origin and stops at the first missing neighbour is the walk: the loop's result is determined |
| Cells.WalkOrdered | Assets/Scripts/Board/BonusItem.cs:96-114 | the walk visits cells in strictly increasing distance from the origin, so none twice |
| Cells.WalkShorterThanRank | Assets/Scripts/Board/BonusItem.cs:96-104 | from a cell inside the board, a walk has fewer entries than there are columns or rows from that cell, itself included, to the edge in its direction: at most as many as lie strictly beyond it |
| Cells.Board.ExplodeItem | Assets/Scripts/Board/BonusItem.cs:88 | a detonation appends exactly that cell to the trace |
| Bonuses.ParseBonus | Assets/Scripts/Board/ItemSkin.cs:52 | a name parses to the pattern whose name it is, and to nothing when no pattern has that name |
| Bonuses.HorizontalTargetsShape | Assets/Scripts/Board/BonusItem.cs:123-145 | horizontal targets are board cells on the origin's row, never the origin, no cell twice, at most `width - 1` of them |
| Bonuses.VerticalTargetsShape | Assets/Scripts/Board/BonusItem.cs:92-114 | vertical targets are board cells on the origin's column, never the origin, no cell twice, at most `height - 1` of them |
| Bonuses.SideColumnShape | Assets/Scripts/Board/BonusItem.cs:61-84 | a side neighbour's column (it, then its up and bottom neighbours) lies strictly on that side of the origin, has no repeats and at most 3 cells |
| Bonuses.CentreColumnShape | Assets/Scripts/Board/BonusItem.cs:59-60 | the bottom and up neighbours are board cells on the origin's column, distinct, never the origin |
| Bonuses.BombTargetsShape | Assets/Scripts/Board/BonusItem.cs:56-84 | at most 8 targets, all board cells, never the origin, no repeats; no left neighbour means no target left of the origin, and likewise for the right |
| Bonuses.BombWithoutLeft | Assets/Scripts/Board/BonusItem.cs:61-72 | without a left neighbour the bomb's list holds no left-column entry at all |
| Bonuses.AppendWalk | Assets/Scripts/Board/BonusItem.cs:127-135 | the `while (true)` loop appends exactly the walk from the start cell to the list |
| Bonuses.DetonateAll | Assets/Scripts/Board/BonusItem.cs:148-151 | each list entry receives exactly one `ExplodeItem`, in list order |
| Bonuses.ExplodeHorizontalLine | Assets/Scripts/Board/BonusItem.cs:123-153 | the trace grows by the rightward run followed by the leftward run |
| Bonuses.ExplodeVerticalLine | Assets/Scripts/Board/BonusItem.cs:92-121 | the trace grows by the upward run followed by the downward run |
| Bonuses.AppendSideColumn | Assets/Scripts/Board/BonusItem.cs:61-84 | appends a side neighbour and its up and bottom neighbours when present, nothing without the side neighbour |
| Bonuses.CollectBomb | Assets/Scripts/Board/BonusItem.cs:58-84 | the list is bottom, up, the left column, then the right column, each entry only when present |
| Bonuses.ExplodeBomb | Assets/Scripts/Board/BonusItem.cs:56-90 | the trace grows by exactly the bomb's list, after the list is complete |
| Bonuses.ActivateBonus | Assets/Scripts/Board/BonusItem.cs:39-54 | `NONE` detonates nothing; every other pattern detonates its targets, and fails with a null-reference outcome when the item has no cell |
| Skins.ParseNormal | Assets/Scripts/Board/ItemSkin.cs:51 | a name parses to the ordinal of the first normal type of that name, and fails exactly when no normal type has it |
| Skins.ItemSkin.GetPrefabName | Assets/Scripts/Board/ItemSkin.cs:49-55 | a normal type with an entry wins; otherwise the bonus entry of that name decides; a name of neither enum gives null |
| Skins.ItemSkin.AddOrUpdateNormal | Assets/Scripts/Board/ItemSkin.cs:25-30 | a null, empty or blank prefab changes nothing; otherwise only that key is set; no blank value is ever stored |
| Skins.ItemSkin.AddOrUpdateBonus | Assets/Scripts/Board/ItemSkin.cs:32-37 | as for normal types, on the bonus dictionary |
| Skins.ItemSkin.RemoveNormal | Assets/Scripts/Board/ItemSkin.cs:39-42 | only the given key is removed; an absent key changes nothing; no blank value appears |
| Skins.ItemSkin.RemoveBonus | Assets/Scripts/Board/ItemSkin.cs:44-47 | as for normal types, on the bonus dictionary |
| Skins.Flatten | Assets/Scripts/Board/ItemSkin.cs:62-66 | the lists have the dictionary's size, distinct keys, and each value is the dictionary's value for its key, in whatever order the dictionary enumerates |
| Skins.ItemSkin.OnBeforeSerialize | Assets/Scripts/Board/ItemSkin.cs:57-76 | both dictionaries are flattened into their key and value lists |
| Skins.Rebuild | Assets/Scripts/Board/ItemSkin.cs:80-81 | a fresh dictionary holds the first `min(|keys|, |vals|)` pairs, assigned in order |
| Skins.ItemSkin.OnAfterDeserialize | Assets/Scripts/Board/ItemSkin.cs:78-85 | each dictionary is discarded and rebuilt from its lists alone |
| Skins.AssignKeys | Assets/Scripts/Board/ItemSkin.cs:81 | the rebuilt dictionary's keys are exactly the keys among the first pairs read |
| Skins.AssignLastWins | Assets/Scripts/Board/ItemSkin.cs:81 | for a key listed twice, the later pair's value wins |
| Skins.AssignAgrees | Assets/Scripts/Board/ItemSkin.cs:81 | pairs taken from a dictionary rebuild a part of that dictionary |
| Skins.RoundTrip | Assets/Scripts/Board/ItemSkin.cs:57-85 | rebuilding from a flattening gives back the same dictionary |
| Skins.ItemSkin.SaveAndReload | Assets/Scripts/Board/ItemSkin.cs:57-85 | serialising and then deserialising leaves both dictionaries exactly as they were |
| Skins.RebuildKeepsNull | Assets/Scripts/Board/ItemSkin.cs:78-85 | deserialisation stores a null value as it is: unlike the guarded writes, it does not filter blank values |
| Items.Scene.LoadPrefab | Assets/Scripts/Board/Item.cs:56 | each load is logged; it yields the prefab, now live, when it exists and null otherwise |
| Items.Scene.Instantiate | Assets/Scripts/Board/Item.cs:27 | a new, never-seen object, active, under the given parent, copying the prefab's scale, renderer and sorting order, with no tween |
| Items.Scene.Destroy | Assets/Scripts/Board/Item.cs:176 | the object is no longer live or active and its tween is gone |
| Items.Scene.SetActive | Assets/Scripts/Board/Item.cs:24 | sets the active flag; deactivating also kills the object's tween |
| Items.Pool.Get | Assets/Scripts/Board/Item.cs:18-28 | the instance ends active under the given parent. On a non-empty stack it is the most recently released instance, popped, and nothing else in the scene changes. On an empty stack it is a fresh instance copying the prefab's scale, renderer and sorting order, and the stack stays empty. A duplicate-free stack stays duplicate-free and no longer holds the instance handed out |
| Items.Pool.Release | Assets/Scripts/Board/Item.cs:29-34 | the instance becomes inactive and unparented, loses its tween and is pushed on top; the stack grows by exactly one and stays duplicate-free when the instance was not already pooled |
| Items.PoppedNotPooled | Assets/Scripts/Board/Item.cs:20-25 | on a stack without duplicates, the popped instance is no longer pooled (used by `Pool.Get`) |
| Items.Registry.ResolvePrefab | Assets/Scripts/Board/Item.cs:54-59 | a valid cache entry is used without loading; otherwise the prefab is loaded and cached only when found |
| Items.Registry.PoolFor | Assets/Scripts/Board/Item.cs:61-65 | the pool for a name is created empty on first use and never replaced |
| Items.Registry.TakeView | Assets/Scripts/Board/Item.cs:54-72 | the shared caches, pools and scene change as `Acquired` describes, field by field. When a fresh instance is made, the name's pool (new or existing) ends empty. A missing prefab adds no cache entry or pool and changes only the load log. Otherwise the view is the pool's top or a fresh instance copying the prefab; it becomes active, at the root, without a tween, and nothing else in the scene changes |
| Items.Item.constructor | Assets/Scripts/Board/Item.cs:38-42 | a new item has no cell, view, sprite or skin, and a null `_prefabKey` |
| Items.Item.Type | Assets/Scripts/Board/BonusItem.cs:23 | a bonus item's type is its pattern's name, which parses back to the pattern |
| Items.Item.IsSameType | Assets/Scripts/Board/BonusItem.cs:25-30 | true exactly when both items are bonus items with equal patterns; false for the base kind (Item.cs:145-148) |
| Items.IsSameTypeSymmetric | Assets/Scripts/Board/BonusItem.cs:25-30 | same-type is symmetric, reflexive on bonus items, false when either item is not a bonus item |
| Items.Item.SetType | Assets/Scripts/Board/BonusItem.cs:18-21 | only the pattern changes |
| Items.Item.SetCell | Assets/Scripts/Board/Item.cs:76-79 | only the cell changes |
| Items.Item.SetView | Assets/Scripts/Board/Item.cs:46-73 | no skin asset gives a null-reference outcome; a null or empty name, or a prefab that cannot be loaded, leaves view, cache and pools untouched; otherwise the view comes from the name's pool, with the whole new scene, cache and pool state as `Acquired` states it |
| Items.Item.AnimationMoveToPosition | Assets/Scripts/Board/Item.cs:81-105 | without a view or a cell nothing happens; otherwise the move replaces any earlier tween, whose completion is dropped |
| Items.Item.SetViewRoot | Assets/Scripts/Board/Item.cs:116-120 | re-parents the view, only when there is one |
| Items.Item.SetSortingLayerHigher | Assets/Scripts/Board/Item.cs:122-125 | sorting order 1, only when a sprite renderer is held |
| Items.Item.SetSortingLayerLower | Assets/Scripts/Board/Item.cs:127-130 | sorting order 0, only when a sprite renderer is held |
| Items.Item.ShowAppearAnimation | Assets/Scripts/Board/Item.cs:132-143 | with a view: scale 0.1 and a tween that replaces any earlier one; without: nothing |
| Items.Item.AnimateForHint | Assets/Scripts/Board/Item.cs:183-196 | with a view, a pulse replaces any earlier tween; without, nothing |
| Items.Item.StopAnimateForHint | Assets/Scripts/Board/Item.cs:198-204 | with a view, its tween is killed and its scale reset to 1; without, nothing |
| Items.Item.ExplodeView | Assets/Scripts/Board/BonusItem.cs:32-37 | a bonus item's pattern runs first, view or not; then, with a view, a shrink whose completion recycles this item replaces any earlier tween |
| Items.Recycled | Assets/Scripts/Board/Item.cs:162-181 | the scene after recycling a view: unit scale, sprite at order 0, no tween, no longer active; released means still live and at the root, destroyed means no longer live with its parent entry kept |
| Items.RecycledKeepsOthers | Assets/Scripts/Board/Item.cs:162-181 | recycling a view changes nothing about any other object, except the sorting order of the sprite renderer it holds |
| Items.RecycledIgnoresTween | Assets/Scripts/Board/Item.cs:154-157 | the tween the view had (killed first by `Clear`, or the shrink that `ExplodeView` started) does not affect the recycled scene |
| Items.Item.RecycleToPool | Assets/Scripts/Board/Item.cs:162-181 | without a view, nothing; otherwise the new scene is exactly `Recycled` of the old one, releasing when `_prefabKey` names a pool and destroying otherwise. Only that pool grows, by the view, and then there is no view and no sprite |
| Items.Item.Clear | Assets/Scripts/Board/Item.cs:206-215 | cell and view end up null. A view is recycled at once with its tween killed: the new scene is exactly `Recycled` of the old one and the pools change as in `RecycleToPool`. With no view nothing else changes, so a second `Clear` has no further effect |
| Items.CompleteShrink | Assets/Scripts/Board/Item.cs:156-157 | the completion of an explosion's shrink drops that tween and then recycles the owner's view; the new scene is exactly `Recycled` of the old one without the tween, and the pools change as in `RecycleToPool` |
| Items.ExplodeAndComplete | Assets/Scripts/Board/Item.cs:150-181 | with `_prefabKey` never assigned, the pattern detonates its targets, and an exploded view is destroyed once its shrink completes: the scene is exactly `Recycled` of the old one with destruction, and no pool changes. A null-reference outcome, or no view, leaves scene and pools as they were |
| Grids.WalkIsRun | Assets/Scripts/Board/BonusItem.cs:127-145 | on a rectangular board, a walk is the run of present adjacent cells up to the first absent one |
| Grids.HorizontalOnFullGrid | Assets/Scripts/Board/BonusItem.cs:123-145 | on a full board, a horizontal bonus takes every other cell of its row, `width - 1` cells, rightward run first |
| Grids.VerticalOnFullGrid | Assets/Scripts/Board/BonusItem.cs:92-114 | on a full board, a vertical bonus takes every other cell of its column, `height - 1` cells, upward run first |
| Grids.BombOnInteriorCell | Assets/Scripts/Board/BonusItem.cs:56-84 | on a full board, a bomb away from the edges takes its 8 surrounding cells in the code's order |
| Grids.BombBesideHole | Assets/Scripts/Board/BonusItem.cs:61-72 | with the left neighbour missing, a bomb skips the left column even where its cells are on the board |

## Left out

- Bonus patterns outside the four named members. `eItemType` (BonusItem.cs:16) is a C# enum field, so a cast can store any `int`. For such a value, `ActivateBonus`'s switch (BonusItem.cs:41-53) matches no case: nothing is detonated and nothing throws, as for `NONE`. `Type` is then the number's decimal text, which names no pattern. `Bonuses.BonusType` has only the four named members, so such values cannot be represented.
- `SetViewPosition` (Item.cs:107-114) and every position, scale and easing target of DOTween. These are floating-point vector math in a foreign library. A tween is an entry in the view's tween slot; only the scales the code sets directly (0.1 and 1) are modelled.
- The completion of tweens other than the explosion's shrink. Their end state (a scale or position reached) is vector math.
- Items.Item.SetView: models `View.DOKill(true)` as a kill that drops whatever tween the view carries. It does not run that tween's completion callback.
- Unity's overloaded `null` for destroyed objects is modelled only where the code tests it: a cache entry is valid while its prefab is live. An item does not notice that its view was destroyed elsewhere.
- Items.ExplodeAndComplete: requires `_prefabKey` to be null rather than deriving it. No method of the model can assign the field, but that frame fact is not carried between calls.
- `EditorUtility.SetDirty` in `ItemSkin`. It is an editor side effect with no effect on the dictionaries.
- Full `Enum.TryParse` semantics (numeric strings, case folding, surrounding whitespace, comma lists). Parsing is an exact match against the member names. `NormalItem.eNormalType` is not part of this model; its member names are a parameter of `ItemSkin` (`normalNames`).
- What `Cell.ExplodeItem` does to the occupant: the chain reaction into another bonus item's `ExplodeView`. `Cell` is not part of this model, and a detonation is an entry in the board's trace.
- The code that wires the neighbour links. Its effect is assumed as `Cells.WellWired`, and `Grids` builds rectangular examples of it.
- `NormalItem`'s overrides. `NormalItem` is not part of this model; such items have the `Plain` kind with `Item`'s own behaviour.
- `Assets/Scripts/Editor/ItemSkinEditor.cs` (inspector UI) and `Assets/Scripts/UI/UIPanelGame.cs` (button wiring), which hold no board logic.
- Loading of the skin asset. `Resources.Load<ItemSkin>` is a constant of the scene (`Scene.skinAsset`).
