/** `Item` (Assets/Scripts/Board/Item.cs): the visual life of a piece on the
    board. An item binds a view (a pooled instance of the prefab its skin
    names), animates it, and releases it when it explodes or is cleared.

    Unity objects are ids in a `Scene` with active, parent, scale and sorting
    flags; DOTween is one tween slot per view. The process-wide prefab cache
    and per-name pools (`s_prefabCache`, `s_pools`) are held by a `Registry`
    that every item shares. `BonusItem`'s overrides are the `Bonus` kind of
    `Item`. */
module Items {
  import opened Basics
  import opened Cells
  import opened Bonuses
  import opened Skins

  /** A Unity object: the asset `Resources.Load` finds under `name`, or the
      `serial`-th object instantiated at run time. A view's `GameObject` and
      its `Transform` are one object here. */
  datatype Obj = Asset(name: string) | Instance(serial: nat)

  /** The tween DOTween runs on a view, at most one at a time: the shrink of
      `ExplodeView`, whose completion runs `owner.RecycleToPool`, or any other
      (move, appear, hint pulse). No entry: no tween. */
  datatype Tween = PendingRecycle(owner: Item) | Playing

  /** A bonus item with its pattern, or any other item (a `NormalItem`, say),
      known by its type name, that keeps `Item`'s own `IsSameType` and
      `ExplodeView`. */
  datatype Kind = Plain(typeName: string) | Bonus(pattern: BonusType)

  /** How a call ended: normally, or with a `NullReferenceException`. */
  datatype Outcome = Completed | NullReference

  /** The parent map after `SetParent(go, p)`. */
  function Reparent(parents: map<Obj, Obj>, go: Obj, p: Option<Obj>): map<Obj, Obj> {
    match p
    case None => parents - {go}
    case Some(q) => parents[go := q]
  }

  /** The scene's state as a value, so that a method can state its whole
      effect on the scene at once. */
  datatype SceneState = SceneState(
    live: set<Obj>, active: set<Obj>, parent: map<Obj, Obj>, scale: map<Obj, real>,
    renderers: set<Obj>, sortingOrder: map<Obj, int>, tweens: map<Obj, Tween>,
    nextSerial: nat, prefabLoads: seq<string>)

  /** The scene after `RecycleToPool` of the view `go` holding the sprite
      renderer `sprite`: the view is back at unit scale and the sprite at
      sorting order 0; the view is then released (inactive and at the root)
      or destroyed, and either way loses its tween. Nothing else changes. */
  function Recycled(s: SceneState, go: Obj, sprite: Option<Obj>, released: bool): (r: SceneState)
    ensures go !in r.active && go !in r.tweens && go in r.scale && r.scale[go] == 1.0
    ensures sprite.Some? ==> sprite.value in r.sortingOrder && r.sortingOrder[sprite.value] == 0
    ensures released ==> r.live == s.live && go !in r.parent
    ensures !released ==> go !in r.live && r.parent == s.parent
    ensures r.renderers == s.renderers && r.nextSerial == s.nextSerial && r.prefabLoads == s.prefabLoads
  {
    var order := if sprite.Some? then s.sortingOrder[sprite.value := 0] else s.sortingOrder;
    var s1 := s.(scale := s.scale[go := 1.0], sortingOrder := order,
                 active := s.active - {go}, tweens := s.tweens - {go});
    if released then s1.(parent := s.parent - {go}) else s1.(live := s.live - {go})
  }

  /** Recycling a view leaves every other object as it was: alive or not,
      active or not, its parent, scale, sorting order and tween. */
  lemma RecycledKeepsOthers(s: SceneState, go: Obj, sprite: Option<Obj>, released: bool, o: Obj)
    requires o != go
    ensures var r := Recycled(s, go, sprite, released);
      && (o in r.live <==> o in s.live) && (o in r.active <==> o in s.active)
      && (o in r.parent <==> o in s.parent) && (o in r.parent ==> r.parent[o] == s.parent[o])
      && (o in r.scale <==> o in s.scale) && (o in r.scale ==> r.scale[o] == s.scale[o])
      && (o in r.tweens <==> o in s.tweens) && (o in r.tweens ==> r.tweens[o] == s.tweens[o])
      && (sprite != Some(o) ==>
            && (o in r.sortingOrder <==> o in s.sortingOrder)
            && (o in r.sortingOrder ==> r.sortingOrder[o] == s.sortingOrder[o]))
  {
  }

  /** Whatever tween the view had before, recycling ends with none: killing
      it first (as `Clear` does) or replacing it (as `ExplodeView` does)
      leads to the same scene. */
  lemma RecycledIgnoresTween(s: SceneState, go: Obj, sprite: Option<Obj>, released: bool, t: map<Obj, Tween>)
    requires t - {go} == s.tweens - {go}
    ensures Recycled(s.(tweens := t), go, sprite, released) == Recycled(s, go, sprite, released)
  {
  }

  /** The Unity engine as the items see it. */
  class Scene {
    /** objects not destroyed; an asset becomes live when it is loaded */
    var live: set<Obj>
    var active: set<Obj>
    /** the parent of each parented object; no entry: at the root */
    var parent: map<Obj, Obj>
    /** uniform local scale; no entry: 1 */
    var scale: map<Obj, real>
    /** objects that carry a `SpriteRenderer` */
    var renderers: set<Obj>
    var sortingOrder: map<Obj, int>
    var tweens: map<Obj, Tween>
    var nextSerial: nat
    /** every `Resources.Load` of a prefab, in call order */
    var prefabLoads: seq<string>
    /** the prefab names `Resources.Load` can find */
    const resources: set<string>
    /** what `Resources.Load<ItemSkin>(ItemSkin.ResourcePath)` gives */
    const skinAsset: ItemSkin?

    ghost predicate Valid()
      reads this`live, this`nextSerial
    {
      forall o :: o in live && o.Instance? ==> o.serial < nextSerial
    }

    constructor (resources: set<string>, prefabRenderers: set<string>, skinAsset: ItemSkin?)
      ensures Valid()
      ensures this.resources == resources && this.skinAsset == skinAsset
      ensures live == {} && active == {} && parent == map[] && scale == map[]
      ensures renderers == set n | n in prefabRenderers :: Asset(n)
      ensures sortingOrder == map[] && tweens == map[] && prefabLoads == []
    {
      this.resources := resources;
      this.skinAsset := skinAsset;
      live, active, parent, scale := {}, {}, map[], map[];
      renderers := set n | n in prefabRenderers :: Asset(n);
      sortingOrder, tweens, nextSerial, prefabLoads := map[], map[], 0, [];
    }

    function State(): SceneState
      reads this
    {
      SceneState(live, active, parent, scale, renderers, sortingOrder, tweens, nextSerial, prefabLoads)
    }

    function ScaleOf(o: Obj): real
      reads this
    {
      if o in scale then scale[o] else 1.0
    }

    /** `Resources.Load<GameObject>(name)`; null when no such prefab exists. */
    method LoadPrefab(name: string) returns (prefab: Option<Obj>)
      requires Valid()
      modifies this`live, this`prefabLoads
      ensures Valid()
      ensures prefabLoads == old(prefabLoads) + [name]
      ensures prefab == (if name in resources then Some(Asset(name)) else None)
      ensures live == (if name in resources then old(live) + {Asset(name)} else old(live))
    {
      prefabLoads := prefabLoads + [name];
      if name in resources {
        prefab := Some(Asset(name));
        live := live + {Asset(name)};
      } else {
        prefab := None;
      }
    }

    /** `Object.Instantiate(prefab, parent, false)`: a new active object that
        copies the prefab's scale, renderer and sorting order, with no tween. */
    method Instantiate(prefab: Obj, p: Option<Obj>) returns (go: Obj)
      requires Valid()
      modifies this`live, this`active, this`parent, this`scale, this`renderers,
               this`sortingOrder, this`tweens, this`nextSerial
      ensures Valid()
      ensures go == Instance(old(nextSerial)) && go !in old(live) && nextSerial == old(nextSerial) + 1
      ensures live == old(live) + {go} && active == old(active) + {go}
      ensures parent == Reparent(old(parent), go, p)
      ensures scale == old(scale)[go := old(ScaleOf(prefab))]
      ensures renderers == (if prefab in old(renderers) then old(renderers) + {go} else old(renderers) - {go})
      ensures sortingOrder == (if prefab in old(sortingOrder) then old(sortingOrder)[go := old(sortingOrder)[prefab]]
                               else old(sortingOrder) - {go})
      ensures tweens == old(tweens) - {go}
    {
      go := Instance(nextSerial);
      nextSerial := nextSerial + 1;
      live, active := live + {go}, active + {go};
      parent := Reparent(parent, go, p);
      scale := scale[go := ScaleOf(prefab)];
      renderers := if prefab in renderers then renderers + {go} else renderers - {go};
      sortingOrder := if prefab in sortingOrder then sortingOrder[go := sortingOrder[prefab]] else sortingOrder - {go};
      tweens := tweens - {go};
    }

    /** `Object.Destroy(go)`: the object is gone, and with it the tweens
        linked to it. */
    method Destroy(go: Obj)
      modifies this`live, this`active, this`tweens
      ensures live == old(live) - {go} && active == old(active) - {go}
      ensures tweens == old(tweens) - {go}
    {
      live, active, tweens := live - {go}, active - {go}, tweens - {go};
    }

    /** `go.SetActive(value)`; deactivating kills the tweens linked to `go`
        (`LinkBehaviour.KillOnDisable`). */
    method SetActive(go: Obj, value: bool)
      modifies this`active, this`tweens
      ensures active == (if value then old(active) + {go} else old(active) - {go})
      ensures tweens == (if value then old(tweens) else old(tweens) - {go})
    {
      if value {
        active := active + {go};
      } else {
        active := active - {go};
        tweens := tweens - {go};
      }
    }
  }

  /** `Item.Pool`: a LIFO stack of inactive instances of one prefab; the top
      is the last element. */
  class Pool {
    var stack: seq<Obj>

    constructor ()
      ensures stack == []
    {
      stack := [];
    }

    /** Pops the most recently released instance and reactivates it under `p`,
        or, on an empty stack, instantiates a fresh one. */
    method Get(scene: Scene, prefab: Obj, p: Option<Obj>) returns (go: Obj)
      requires scene.Valid()
      modifies this, scene`live, scene`active, scene`parent, scene`scale, scene`renderers,
               scene`sortingOrder, scene`tweens, scene`nextSerial
      ensures scene.Valid()
      ensures scene.active == old(scene.active) + {go} && scene.parent == Reparent(old(scene.parent), go, p)
      ensures Distinct(old(stack)) ==> Distinct(stack) && go !in stack
      ensures old(stack) != [] ==>
        && go == old(stack)[|old(stack)| - 1]
        && stack == old(stack)[..|old(stack)| - 1]
        && scene.live == old(scene.live) && scene.nextSerial == old(scene.nextSerial)
        && scene.tweens == old(scene.tweens) && scene.scale == old(scene.scale)
        && scene.renderers == old(scene.renderers) && scene.sortingOrder == old(scene.sortingOrder)
      ensures old(stack) == [] ==>
        && stack == []
        && go == Instance(old(scene.nextSerial)) && go !in old(scene.live)
        && scene.nextSerial == old(scene.nextSerial) + 1
        && scene.live == old(scene.live) + {go}
        && scene.scale == old(scene.scale)[go := old(scene.ScaleOf(prefab))]
        && scene.renderers == (if prefab in old(scene.renderers) then old(scene.renderers) + {go}
                               else old(scene.renderers) - {go})
        && scene.sortingOrder == (if prefab in old(scene.sortingOrder)
                                  then old(scene.sortingOrder)[go := old(scene.sortingOrder)[prefab]]
                                  else old(scene.sortingOrder) - {go})
        && scene.tweens == old(scene.tweens) - {go}
    {
      if |stack| > 0 {
        if Distinct(stack) {
          PoppedNotPooled(stack);
        }
        go := stack[|stack| - 1];
        stack := stack[..|stack| - 1];
        scene.parent := Reparent(scene.parent, go, p);
        scene.SetActive(go, true);
        return;
      }
      go := scene.Instantiate(prefab, p);
    }

    /** Deactivates `go`, unparents it and pushes it on top. */
    method Release(scene: Scene, go: Obj)
      modifies this, scene`active, scene`parent, scene`tweens
      ensures stack == old(stack) + [go]
      ensures Distinct(old(stack)) && go !in old(stack) ==> Distinct(stack)
      ensures scene.active == old(scene.active) - {go} && scene.parent == old(scene.parent) - {go}
      ensures scene.tweens == old(scene.tweens) - {go}
    {
      scene.SetActive(go, false);
      scene.parent := Reparent(scene.parent, go, None);
      if Distinct(stack) && go !in stack {
        DistinctAppend(stack, [go]);
      }
      stack := stack + [go];
    }
  }

  /** A popped instance is no longer on the stack: as long as the stack holds
      no instance twice, `Get` never hands out an instance that is still
      pooled, and so never the same one twice before it is released. */
  lemma PoppedNotPooled(stack: seq<Obj>)
    requires stack != [] && Distinct(stack)
    ensures stack[|stack| - 1] !in stack[..|stack| - 1]
  {
    var rest := stack[..|stack| - 1];
    forall i | 0 <= i < |rest|
      ensures rest[i] != stack[|stack| - 1]
    {
      assert rest[i] == stack[i];
    }
  }

  /** `s_prefabCache` and `s_pools`, shared by all items. */
  class Registry {
    var prefabCache: map<string, Obj>
    var pools: map<string, Pool>

    /** No pool serves two names. */
    ghost predicate Valid()
      reads this
    {
      forall a, b :: a in pools && b in pools && a != b ==> pools[a] != pools[b]
    }

    constructor ()
      ensures Valid() && prefabCache == map[] && pools == map[]
    {
      prefabCache, pools := map[], map[];
    }

    /** The cache entry for `name` exists and still refers to a live prefab. */
    predicate CacheHit(scene: Scene, name: string)
      reads this, scene
    {
      name in prefabCache && prefabCache[name] in scene.live
    }

    /** The prefab lookup of `SetView`: a valid cache entry is used as it is;
        otherwise the prefab is loaded and, when found, cached. */
    method ResolvePrefab(scene: Scene, name: string) returns (prefab: Option<Obj>)
      requires scene.Valid()
      modifies this`prefabCache, scene`live, scene`prefabLoads
      ensures scene.Valid()
      ensures old(CacheHit(scene, name)) ==>
        && prefab == Some(old(prefabCache[name]))
        && prefabCache == old(prefabCache)
        && scene.live == old(scene.live) && scene.prefabLoads == old(scene.prefabLoads)
      ensures !old(CacheHit(scene, name)) ==> scene.prefabLoads == old(scene.prefabLoads) + [name]
      ensures !old(CacheHit(scene, name)) && name in scene.resources ==>
        && prefab == Some(Asset(name))
        && prefabCache == old(prefabCache)[name := Asset(name)]
        && scene.live == old(scene.live) + {Asset(name)}
      ensures !old(CacheHit(scene, name)) && name !in scene.resources ==>
        prefab == None && prefabCache == old(prefabCache) && scene.live == old(scene.live)
    {
      if CacheHit(scene, name) {
        return Some(prefabCache[name]);
      }
      prefab := scene.LoadPrefab(name);
      if prefab.Some? {
        prefabCache := prefabCache[name := prefab.value];
      }
    }

    /** The pool for `name`, created empty on first use. */
    method PoolFor(name: string) returns (pool: Pool)
      requires Valid()
      modifies this`pools
      ensures Valid()
      ensures name in pools && pool == pools[name]
      ensures name in old(pools) ==> pools == old(pools)
      ensures name !in old(pools) ==> pools == old(pools)[name := pool] && fresh(pool) && pool.stack == []
    {
      if name in pools {
        return pools[name];
      }
      pool := new Pool();
      pools := pools[name := pool];
    }
    /** The part of `SetView` that works on the shared state: resolve the
        prefab for `name`, take an instance from that name's pool and kill
        any tween it still carries. */
    method TakeView(scene: Scene, name: string) returns (go: Option<Obj>)
      requires scene.Valid() && Valid()
      modifies this`prefabCache, this`pools, pools.Values, scene`live, scene`active,
               scene`parent, scene`scale, scene`renderers, scene`sortingOrder, scene`tweens,
               scene`nextSerial, scene`prefabLoads
      ensures scene.Valid() && Valid()
      ensures Acquired(scene, this, name, go)
    {
      var prefab := ResolvePrefab(scene, name);
      if prefab.None? {
        return None;
      }
      var pool := PoolFor(name);
      var obj := pool.Get(scene, prefab.value, None);
      // View.DOKill(true)
      scene.tweens := scene.tweens - {obj};
      go := Some(obj);
    }
  }

  /** What taking a view for prefab `name` does to the scene and the shared
      caches and pools, `go` being the view obtained. A valid cache entry is
      used as it is, otherwise the prefab is loaded; when it cannot be found,
      no view is obtained and no cache entry or pool is made. Otherwise the
      name's pool is created once, on first use, and the view is its most
      recently released instance or else a fresh one, active, at the root
      and without a tween. */
  twostate predicate Acquired(scene: Scene, registry: Registry, name: string, new go: Option<Obj>)
    reads scene, registry, registry.pools.Values
  {
    var hit := old(registry.CacheHit(scene, name));
    var found := hit || name in scene.resources;
    var prefab := if hit then old(registry.prefabCache[name]) else Asset(name);
    var popped := name in old(registry.pools) && old(registry.pools[name].stack) != [];
    && (hit ==> scene.prefabLoads == old(scene.prefabLoads) && registry.prefabCache == old(registry.prefabCache))
    && (!hit ==> scene.prefabLoads == old(scene.prefabLoads) + [name])
    && (!hit && found ==> registry.prefabCache == old(registry.prefabCache)[name := Asset(name)])
    && (!found ==>
          && go == None && registry.prefabCache == old(registry.prefabCache)
          && registry.pools == old(registry.pools)
          && (forall n :: n in registry.pools ==> registry.pools[n].stack == old(registry.pools[n].stack))
          && scene.live == old(scene.live) && scene.active == old(scene.active)
          && scene.parent == old(scene.parent) && scene.scale == old(scene.scale)
          && scene.renderers == old(scene.renderers) && scene.sortingOrder == old(scene.sortingOrder)
          && scene.tweens == old(scene.tweens) && scene.nextSerial == old(scene.nextSerial))
    && (found ==>
          && go.Some?
          && scene.active == old(scene.active) + {go.value}
          && scene.parent == old(scene.parent) - {go.value}
          && scene.tweens == old(scene.tweens) - {go.value}
          && scene.live == old(scene.live) + (if hit then {} else {Asset(name)})
                                           + (if popped then {} else {go.value})
          && (popped ==>
                && scene.scale == old(scene.scale) && scene.renderers == old(scene.renderers)
                && scene.sortingOrder == old(scene.sortingOrder) && scene.nextSerial == old(scene.nextSerial))
          && (!popped ==>
                && go.value == Instance(old(scene.nextSerial))
                && scene.scale == old(scene.scale)[go.value := old(scene.ScaleOf(prefab))]
                && scene.renderers == (if prefab in old(scene.renderers) then old(scene.renderers) + {go.value}
                                       else old(scene.renderers) - {go.value})
                && scene.sortingOrder == (if prefab in old(scene.sortingOrder)
                                          then old(scene.sortingOrder)[go.value := old(scene.sortingOrder)[prefab]]
                                          else old(scene.sortingOrder) - {go.value}))
          && name in registry.pools
          && (name in old(registry.pools) ==> registry.pools == old(registry.pools))
          && (name !in old(registry.pools) ==>
                && registry.pools == old(registry.pools)[name := registry.pools[name]]
                && fresh(registry.pools[name]) && registry.pools[name].stack == [])
          && (forall n :: n in old(registry.pools) && n != name ==>
                registry.pools[n].stack == old(registry.pools[n].stack))
          && (name in old(registry.pools) && old(registry.pools[name].stack) != [] ==>
                var s := old(registry.pools[name].stack);
                go.value == s[|s| - 1] && registry.pools[name].stack == s[..|s| - 1])
          && (!popped ==>
                && go.value !in old(scene.live) && scene.nextSerial == old(scene.nextSerial) + 1
                && registry.pools[name].stack == []))
  }

  class Item {
    const scene: Scene
    const registry: Registry
    var kind: Kind
    var cell: Option<Cell>
    var view: Option<Obj>
    var sprite: Option<Obj>
    /** Declared in the source but assigned nowhere: no method's frame
        includes it, so it stays null. */
    var prefabKey: Text
    var itemSkin: ItemSkin?

    constructor (scene: Scene, registry: Registry, kind: Kind)
      ensures this.scene == scene && this.registry == registry && this.kind == kind
      ensures cell == None && view == None && sprite == None && itemSkin == null
      ensures prefabKey == None
    {
      this.scene, this.registry, this.kind := scene, registry, kind;
      cell, view, sprite, prefabKey, itemSkin := None, None, None, None, null;
    }

    /** `Type`: for a bonus item the name of its pattern, which parses back
        to that pattern. */
    function Type(): (r: string)
      reads this`kind
      ensures kind.Bonus? ==> ParseBonus(r) == Some(kind.pattern)
      ensures kind.Plain? ==> r == kind.typeName
    {
      match kind
      case Plain(name) => name
      case Bonus(p) => BonusName(p)
    }

    /** `IsSameType`: false for an item of the base kind; for a bonus item,
        true exactly when `other` is a bonus item with the same pattern. */
    function IsSameType(other: Item): (r: bool)
      reads this`kind, other`kind
      ensures r <==> kind.Bonus? && other.kind == kind
    {
      match kind
      case Plain(_) => false
      case Bonus(p) => other.kind.Bonus? && other.kind.pattern == p
    }

    /** `BonusItem.SetType`: only the pattern changes. */
    method SetType(t: BonusType)
      requires kind.Bonus?
      modifies this`kind
      ensures kind == Bonus(t)
    {
      kind := Bonus(t);
    }

    method SetCell(c: Option<Cell>)
      modifies this`cell
      ensures cell == c
    {
      cell := c;
    }

    /** The skin `SetView` uses: the item's own, or else the one loaded from
        the resources. */
    function SkinInUse(): ItemSkin?
      reads this`itemSkin
    {
      if itemSkin == null then scene.skinAsset else itemSkin
    }

    /** `SetView`: look the prefab name up in the skin (loaded on first use)
        and take a view for it from the shared caches and pools. A missing
        skin asset throws; a missing name or prefab leaves the view, the
        caches and the pools as they were. */
    method SetView() returns (outcome: Outcome)
      requires scene.Valid() && registry.Valid()
      modifies this`itemSkin, this`view, this`sprite, scene`live, scene`active, scene`parent,
               scene`scale, scene`renderers, scene`sortingOrder, scene`tweens, scene`nextSerial,
               scene`prefabLoads, registry`prefabCache, registry`pools, registry.pools.Values
      ensures scene.Valid() && registry.Valid()
      ensures itemSkin == old(SkinInUse())
      ensures outcome == NullReference <==> itemSkin == null
      ensures outcome == NullReference || IsNullOrEmpty(old(SkinInUse().GetPrefabName(Type()))) ==>
        && view == old(view) && sprite == old(sprite)
        && unchanged(scene) && unchanged(registry) && unchanged(old(registry.pools.Values))
      ensures outcome == Completed && !IsNullOrEmpty(old(SkinInUse().GetPrefabName(Type()))) ==>
        var name := old(SkinInUse().GetPrefabName(Type())).value;
        || (view == old(view) && sprite == old(sprite) && Acquired(scene, registry, name, None))
        || (&& view.Some? && Acquired(scene, registry, name, view)
            && sprite == (if view.value in scene.renderers then view else None))
    {
      var skin := SkinInUse();
      if skin == null {
        return NullReference;
      }
      outcome := Completed;
      var prefabName := skin.GetPrefabName(Type());
      if IsNullOrEmpty(prefabName) {
        itemSkin := skin;
        return;
      }
      var go := registry.TakeView(scene, prefabName.value);
      itemSkin := skin;
      if go.Some? {
        view := go;
        sprite := if go.value in scene.renderers then go else None;
      }
    }

    /** `AnimationMoveToPosition`: with a view and a cell, replaces whatever
        tween the view had, without completing it, by a move. */
    method AnimationMoveToPosition()
      modifies scene`tweens
      ensures view.None? || cell.None? ==> scene.tweens == old(scene.tweens)
      ensures view.Some? && cell.Some? ==> scene.tweens == old(scene.tweens)[view.value := Playing]
    {
      if view.None? || cell.None? {
        return;
      }
      scene.tweens := scene.tweens[view.value := Playing];
    }

    method SetViewRoot(root: Option<Obj>)
      modifies scene`parent
      ensures view.None? ==> scene.parent == old(scene.parent)
      ensures view.Some? ==> scene.parent == Reparent(old(scene.parent), view.value, root)
    {
      if view.None? {
        return;
      }
      scene.parent := Reparent(scene.parent, view.value, root);
    }

    /** Front tier: only when a sprite renderer is held. */
    method SetSortingLayerHigher()
      modifies scene`sortingOrder
      ensures sprite.None? ==> scene.sortingOrder == old(scene.sortingOrder)
      ensures sprite.Some? ==> scene.sortingOrder == old(scene.sortingOrder)[sprite.value := 1]
    {
      if sprite.Some? {
        scene.sortingOrder := scene.sortingOrder[sprite.value := 1];
      }
    }

    /** Back tier: only when a sprite renderer is held. */
    method SetSortingLayerLower()
      modifies scene`sortingOrder
      ensures sprite.None? ==> scene.sortingOrder == old(scene.sortingOrder)
      ensures sprite.Some? ==> scene.sortingOrder == old(scene.sortingOrder)[sprite.value := 0]
    {
      if sprite.Some? {
        scene.sortingOrder := scene.sortingOrder[sprite.value := 0];
      }
    }

    /** `ShowAppearAnimation`: the view drops to scale 0.1 and a pop-in tween
        replaces any earlier one. */
    method ShowAppearAnimation()
      modifies scene`tweens, scene`scale
      ensures view.None? ==> scene.tweens == old(scene.tweens) && scene.scale == old(scene.scale)
      ensures view.Some? ==>
        && scene.tweens == old(scene.tweens)[view.value := Playing]
        && scene.scale == old(scene.scale)[view.value := 0.1]
    {
      if view.None? {
        return;
      }
      scene.tweens := scene.tweens[view.value := Playing];
      scene.scale := scene.scale[view.value := 0.1];
    }

    /** `AnimateForHint`: a looping pulse replaces any earlier tween. */
    method AnimateForHint()
      modifies scene`tweens
      ensures view.None? ==> scene.tweens == old(scene.tweens)
      ensures view.Some? ==> scene.tweens == old(scene.tweens)[view.value := Playing]
    {
      if view.None? {
        return;
      }
      scene.tweens := scene.tweens[view.value := Playing];
    }

    /** `StopAnimateForHint`: kills the view's tween and restores unit scale. */
    method StopAnimateForHint()
      modifies scene`tweens, scene`scale
      ensures view.None? ==> scene.tweens == old(scene.tweens) && scene.scale == old(scene.scale)
      ensures view.Some? ==>
        && scene.tweens == old(scene.tweens) - {view.value}
        && scene.scale == old(scene.scale)[view.value := 1.0]
    {
      if view.None? {
        return;
      }
      scene.tweens := scene.tweens - {view.value};
      scene.scale := scene.scale[view.value := 1.0];
    }

    /** `ExplodeView`. A bonus item first runs its pattern (`ActivateBonus`),
        whether or not it has a view; a pattern other than `NONE` on an item
        without a cell throws before anything else happens. Then, with a
        view, any earlier tween is killed and the shrink starts, whose
        completion recycles this item's view. */
    method ExplodeView(board: Board) returns (outcome: Outcome)
      modifies board`detonated, scene`tweens
      ensures outcome == NullReference <==> kind.Bonus? && kind.pattern != NONE && cell.None?
      ensures board.detonated == old(board.detonated) +
        (if kind.Bonus? && cell.Some? then PatternTargets(board.wiring, kind.pattern, cell.value) else [])
      ensures outcome == NullReference || view.None? ==> scene.tweens == old(scene.tweens)
      ensures outcome == Completed && view.Some? ==>
        scene.tweens == old(scene.tweens)[view.value := PendingRecycle(this)]
    {
      if kind.Bonus? {
        var ok := ActivateBonus(board, kind.pattern, cell);
        if !ok {
          return NullReference;
        }
      }
      outcome := Completed;
      if view.None? {
        return;
      }
      scene.tweens := scene.tweens[view.value := PendingRecycle(this)];
    }

    /** The release branch of `RecycleToPool`: taken only with a non-empty
        `prefabKey` that names a pool. */
    predicate ReleasesToPool()
      reads this, registry
    {
      prefabKey.Some? && prefabKey.value != "" && prefabKey.value in registry.pools
    }

    /** `RecycleToPool`: without a view, nothing. Otherwise the view goes back
        to unit scale and sorting order 0, is released to its pool or else
        destroyed, and the item drops its view and sprite. */
    method RecycleToPool()
      requires scene.Valid() && registry.Valid()
      modifies this`view, this`sprite, scene`live, scene`active, scene`parent, scene`scale,
               scene`sortingOrder, scene`tweens, registry.pools.Values
      ensures scene.Valid()
      ensures view == None
      ensures old(view).None? ==>
        sprite == old(sprite) && unchanged(scene) && unchanged(registry.pools.Values)
      ensures old(view).Some? ==>
        var go := old(view).value;
        && sprite == None
        && scene.State() == Recycled(old(scene.State()), go, old(sprite), ReleasesToPool())
        && (!ReleasesToPool() ==> unchanged(registry.pools.Values))
        && (ReleasesToPool() ==>
              && registry.pools[prefabKey.value].stack == old(registry.pools[prefabKey.value].stack) + [go]
              && forall n :: n in registry.pools && n != prefabKey.value ==>
                   registry.pools[n].stack == old(registry.pools[n].stack))
    {
      if view.None? {
        return;
      }
      var go := view.value;
      scene.scale := scene.scale[go := 1.0];
      if sprite.Some? {
        scene.sortingOrder := scene.sortingOrder[sprite.value := 0];
      }
      if ReleasesToPool() {
        var pool := registry.pools[prefabKey.value];
        pool.Release(scene, go);
      } else {
        scene.Destroy(go);
      }
      view := None;
      sprite := None;
    }

    /** `Clear`: the item leaves its cell, and a view it still has is
        recycled at once, its tween killed without completion. */
    method Clear()
      requires scene.Valid() && registry.Valid()
      modifies this`cell, this`view, this`sprite, scene`live, scene`active, scene`parent,
               scene`scale, scene`sortingOrder, scene`tweens, registry.pools.Values
      ensures scene.Valid()
      ensures cell == None && view == None
      ensures old(view).None? ==>
        sprite == old(sprite) && unchanged(scene) && unchanged(registry.pools.Values)
      ensures old(view).Some? ==>
        var go := old(view).value;
        && sprite == None
        && scene.State() == Recycled(old(scene.State()), go, old(sprite), ReleasesToPool())
        && (!ReleasesToPool() ==> unchanged(registry.pools.Values))
        && (ReleasesToPool() ==>
              && registry.pools[prefabKey.value].stack == old(registry.pools[prefabKey.value].stack) + [go]
              && forall n :: n in registry.pools && n != prefabKey.value ==>
                   registry.pools[n].stack == old(registry.pools[n].stack))
    {
      cell := None;
      if view.Some? {
        ghost var before := scene.State();
        scene.tweens := scene.tweens - {view.value};
        RecycledIgnoresTween(before, view.value, sprite, ReleasesToPool(), scene.tweens);
        RecycleToPool();
      }
    }
  }

  /** DOTween finishing the shrink that `ExplodeView` started on `o`: the
      tween leaves the slot and its callback, the starting item's
      `RecycleToPool`, runs. */
  method CompleteShrink(item: Item, o: Obj)
    requires item.scene.Valid() && item.registry.Valid()
    requires o in item.scene.tweens && item.scene.tweens[o] == PendingRecycle(item)
    modifies item`view, item`sprite, item.scene`live, item.scene`active, item.scene`parent,
             item.scene`scale, item.scene`sortingOrder, item.scene`tweens, item.registry.pools.Values
    ensures item.view == None && o !in item.scene.tweens
    ensures old(item.view).None? ==>
      && item.sprite == old(item.sprite) && unchanged(item.registry.pools.Values)
      && item.scene.State() == old(item.scene.State()).(tweens := old(item.scene.tweens) - {o})
    ensures old(item.view).Some? ==>
      var go := old(item.view).value;
      && item.sprite == None
      && item.scene.State() ==
           Recycled(old(item.scene.State()).(tweens := old(item.scene.tweens) - {o}), go, old(item.sprite),
                    item.ReleasesToPool())
      && (!item.ReleasesToPool() ==> unchanged(item.registry.pools.Values))
      && (item.ReleasesToPool() ==>
            var key := item.prefabKey.value;
            && item.registry.pools[key].stack == old(item.registry.pools[key].stack) + [go]
            && forall n :: n in item.registry.pools && n != key ==>
                 item.registry.pools[n].stack == old(item.registry.pools[n].stack))
  {
    item.scene.tweens := item.scene.tweens - {o};
    item.RecycleToPool();
  }

  /** `IsSameType` is symmetric among all items, reflexive on bonus items and
      false whenever either side is not a bonus item. */
  lemma IsSameTypeSymmetric(a: Item, b: Item)
    ensures a.IsSameType(b) == b.IsSameType(a)
    ensures a.kind.Bonus? ==> a.IsSameType(a)
    ensures !a.kind.Bonus? || !b.kind.Bonus? ==> !a.IsSameType(b)
  {
  }

  /** An item whose `prefabKey` was never assigned (as no item's is) is
      exploded and its shrink runs to completion: its view is destroyed,
      never pooled, and every pool keeps its contents. */
  method ExplodeAndComplete(item: Item, board: Board) returns (outcome: Outcome)
    requires item.scene.Valid() && item.registry.Valid()
    requires item.prefabKey == None
    modifies item`view, item`sprite, item.scene`live, item.scene`active, item.scene`parent,
             item.scene`scale, item.scene`sortingOrder, item.scene`tweens,
             item.registry.pools.Values, board`detonated
    ensures outcome == NullReference <==> item.kind.Bonus? && item.kind.pattern != NONE && item.cell.None?
    ensures board.detonated == old(board.detonated) +
      (if item.kind.Bonus? && item.cell.Some? then PatternTargets(board.wiring, item.kind.pattern, item.cell.value)
       else [])
    ensures outcome == Completed ==> item.view == None
    ensures outcome == NullReference || old(item.view).None? ==>
      && item.view == old(item.view) && item.sprite == old(item.sprite)
      && item.scene.State() == old(item.scene.State()) && unchanged(item.registry.pools.Values)
    ensures outcome == Completed && old(item.view).Some? ==>
      && item.scene.State() == Recycled(old(item.scene.State()), old(item.view).value, old(item.sprite), false)
      && item.sprite == None && unchanged(item.registry.pools.Values)
  {
    ghost var before := item.scene.State();
    outcome := item.ExplodeView(board);
    if outcome == Completed && item.view.Some? {
      RecycledIgnoresTween(before, item.view.value, item.sprite, false,
                           item.scene.tweens - {item.view.value});
      CompleteShrink(item, item.view.value);
    }
  }
}
