/** The typed asset store: a map from names to type-erased assets. An asset
    remembers the type it was built from; reading it back as another type
    fails. Types are named by a tag, and stored values by an opaque handle. */
module AssetManager {
  import opened Common

  /** The `std::type_info` of a stored value, by name. */
  type TypeTag = string

  /** `typeid(void)`, the type of an empty asset. */
  const VoidType: TypeTag := "void"

  /** An asset: its type and a pointer to its value (`None` for null). */
  datatype Asset = Asset(tag: TypeTag, value: Option<nat>)

  /** `Asset()`: the empty asset, of type `void` with a null value. */
  const EmptyAsset := Asset(VoidType, None)

  /** An asset built from a value of type `tag` (`Asset(T&&)`, `Asset::Make`). */
  function Make(tag: TypeTag, value: nat): (a: Asset)
    ensures a.tag == tag && a.value == Some(value)
  {
    Asset(tag, Some(value))
  }

  /** What a typed read gives: the pointer, or a thrown `std::bad_cast`. */
  datatype Read = Pointer(ptr: Option<nat>) | BadCast

  /** `Asset::Get<T>()`: the stored pointer when `T` is the stored type,
      otherwise it throws. */
  function AssetGet(a: Asset, tag: TypeTag): (r: Read)
    ensures r.BadCast? <==> tag != a.tag
    ensures r.Pointer? ==> r.ptr == a.value
  {
    if tag == a.tag then Pointer(a.value) else BadCast
  }

  /** `emplace(name, asset)`: inserts only when the name is free. */
  function Inserted(assets: map<string, Asset>, name: string, asset: Asset): (r: map<string, Asset>)
    ensures name in r
    ensures name in assets ==> r == assets
    ensures name !in assets ==> r[name] == asset && r.Keys == assets.Keys + {name}
    ensures forall n :: n in assets ==> n in r && r[n] == assets[n]
  {
    if name in assets then assets else assets[name := asset]
  }

  /** `insert_or_assign(name, asset)`: the name maps to the asset either way. */
  function Assigned(assets: map<string, Asset>, name: string, asset: Asset): (r: map<string, Asset>)
    ensures name in r && r[name] == asset
    ensures r.Keys == assets.Keys + {name}
    ensures forall n :: n in assets && n != name ==> r[n] == assets[n]
  {
    assets[name := asset]
  }

  /** `erase(find(name))` when found: only that name goes. */
  function Erased(assets: map<string, Asset>, name: string): (r: map<string, Asset>)
    ensures name !in r
    ensures r.Keys == assets.Keys - {name}
    ensures forall n :: n in r ==> r[n] == assets[n]
  {
    map n | n in assets && n != name :: assets[n]
  }

  /** `Get<T>(name)` as written: null for an absent name, the pointer when
      the type matches, and the asset's own `bad_cast` on a mismatch. */
  function GetAsWritten(assets: map<string, Asset>, name: string, tag: TypeTag): (r: Read)
    ensures name !in assets ==> r == Pointer(None)
    ensures name in assets ==> r == AssetGet(assets[name], tag)
  {
    if name in assets then AssetGet(assets[name], tag) else Pointer(None)
  }

  /** `Get<T>(name)` as documented: null when the name is absent or the
      stored type differs, never a throw. */
  function GetOrNull(assets: map<string, Asset>, name: string, tag: TypeTag): (r: Option<nat>)
    ensures r.Some? ==> name in assets && assets[name].tag == tag && assets[name].value == r
  {
    if name in assets && assets[name].tag == tag then assets[name].value else None
  }

  /** The two readings agree except on a type mismatch, where the source
      throws and its documentation promises null. */
  lemma GetAgreesUnlessMismatch(assets: map<string, Asset>, name: string, tag: TypeTag)
    ensures GetAsWritten(assets, name, tag).BadCast?
        <==> name in assets && assets[name].tag != tag
    ensures GetAsWritten(assets, name, tag).Pointer?
        ==> GetAsWritten(assets, name, tag).ptr == GetOrNull(assets, name, tag)
  {
  }

  /** An integer asset read back as a float throws instead of giving null. */
  lemma GetMismatchCounterexample()
    ensures GetAsWritten(map["hp" := Make("int", 7)], "hp", "float") == BadCast
    ensures GetOrNull(map["hp" := Make("int", 7)], "hp", "float") == None
  {
  }

  /** Reading back what `Add` stored under a free name gives its value. */
  lemma AddThenGet(assets: map<string, Asset>, name: string, tag: TypeTag, value: nat)
    requires name !in assets
    ensures GetAsWritten(Inserted(assets, name, Make(tag, value)), name, tag) == Pointer(Some(value))
    ensures GetOrNull(Inserted(assets, name, Make(tag, value)), name, tag) == Some(value)
  {
  }

  /** Adding under a taken name twice is the same as once, and replacing
      twice keeps only the last asset. */
  lemma InsertIdempotentAssignLastWins(assets: map<string, Asset>, name: string, a: Asset, b: Asset)
    ensures Inserted(Inserted(assets, name, a), name, b) == Inserted(assets, name, a)
    ensures Assigned(Assigned(assets, name, a), name, b) == Assigned(assets, name, b)
  {
  }

  /** Sizes: an insertion grows the store by one exactly when the name was
      free, a removal shrinks it by one exactly when the name was present. */
  lemma SizeChanges(assets: map<string, Asset>, name: string, a: Asset)
    ensures |Inserted(assets, name, a)| == if name in assets then |assets| else |assets| + 1
    ensures |Assigned(assets, name, a)| == if name in assets then |assets| else |assets| + 1
    ensures |Erased(assets, name)| == if name in assets then |assets| - 1 else |assets|
  {
    if name in assets {
      assert Assigned(assets, name, a).Keys == assets.Keys;
      assert assets.Keys == Erased(assets, name).Keys + {name};
    } else {
      assert Erased(assets, name).Keys == assets.Keys;
    }
  }

  /** Removing what was just added under a free name restores the store. */
  lemma AddThenRemove(assets: map<string, Asset>, name: string, a: Asset)
    requires name !in assets
    ensures Erased(Inserted(assets, name, a), name) == assets
  {
  }

  class AssetManager {
    var assets: map<string, Asset>

    constructor ()
      ensures assets == map[]
    {
      assets := map[];
    }

    /** `Add(name, …)`: returns the asset stored under the name and whether
        the new one was inserted; an existing asset is kept. */
    method Add(name: string, asset: Asset) returns (stored: Asset, inserted: bool)
      modifies this
      ensures assets == Inserted(old(assets), name, asset)
      ensures inserted <==> name !in old(assets)
      ensures stored == assets[name]
    {
      inserted := name !in assets;
      assets := Inserted(assets, name, asset);
      stored := assets[name];
    }

    /** `AddOrReplace(name, …)`: returns the stored asset and whether the name
        was new. */
    method AddOrReplace(name: string, asset: Asset) returns (stored: Asset, inserted: bool)
      modifies this
      ensures assets == Assigned(old(assets), name, asset)
      ensures inserted <==> name !in old(assets)
      ensures stored == asset
    {
      inserted := name !in assets;
      assets := Assigned(assets, name, asset);
      stored := assets[name];
    }

    /** `Remove(name)`: erases the name if present. */
    method Remove(name: string)
      modifies this
      ensures assets == Erased(old(assets), name)
      ensures name !in old(assets) ==> assets == old(assets)
    {
      if name in assets {
        assets := Erased(assets, name);
      }
    }

    /** `Reserve(size)`: changes capacity only, never the contents. */
    method Reserve(size: nat)
      modifies this
      ensures assets == old(assets)
    {
    }

    function GetSize(): (n: nat)
      reads this
      ensures n == |assets.Keys|
    {
      |assets|
    }

    /** `GetType(name)`: null exactly when the name is absent. */
    function GetType(name: string): (r: Option<TypeTag>)
      reads this
      ensures r.None? <==> name !in assets
      ensures r.Some? ==> r.value == assets[name].tag
    {
      if name in assets then Some(assets[name].tag) else None
    }

    /** `Get(name)` for the asset itself: null exactly when absent. */
    function GetAsset(name: string): (r: Option<Asset>)
      reads this
      ensures r.None? <==> name !in assets
      ensures r.Some? ==> r.value == assets[name]
    {
      if name in assets then Some(assets[name]) else None
    }

    /** `Get<T>(name)` as written. */
    function Get(name: string, tag: TypeTag): (r: Read)
      reads this
      ensures r == GetAsWritten(assets, name, tag)
      ensures r.BadCast? ==> GetType(name).Some? && GetType(name).value != tag
    {
      GetAsWritten(assets, name, tag)
    }

    /** `operator[](name)`: the stored asset, inserting an empty one for an
        absent name. */
    method Index(name: string) returns (asset: Asset)
      modifies this
      ensures assets == Inserted(old(assets), name, EmptyAsset)
      ensures asset == assets[name]
      ensures name !in old(assets) ==> asset == EmptyAsset && |assets| == |old(assets)| + 1
    {
      if name in assets {
        return assets[name];
      }
      SizeChanges(assets, name, EmptyAsset);
      assets := Inserted(assets, name, EmptyAsset);
      asset := assets[name];
    }
  }
}
