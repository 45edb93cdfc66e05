/** `ItemSkin` (Assets/Scripts/Board/ItemSkin.cs): the table from item type to
    prefab name. Two dictionaries, one keyed by the normal item types and one
    by the bonus types, edited through guarded add/update and remove, read
    by a lookup on the type's name, and flattened into parallel key/value
    lists for Unity's serialiser and rebuilt from them. */
module Skins {
  import opened Basics
  import opened Bonuses

  /** A C# `string` reference: `None` is null. */
  type Text = Option<string>

  /** `NormalItem.eNormalType`, whose members are not part of this model: a
      member is its ordinal, and `ItemSkin.normalNames` lists the members'
      names by ordinal. */
  type NormalType = nat

  /** `Char.IsWhiteSpace`: the Unicode space, line and paragraph separators,
      and the controls U+0009 to U+000D and U+0085. */
  predicate IsWhiteSpace(ch: char) {
    var c := ch as int;
    || (0x09 <= c <= 0x0D) || c == 0x20 || c == 0x85 || c == 0xA0 || c == 0x1680
    || (0x2000 <= c <= 0x200A) || c == 0x2028 || c == 0x2029 || c == 0x202F
    || c == 0x205F || c == 0x3000
  }

  /** `string.IsNullOrWhiteSpace`. */
  predicate IsNullOrWhiteSpace(v: Text) {
    match v
    case None => true
    case Some(s) => forall i :: 0 <= i < |s| ==> IsWhiteSpace(s[i])
  }

  /** `string.IsNullOrEmpty`. */
  predicate IsNullOrEmpty(v: Text) {
    v == None || v == Some("")
  }

  /** Every value of the map is a usable prefab name: neither null nor blank. */
  predicate CleanValues<K>(m: map<K, Text>) {
    forall k :: k in m ==> !IsNullOrWhiteSpace(m[k])
  }

  /** `Dictionary.TryGetValue`, giving null on a miss. */
  function Lookup<K>(m: map<K, Text>, k: K): Text {
    if k in m then m[k] else None
  }

  /** `Enum.TryParse` into `eNormalType`, read as an exact match against the
      member names: the ordinal of the first member called `s`. */
  function ParseNormal(names: seq<string>, s: string): (r: Option<NormalType>)
    ensures r.None? <==> s !in names
    ensures r.Some? ==> r.value < |names| && names[r.value] == s && s !in names[..r.value]
    ensures forall i :: 0 <= i < |names| && names[i] == s && s !in names[..i] ==> r == Some(i)
  {
    if names == [] then None
    else if names[0] == s then Some(0)
    else match ParseNormal(names[1..], s)
      case None => None
      case Some(i) =>
        assert names[1..][..i] == names[1..i + 1];
        Some(i + 1)
  }

  // ---------------------------------------------------------------------------
  // Serialisation into parallel lists and back

  /** `keys`/`vals` list the map's entries, each key once, with `vals[i]` the
      value of `keys[i]`. */
  predicate IsFlattening<K, V(==)>(m: map<K, V>, keys: seq<K>, vals: seq<V>) {
    && |keys| == |m| && |vals| == |m|
    && Distinct(keys)
    && (forall k :: k in m ==> k in keys)
    && (forall i :: 0 <= i < |keys| ==> keys[i] in m && vals[i] == m[keys[i]])
  }

  /** The dictionary after `dict[keys[i]] = vals[i]` for `i` in `0 .. n-1`,
      starting from an empty one. */
  function Assign<K, V>(keys: seq<K>, vals: seq<V>, n: nat): map<K, V>
    requires n <= |keys| && n <= |vals|
  {
    if n == 0 then map[] else Assign(keys, vals, n - 1)[keys[n - 1] := vals[n - 1]]
  }

  /** What `OnAfterDeserialize` rebuilds from a key list and a value list: only
      the first `min(|keys|, |vals|)` pairs count. */
  function PairsToMap<K, V>(keys: seq<K>, vals: seq<V>): map<K, V> {
    Assign(keys, vals, if |keys| < |vals| then |keys| else |vals|)
  }

  /** The rebuilt dictionary holds exactly the keys among the first `n`. */
  lemma {:induction false} AssignKeys<K, V>(keys: seq<K>, vals: seq<V>, n: nat)
    requires n <= |keys| && n <= |vals|
    ensures forall k :: k in Assign(keys, vals, n) <==> k in keys[..n]
  {
    if n > 0 {
      AssignKeys(keys, vals, n - 1);
      assert keys[..n] == keys[..n - 1] + [keys[n - 1]];
    }
  }

  /** A later duplicate key overwrites an earlier one: a key gets the value of
      its last occurrence among the first `n` pairs. */
  lemma {:induction false} AssignLastWins<K, V>(keys: seq<K>, vals: seq<V>, n: nat, i: nat)
    requires n <= |keys| && n <= |vals| && i < n
    requires forall j :: i < j < n ==> keys[j] != keys[i]
    ensures keys[i] in Assign(keys, vals, n) && Assign(keys, vals, n)[keys[i]] == vals[i]
  {
    if i < n - 1 {
      AssignLastWins(keys, vals, n - 1, i);
    }
  }

  /** Pairs that agree with a map `m` rebuild the part of `m` they mention. */
  lemma {:induction false} AssignAgrees<K, V>(m: map<K, V>, keys: seq<K>, vals: seq<V>, n: nat)
    requires n <= |keys| && n <= |vals|
    requires forall i :: 0 <= i < n ==> keys[i] in m && vals[i] == m[keys[i]]
    ensures forall k :: k in Assign(keys, vals, n) ==> k in m && Assign(keys, vals, n)[k] == m[k]
  {
    if n > 0 {
      AssignAgrees(m, keys, vals, n - 1);
    }
  }

  /** Round trip: rebuilding from a flattening of `m`, in whatever order the
      dictionary enumerated its entries, gives back `m`. */
  lemma RoundTrip<K, V>(m: map<K, V>, keys: seq<K>, vals: seq<V>)
    requires IsFlattening(m, keys, vals)
    ensures PairsToMap(keys, vals) == m
  {
    var r := PairsToMap(keys, vals);
    AssignKeys(keys, vals, |keys|);
    AssignAgrees(m, keys, vals, |keys|);
    assert keys[..|keys|] == keys;
    assert r.Keys == m.Keys;
  }

  /** Deserialisation does not filter values: a null value in the lists ends
      up in the rebuilt dictionary. */
  lemma RebuildKeepsNull<K>(k: K)
    ensures PairsToMap<K, Text>([k], [None]) == map[k := None]
    ensures !CleanValues(PairsToMap<K, Text>([k], [None]))
  {
    assert Assign<K, Text>([k], [None], 0) == map[];
    assert PairsToMap<K, Text>([k], [None]) == Assign<K, Text>([k], [None], 1);
    var m := PairsToMap<K, Text>([k], [None]);
    assert k in m && IsNullOrWhiteSpace(m[k]);
  }

  /** A `foreach` over the dictionary appending each entry's key and value to
      two lists, in the dictionary's (unspecified) enumeration order. */
  method Flatten<K, V(==)>(m: map<K, V>) returns (keys: seq<K>, vals: seq<V>)
    ensures IsFlattening(m, keys, vals)
  {
    keys, vals := [], [];
    var rest := m.Keys;
    while rest != {}
      invariant rest <= m.Keys
      invariant |keys| == |vals| && |keys| + |rest| == |m|
      invariant Distinct(keys)
      invariant forall i :: 0 <= i < |keys| ==> keys[i] in m && keys[i] !in rest && vals[i] == m[keys[i]]
      invariant forall k :: k in m ==> k in rest || k in keys
      decreases rest
    {
      var k :| k in rest;
      keys, vals := keys + [k], vals + [m[k]];
      rest := rest - {k};
    }
  }

  /** The counted `for` loop that refills a cleared dictionary from the lists. */
  method Rebuild<K, V>(keys: seq<K>, vals: seq<V>) returns (m: map<K, V>)
    ensures m == PairsToMap(keys, vals)
  {
    m := map[];
    var n := if |keys| < |vals| then |keys| else |vals|;
    for i := 0 to n
      invariant m == Assign(keys, vals, i)
    {
      m := m[keys[i] := vals[i]];
    }
  }

  class ItemSkin {
    /** The member names of `eNormalType`, by ordinal. */
    const normalNames: seq<string>

    var normalTypePools: map<NormalType, Text>
    var bonusTypePools: map<BonusType, Text>

    // the serialised form
    var normalKeys: seq<NormalType>
    var normalVals: seq<Text>
    var bonusKeys: seq<BonusType>
    var bonusVals: seq<Text>

    constructor (names: seq<string>)
      ensures normalNames == names
      ensures normalTypePools == map[] && bonusTypePools == map[]
      ensures normalKeys == [] && normalVals == [] && bonusKeys == [] && bonusVals == []
    {
      normalNames := names;
      normalTypePools, bonusTypePools := map[], map[];
      normalKeys, normalVals, bonusKeys, bonusVals := [], [], [], [];
    }

    /** A blank prefab name is ignored; otherwise the entry for `key` is set. */
    method AddOrUpdateNormal(key: NormalType, prefab: Text)
      modifies this`normalTypePools
      ensures IsNullOrWhiteSpace(prefab) ==> normalTypePools == old(normalTypePools)
      ensures !IsNullOrWhiteSpace(prefab) ==> normalTypePools == old(normalTypePools)[key := prefab]
      ensures CleanValues(old(normalTypePools)) ==> CleanValues(normalTypePools)
    {
      if IsNullOrWhiteSpace(prefab) {
        return;
      }
      normalTypePools := normalTypePools[key := prefab];
    }

    method AddOrUpdateBonus(key: BonusType, prefab: Text)
      modifies this`bonusTypePools
      ensures IsNullOrWhiteSpace(prefab) ==> bonusTypePools == old(bonusTypePools)
      ensures !IsNullOrWhiteSpace(prefab) ==> bonusTypePools == old(bonusTypePools)[key := prefab]
      ensures CleanValues(old(bonusTypePools)) ==> CleanValues(bonusTypePools)
    {
      if IsNullOrWhiteSpace(prefab) {
        return;
      }
      bonusTypePools := bonusTypePools[key := prefab];
    }

    /** Deletes the entry for `key`, if any; the other entries stay. */
    method RemoveNormal(key: NormalType)
      modifies this`normalTypePools
      ensures normalTypePools == old(normalTypePools) - {key}
      ensures key !in old(normalTypePools) ==> normalTypePools == old(normalTypePools)
      ensures CleanValues(old(normalTypePools)) ==> CleanValues(normalTypePools)
    {
      normalTypePools := normalTypePools - {key};
    }

    method RemoveBonus(key: BonusType)
      modifies this`bonusTypePools
      ensures bonusTypePools == old(bonusTypePools) - {key}
      ensures key !in old(bonusTypePools) ==> bonusTypePools == old(bonusTypePools)
      ensures CleanValues(old(bonusTypePools)) ==> CleanValues(bonusTypePools)
    {
      bonusTypePools := bonusTypePools - {key};
    }

    /** The prefab name for an item type given by name: the normal table is
        consulted first, the bonus table only when the name is not a normal
        member or that member has no entry, and null when neither yields. */
    function GetPrefabName(typeName: string): (r: Text)
      reads this
      // a normal member with an entry wins
      ensures forall n: NormalType ::
                (n < |normalNames| && normalNames[n] == typeName && typeName !in normalNames[..n]
                 && n in normalTypePools) ==> r == normalTypePools[n]
      // otherwise the bonus member of that name decides
      ensures forall n: NormalType ::
                (n < |normalNames| && normalNames[n] == typeName && typeName !in normalNames[..n]
                 && n !in normalTypePools) ==>
                r == (match ParseBonus(typeName) case Some(b) => Lookup(bonusTypePools, b) case None => None)
      ensures typeName !in normalNames ==> forall b :: BonusName(b) == typeName ==> r == Lookup(bonusTypePools, b)
      // a name of neither enum gives null
      ensures typeName !in normalNames && (forall b :: BonusName(b) != typeName) ==> r == None
    {
      var n := ParseNormal(normalNames, typeName);
      if n.Some? && n.value in normalTypePools then normalTypePools[n.value]
      else
        var b := ParseBonus(typeName);
        if b.Some? && b.value in bonusTypePools then bonusTypePools[b.value]
        else None
    }

    method OnBeforeSerialize()
      modifies this`normalKeys, this`normalVals, this`bonusKeys, this`bonusVals
      ensures IsFlattening(normalTypePools, normalKeys, normalVals)
      ensures IsFlattening(bonusTypePools, bonusKeys, bonusVals)
    {
      normalKeys, normalVals := Flatten(normalTypePools);
      bonusKeys, bonusVals := Flatten(bonusTypePools);
    }

    /** Discards the dictionaries' contents and rebuilds them from the lists. */
    method OnAfterDeserialize()
      modifies this`normalTypePools, this`bonusTypePools
      ensures normalTypePools == PairsToMap(normalKeys, normalVals)
      ensures bonusTypePools == PairsToMap(bonusKeys, bonusVals)
    {
      normalTypePools := Rebuild(normalKeys, normalVals);
      bonusTypePools := Rebuild(bonusKeys, bonusVals);
    }

    /** Unity's serialisation round trip: saving and reloading the skin leaves
        both dictionaries exactly as they were. */
    method SaveAndReload()
      modifies this`normalKeys, this`normalVals, this`bonusKeys, this`bonusVals,
               this`normalTypePools, this`bonusTypePools
      ensures normalTypePools == old(normalTypePools) && bonusTypePools == old(bonusTypePools)
    {
      OnBeforeSerialize();
      OnAfterDeserialize();
      RoundTrip(old(normalTypePools), normalKeys, normalVals);
      RoundTrip(old(bonusTypePools), bonusKeys, bonusVals);
    }
  }
}
