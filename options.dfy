/**
 * The option registry: an `Options` object owns a list of option items,
 * each known by its name.  An item keeps its current value, the default
 * it was last set to, and a dirty flag, and tells its owner whenever its
 * value changes.  A seed item (`SeedOptionItem`) may be random, in which
 * case value writes leave its default alone.
 */
module OptionRegistry {
  import opened Wrappers

  /** The values option items hold (integer, float and enumeration items). */
  datatype Value = IntValue(i: int) | FloatValue(f: real) | EnumValue(index: int)

  /** No name occurs twice. */
  predicate Distinct(names: seq<string>) {
    forall i, j :: 0 <= i < j < |names| ==> names[i] != names[j]
  }

  /** The index of the first occurrence of key, if any. */
  function FirstIndex(names: seq<string>, key: string): (r: Option<nat>)
    ensures r.None? <==> key !in names
    ensures r.Some? ==> r.value < |names| && names[r.value] == key && key !in names[..r.value]
  {
    if names == [] then None
    else if names[0] == key then Some(0)
    else
      var r := FirstIndex(names[1..], key);
      assert names[1..][..if r.Some? then r.value else 0] == names[1..if r.Some? then r.value + 1 else 1];
      if r.None? then None else Some(r.value + 1)
  }

  /** In a list of distinct names, the first occurrence is the only one. */
  lemma FirstIndexOfDistinct(names: seq<string>, i: nat)
    requires Distinct(names) && i < |names|
    ensures FirstIndex(names, names[i]) == Some(i)
  {
  }

  /**
   * How many of the names `AddRange` adds to the existing ones before the
   * first one already taken (by an existing item or an earlier one of the
   * range).
   */
  function FirstClash(existing: seq<string>, names: seq<string>): (k: nat)
    ensures k <= |names|
    ensures forall j :: 0 <= j < k ==> names[j] !in existing + names[..j]
    ensures k < |names| ==> names[k] in existing + names[..k]
    decreases |names|
  {
    if names == [] then 0
    else if names[0] in existing then 0
    else
      var k := FirstClash(existing + [names[0]], names[1..]);
      assert forall j :: 0 <= j <= k ==> existing + [names[0]] + names[1..][..j] == existing + names[..j + 1];
      k + 1
  }

  /** A name not yet present keeps a distinct list distinct. */
  lemma DistinctAppend(names: seq<string>, key: string)
    requires Distinct(names) && key !in names
    ensures Distinct(names + [key])
  {
  }

  /** A name not yet present is first found where it is appended. */
  lemma FoundAppended(names: seq<string>, key: string)
    requires key !in names
    ensures FirstIndex(names + [key], key) == Some(|names|)
  {
    assert (names + [key])[..|names|] == names;
  }

  /** Taking one more element appends it. */
  lemma TakeNext<T>(s: seq<T>, j: nat)
    requires j < |s|
    ensures s[..j + 1] == s[..j] + [s[j]]
  {
  }

  /** Before the first clash, a name clashes exactly at the first clash. */
  lemma ClashAt(existing: seq<string>, names: seq<string>, j: nat)
    requires j < |names| && j <= FirstClash(existing, names)
    ensures j == FirstClash(existing, names) <==> names[j] in existing + names[..j]
  {
  }

  /** Names added before the first clash keep the list distinct. */
  lemma {:induction false} FirstClashDistinct(existing: seq<string>, names: seq<string>)
    requires Distinct(existing)
    ensures Distinct(existing + names[..FirstClash(existing, names)])
    decreases |names|
  {
    var k := FirstClash(existing, names);
    if k == 0 {
      assert existing + names[..k] == existing;
    } else {
      var next := existing + [names[0]];
      DistinctAppend(existing, names[0]);
      var rest := FirstClash(next, names[1..]);
      assert k == rest + 1;
      FirstClashDistinct(next, names[1..]);
      assert names[..k] == [names[0]] + names[1..][..rest];
      assert next + names[1..][..rest] == existing + names[..k];
    }
  }

  /** The names of the items, in order. */
  function NamesOf(items: seq<OptionItem>): (r: seq<string>)
    ensures |r| == |items| && forall i :: 0 <= i < |items| ==> r[i] == items[i].name
  {
    seq(|items|, i requires 0 <= i < |items| => items[i].name)
  }

  class OptionItem {
    /** The registry this item belongs to, or null. */
    var owner: Options?
    /** The item's name; renaming an item is not part of this model. */
    const name: string
    var isDirty: bool
    var min: Value
    var max: Value
    var defaultValue: Value
    var value: Value
    /** Whether the item is a seed item, whose value may be drawn at random. */
    const seed: bool
    /** For a seed item: whether its value is random. */
    var isRandom: bool

    constructor(name: string, min: Value, max: Value, seed: bool)
      ensures this.name == name && this.min == min && this.max == max && this.seed == seed
      ensures owner == null && !isDirty && !isRandom
      ensures value == min && defaultValue == min
    {
      this.name := name;
      this.min := min;
      this.max := max;
      this.seed := seed;
      owner := null;
      isDirty := false;
      isRandom := false;
      value := min;
      defaultValue := min;
    }

    /**
     * The `Value` setter.  Writing the current value changes nothing and
     * tells no one.  Writing another value stores it, makes it the default
     * (unless the item is a random seed item), marks the item dirty and
     * tells the owner once, when there is one.
     */
    method SetValue(v: Value)
      modifies this, owner
      ensures value == v
      ensures v == old(value) ==> isDirty == old(isDirty) && defaultValue == old(defaultValue)
      ensures v != old(value) ==> isDirty && defaultValue == if seed && isRandom then old(defaultValue) else v
      ensures owner == old(owner) && isRandom == old(isRandom)
      ensures min == old(min) && max == old(max)
      ensures owner != null ==> owner.changes == old(owner.changes) + (if v == old(value) then 0 else 1)
      ensures owner != null ==> owner.items == old(owner.items) && owner.dirty == old(owner.dirty)
    {
      if value == v {
        return;
      }
      if !(seed && isRandom) {
        defaultValue := v;
      }
      value := v;
      isDirty := true;
      if owner != null {
        owner.OnOptionItemChanged();
      }
    }

    /** `OnEnable`: not dirty; a seed item becomes random. */
    method OnEnable()
      modifies this
      ensures !isDirty
      ensures isRandom == (seed || old(isRandom))
      ensures value == old(value) && defaultValue == old(defaultValue) && owner == old(owner)
      ensures min == old(min) && max == old(max)
    {
      isDirty := false;
      if seed {
        isRandom := true;
      }
    }

    /** `Initialyze`: the value and the default become the minimum. */
    method Initialyze()
      modifies this
      ensures value == min && defaultValue == min
      ensures isDirty == old(isDirty) && owner == old(owner) && isRandom == old(isRandom)
      ensures min == old(min) && max == old(max)
    {
      value := min;
      defaultValue := value;
    }

    /** `Reset`: no longer dirty; the value is kept. */
    method Reset()
      modifies this
      ensures !isDirty
      ensures value == old(value) && defaultValue == old(defaultValue) && owner == old(owner)
      ensures isRandom == old(isRandom) && min == old(min) && max == old(max)
    {
      isDirty := false;
    }
  }

  class Options {
    var items: seq<OptionItem>
    var dirty: bool
    /** How many `OptionItemChanged` notifications have been raised. */
    var changes: nat

    /** The items' names, in order. */
    function Names(): (r: seq<string>)
      reads this
      ensures |r| == |items| && forall i :: 0 <= i < |items| ==> r[i] == items[i].name
    {
      NamesOf(items)
    }

    constructor()
      ensures items == [] && !dirty && changes == 0
    {
      items := [];
      dirty := false;
      changes := 0;
    }

    /** `OnOptionItemChanged`: one more notification. */
    method OnOptionItemChanged()
      modifies this
      ensures changes == old(changes) + 1
      ensures items == old(items) && dirty == old(dirty)
    {
      changes := changes + 1;
    }

    /** `OnEnable`: not dirty; the items are kept. */
    method OnEnable()
      modifies this
      ensures !dirty && items == old(items) && changes == old(changes)
    {
      dirty := false;
    }

    /**
     * The `IsDirty` setter: it can only clear the flag, so a registry that
     * is not dirty never becomes dirty.
     */
    method SetIsDirty(v: bool)
      modifies this
      ensures dirty == (old(dirty) && v)
      ensures !old(dirty) ==> !dirty
      ensures items == old(items) && changes == old(changes)
    {
      if v || !dirty {
        return;
      }
      dirty := false;
    }

    /** `Contains`: whether some item has the name. */
    method Contains(key: string) returns (found: bool)
      ensures found <==> key in Names()
    {
      for i := 0 to |items|
        invariant key !in Names()[..i]
      {
        if items[i].name == key {
          return true;
        }
      }
      assert Names()[..|items|] == Names();
      return false;
    }

    /** `ItemAtKey`: the first item with the name, or null. */
    method ItemAtKey(key: string) returns (r: OptionItem?)
      ensures FirstIndex(Names(), key).None? ==> r == null
      ensures FirstIndex(Names(), key).Some? ==> r == items[FirstIndex(Names(), key).value]
    {
      for i := 0 to |items|
        invariant key !in Names()[..i]
      {
        if items[i].name == key {
          assert Names()[..i + 1] == Names()[..i] + [key];
          return items[i];
        }
      }
      assert Names()[..|items|] == Names();
      return null;
    }

    /**
     * `Add`: an item whose name is taken is refused; otherwise it is
     * attached to this registry, appended and initialised.  Its name is
     * then new at the end of `Names()`, so `ItemAtKey` finds it
     * (`FoundAppended`) and distinct names stay distinct (`DistinctAppend`).
     */
    method Add(item: OptionItem) returns (o: Outcome)
      modifies this, item
      ensures o.Fail? <==> item.name in old(Names())
      ensures o.Fail? ==> o == Fail(DuplicateName) && items == old(items) && unchanged(item)
      ensures o.Pass? ==> items == old(items) + [item] && Names() == old(Names()) + [item.name]
      ensures o.Pass? ==> item.owner == this && item.value == item.min && item.defaultValue == item.min
      ensures dirty == old(dirty) && changes == old(changes)
    {
      var taken := Contains(item.name);
      if taken {
        return Fail(DuplicateName);
      }
      item.owner := this;
      items := items + [item];
      item.Initialyze();
      return Pass;
    }

    /**
     * `AddRange`: the items are added in order; the first one whose name is
     * taken stops the rest, and the earlier ones stay added.
     */
    method AddRange(range: seq<OptionItem>) returns (o: Outcome)
      modifies this, range
      ensures var k := FirstClash(old(Names()), NamesOf(range));
        items == old(items) + range[..k] && Names() == old(Names()) + NamesOf(range)[..k] &&
        (o.Fail? <==> k < |range|) && (o.Fail? ==> o.error == DuplicateName)
      ensures var k := FirstClash(old(Names()), NamesOf(range));
        forall i :: 0 <= i < k ==> range[i].owner == this && range[i].value == range[i].min && range[i].defaultValue == range[i].min
      ensures var k := FirstClash(old(Names()), NamesOf(range));
        forall i :: k <= i < |range| && range[i] !in range[..k] ==> unchanged(range[i])
      ensures dirty == old(dirty) && changes == old(changes)
    {
      ghost var names := NamesOf(range);
      ghost var existing := Names();
      ghost var k := FirstClash(existing, names);
      var j := 0;
      o := Pass;
      while j < |range|
        invariant j <= k && (o.Fail? ==> j == k)
        invariant items == old(items) + range[..j]
        invariant Names() == existing + names[..j]
        invariant dirty == old(dirty) && changes == old(changes)
        invariant forall i :: 0 <= i < j ==> Attached(range[i])
        invariant forall i :: j <= i < |range| && range[i] !in range[..j] ==> unchanged(range[i])
      {
        o := AddStep(range, j, existing, names);
        if o.Fail? {
          break;
        }
        j := j + 1;
      }
      if j == |range| {
        assert names[..|range|] == names;
        o := Pass;
      }
      assert j == k;
    }

    /** An item `Add` has taken in: owned by this registry and initialised. */
    predicate Attached(item: OptionItem)
      reads item
    {
      item.owner == this && item.value == item.min && item.defaultValue == item.min
    }

    /**
     * One turn of `AddRange`'s loop: `Add` of item j, which fails exactly at
     * the first clash; the items taken in stay attached, and a refused item
     * is left alone.
     */
    method AddStep(range: seq<OptionItem>, j: nat, ghost existing: seq<string>, ghost names: seq<string>) returns (o: Outcome)
      requires j < |range| == |names| && j <= FirstClash(existing, names)
      requires Names() == existing + names[..j] && names == NamesOf(range)
      requires forall i :: 0 <= i < j ==> Attached(range[i])
      modifies this, range[j]
      ensures o.Fail? <==> j == FirstClash(existing, names)
      ensures o.Fail? ==> o.error == DuplicateName && items == old(items) && Names() == existing + names[..j]
      ensures o.Pass? ==> items == old(items) + [range[j]] && Names() == existing + names[..j + 1]
      ensures forall i :: 0 <= i < j ==> Attached(range[i])
      ensures o.Fail? ==> unchanged(range[j])
      ensures o.Pass? ==> Attached(range[j]) && range[j] !in range[..j] && range[..j + 1] == range[..j] + [range[j]]
      ensures dirty == old(dirty) && changes == old(changes)
    {
      ClashAt(existing, names, j);
      o := Add(range[j]);
      TakeNext(names, j);
      TakeNext(range, j);
      if o.Pass? {
        forall i | 0 <= i < j
          ensures range[i] != range[j]
        {
          assert names[i] in names[..j] && names[j] !in existing + names[..j];
        }
      }
    }
  }

  /** `Contains` and `ItemAtKey` agree: a name is present exactly when `ItemAtKey` finds an item. */
  lemma ContainsIffFound(names: seq<string>, key: string)
    ensures key in names <==> FirstIndex(names, key).Some?
  {
  }
}
