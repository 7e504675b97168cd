/**
 * `getEnchantments(item)`: walks the enchantment type keys in order and keeps,
 * for every key the item's enchantments component reports a non-zero level
 * for, that enchantment. The key list (`Object.keys(EnchantmentTypes)`) is a
 * parameter.
 */
module ItemEnchantments {
  import opened Host

  /** The enchantments the loop collects from `keys`, in key order. */
  function Present(keys: seq<string>, list: map<string, int>): seq<Enchantment>
    decreases |keys|
  {
    if keys == [] then []
    else
      var k := keys[|keys| - 1];
      Present(keys[..|keys| - 1], list) + (if Level(list, k) != 0 then [Enchantment(k, Level(list, k))] else [])
  }

  /** What `getEnchantments` returns: nothing for a missing item or one without the component. */
  function Listed(item: HostItem?, keys: seq<string>): seq<Enchantment>
    reads item
  {
    if item == null || item.enchantments.None? then [] else Present(keys, item.enchantments.value)
  }

  predicate Distinct(keys: seq<string>)
  {
    forall i, j :: 0 <= i < j < |keys| ==> keys[i] != keys[j]
  }

  /** The keys that contribute an entry. */
  function PresentKeys(keys: seq<string>, list: map<string, int>): set<string>
  {
    set k | k in keys && Level(list, k) != 0
  }

  method GetEnchantments(item: HostItem?, typeKeys: seq<string>) returns (enchantments: seq<Enchantment>)
    ensures enchantments == Listed(item, typeKeys)
    ensures item == null || item.enchantments.None? ==> enchantments == []
  {
    enchantments := [];
    if item == null || item.enchantments.None? {
      return;
    }
    var component := item.enchantments.value;
    for i := 0 to |typeKeys|
      invariant enchantments == Present(typeKeys[..i], component)
    {
      var enchant := typeKeys[i];
      assert typeKeys[..i + 1][..i] == typeKeys[..i];
      if Level(component, enchant) == 0 {
        continue;
      }
      var value := Enchantment(enchant, Level(component, enchant));
      enchantments := enchantments + [value];
    }
    assert typeKeys[..|typeKeys|] == typeKeys;
  }

  /** Every entry is a listed key with the non-zero level the component reports for it. */
  lemma {:induction false} PresentSound(keys: seq<string>, list: map<string, int>)
    ensures forall e :: e in Present(keys, list) ==> e.id in keys && e.level == Level(list, e.id) && e.level != 0
    decreases |keys|
  {
    if keys != [] {
      PresentSound(keys[..|keys| - 1], list);
    }
  }

  /** A key has its enchantment in the output exactly when it is listed and present. */
  lemma {:induction false} PresentMembers(keys: seq<string>, list: map<string, int>, k: string)
    ensures Enchantment(k, Level(list, k)) in Present(keys, list) <==> k in keys && Level(list, k) != 0
    decreases |keys|
  {
    if keys != [] {
      PresentMembers(keys[..|keys| - 1], list, k);
      assert keys == keys[..|keys| - 1] + [keys[|keys| - 1]];
    }
  }

  /** At most one entry per key. */
  lemma {:induction false} PresentLengthBound(keys: seq<string>, list: map<string, int>)
    ensures |Present(keys, list)| <= |keys|
    decreases |keys|
  {
    if keys != [] {
      PresentLengthBound(keys[..|keys| - 1], list);
    }
  }

  /** With the type keys distinct, there is exactly one entry per present key. */
  lemma {:induction false} PresentLength(keys: seq<string>, list: map<string, int>)
    requires Distinct(keys)
    ensures |Present(keys, list)| == |PresentKeys(keys, list)|
    decreases |keys|
  {
    if keys != [] {
      var init, k := keys[..|keys| - 1], keys[|keys| - 1];
      assert Distinct(init);
      PresentLength(init, list);
      assert keys == init + [k];
      assert k !in init;
      if Level(list, k) != 0 {
        assert PresentKeys(keys, list) == PresentKeys(init, list) + {k};
      } else {
        assert PresentKeys(keys, list) == PresentKeys(init, list);
      }
    }
  }

  /** An earlier entry's key stands earlier in `keys` than a later entry's key. */
  predicate InKeyOrder(r: seq<Enchantment>, keys: seq<string>)
  {
    forall i, j, p, q :: 0 <= i < j < |r| && 0 <= p < |keys| && 0 <= q < |keys| && keys[p] == r[i].id && keys[q] == r[j].id ==> p < q
  }

  /** With the type keys distinct, entries come in the order of their keys. */
  lemma {:induction false} PresentOrdered(keys: seq<string>, list: map<string, int>)
    requires Distinct(keys)
    ensures InKeyOrder(Present(keys, list), keys)
    decreases |keys|
  {
    if keys != [] {
      var init, k := keys[..|keys| - 1], keys[|keys| - 1];
      var r, r' := Present(keys, list), Present(init, list);
      assert Distinct(init);
      PresentOrdered(init, list);
      PresentSound(init, list);
      forall i, j, p, q | 0 <= i < j < |r| && 0 <= p < |keys| && 0 <= q < |keys| && keys[p] == r[i].id && keys[q] == r[j].id
        ensures p < q
      {
        assert r == r' + (if Level(list, k) != 0 then [Enchantment(k, Level(list, k))] else []);
        assert i < |r'|;
        assert r[i] == r'[i] && r[i] in r';
        assert r[i].id in init;
        assert p < |keys| - 1;
        if j < |r'| {
          assert r[j] == r'[j] && r[j] in r';
          assert r[j].id in init;
          assert q < |keys| - 1;
          assert init[p] == r'[i].id && init[q] == r'[j].id;
        } else {
          assert r[j].id == k;
          assert q == |keys| - 1;
        }
      }
    }
  }
}
