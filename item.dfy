/**
 * The `Item` wrapper over a host item stack: amount, name tag and lore
 * accessors, and enchantment operations that first check that the item has
 * an enchantments component and whether it carries the enchantment.
 */
module Items {
  import opened Wrappers
  import opened Host
  import ItemEnchantments

  /** `lore.find((x) => x === s)`: the first line equal to `s`, or `undefined`. */
  function FindLore(lore: seq<string>, s: string): (r: Option<string>)
    ensures r.Some? <==> s in lore
    ensures r.Some? ==> r.value == s
    decreases |lore|
  {
    if lore == [] then None
    else if lore[0] == s then Some(lore[0])
    else FindLore(lore[1..], s)
  }

  /**
   * `hasLore` as written: it tests the truthiness of what `find` returns, so
   * a line found that is the empty string counts as not found.
   */
  function HasLoreAsWritten(lore: seq<string>, s: string): (r: bool)
    ensures r ==> s in lore
  {
    match FindLore(lore, s)
    case Some(line) => line != ""
    case None => false
  }

  /** As written, `hasLore(s)` holds exactly when `s` is a non-empty line of the lore. */
  lemma HasLoreAsWrittenMeans(lore: seq<string>, s: string)
    ensures HasLoreAsWritten(lore, s) <==> s in lore && s != ""
  {
  }

  /** The lore `[""]` contains `""`, yet `hasLore("")` as written is false. */
  lemma EmptyLoreLineMissed()
    ensures "" in [""] && !HasLoreAsWritten([""], "")
  {
    assert FindLore([""], "") == Some("");
  }

  class Item {
    /** The wrapped host item stack. */
    const host: HostItem

    constructor (item: HostItem)
      ensures host == item
    {
      host := item;
    }

    function GetAmount(): int
      reads host
    {
      host.amount
    }

    method SetAmount(amount: int)
      modifies host
      ensures GetAmount() == amount
      ensures host.nameTag == old(host.nameTag) && host.lore == old(host.lore)
      ensures host.enchantments == old(host.enchantments)
    {
      host.amount := amount;
    }

    function GetNameTag(): string
      reads host
    {
      host.nameTag
    }

    method SetNameTag(nameTag: string)
      modifies host
      ensures GetNameTag() == nameTag
      ensures host.amount == old(host.amount) && host.lore == old(host.lore)
      ensures host.enchantments == old(host.enchantments)
    {
      host.nameTag := nameTag;
    }

    function GetLore(): seq<string>
      reads host
    {
      host.lore
    }

    method SetLore(lore: seq<string>)
      modifies host
      ensures GetLore() == lore
      ensures host.amount == old(host.amount) && host.nameTag == old(host.nameTag)
      ensures host.enchantments == old(host.enchantments)
    {
      host.lore := lore;
    }

    /** `hasLore`, comparing the `find` result with `undefined` rather than testing its truthiness. */
    function HasLore(s: string): (r: bool)
      reads host
      ensures r <==> s in GetLore()
      ensures r <==> HasLoreAsWritten(GetLore(), s) || (s == "" && s in GetLore())
    {
      FindLore(host.lore, s).Some?
    }

    /** The item has the component and the host reports a non-zero level for `enchantment`. */
    function HasEnchantment(enchantment: string): (r: bool)
      reads host
      ensures host.enchantments.None? ==> !r
      ensures host.enchantments.Some? ==> (r <==> Level(host.enchantments.value, enchantment) != 0)
    {
      match host.enchantments
      case None => false
      case Some(list) => Level(list, enchantment) != 0
    }

    /** `getEnchantment`: `undefined` unless the item has the component and the enchantment. */
    function GetEnchantment(enchantment: string): (r: Option<Enchantment>)
      reads host
      ensures r.None? <==> !HasEnchantment(enchantment)
      ensures r.Some? ==> r.value.id == enchantment && r.value.level != 0
      ensures r.Some? ==> r.value.level == Level(host.enchantments.value, enchantment)
    {
      if host.enchantments.None? then None
      else if !HasEnchantment(enchantment) then None
      else Some(Enchantment(enchantment, Level(host.enchantments.value, enchantment)))
    }

    /**
     * `addEnchantment`: `false` without the component; otherwise the host's
     * verdict `accepted` (an unseen rule), the enchantment being set at
     * `level` when it accepts.
     */
    method AddEnchantment(enchantment: string, level: int, accepted: bool) returns (res: bool)
      modifies host
      ensures old(host.enchantments).None? ==> !res && host.enchantments == old(host.enchantments)
      ensures old(host.enchantments).Some? ==> res == accepted
      ensures old(host.enchantments).Some? && accepted ==>
        host.enchantments == Some(old(host.enchantments).value[enchantment := level])
      ensures !res ==> host.enchantments == old(host.enchantments)
      ensures res && level != 0 ==> GetEnchantment(enchantment) == Some(Enchantment(enchantment, level))
      ensures host.amount == old(host.amount) && host.nameTag == old(host.nameTag) && host.lore == old(host.lore)
    {
      if host.enchantments.None? {
        return false;
      }
      var enchantments := host.enchantments.value;
      res := accepted;
      if res {
        enchantments := enchantments[enchantment := level];
      }
      host.enchantments := Some(enchantments);
    }

    /**
     * `removeEnchantment`: `false` and nothing changed unless the item has the
     * component and the enchantment; otherwise the enchantment is removed and
     * every other one is kept.
     */
    method RemoveEnchantment(enchantment: string) returns (res: bool)
      modifies host
      ensures res <==> old(HasEnchantment(enchantment))
      ensures !res ==> host.enchantments == old(host.enchantments)
      ensures res ==> host.enchantments == Some(old(host.enchantments).value - {enchantment})
      ensures !HasEnchantment(enchantment)
      ensures res ==> forall e :: e != enchantment ==> Level(host.enchantments.value, e) == Level(old(host.enchantments).value, e)
      ensures host.amount == old(host.amount) && host.nameTag == old(host.nameTag) && host.lore == old(host.lore)
    {
      if host.enchantments.None? {
        return false;
      }
      if !HasEnchantment(enchantment) {
        return false;
      }
      var enchantments := host.enchantments.value;
      enchantments := enchantments - {enchantment};
      host.enchantments := Some(enchantments);
      return true;
    }

    /** `getEnchantments`, delegated to the module function of the same name. */
    method GetEnchantments(typeKeys: seq<string>) returns (r: seq<Enchantment>)
      ensures r == ItemEnchantments.Listed(host, typeKeys)
    {
      r := ItemEnchantments.GetEnchantments(host, typeKeys);
    }
  }
}
