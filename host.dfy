/**
 * Plain abstract state standing for the game host's objects, which the
 * wrapper classes hold and change. Only the parts the wrappers read or write
 * are kept: a player's name, name tag, tag set and the console commands it
 * has been made to run; an item stack's amount, name tag, lore and its
 * enchantments component.
 */
module Host {
  import opened Wrappers

  /** The host's player object. */
  class HostPlayer {
    /** The account name; the host never changes it. */
    const name: string
    /** The name shown above the player. */
    var nameTag: string
    /** The player's tags. */
    var tags: set<string>
    /** Every command run through `runCommand`, oldest first. */
    var commands: seq<string>
    /** Every call of `addTag` and `removeTag`, oldest first. */
    var tagCalls: seq<TagCall>

    constructor (name: string, nameTag: string, tags: set<string>)
      ensures this.name == name && this.nameTag == nameTag && this.tags == tags
      ensures commands == [] && tagCalls == []
    {
      this.name := name;
      this.nameTag := nameTag;
      this.tags := tags;
      commands := [];
      tagCalls := [];
    }

    /** Host `hasTag`. */
    predicate HasTag(tag: string)
      reads this
    {
      tag in tags
    }

    /** Host `addTag`. */
    method AddTag(tag: string)
      modifies this
      ensures tags == old(tags) + {tag}
      ensures tagCalls == old(tagCalls) + [AddCall(tag)]
      ensures nameTag == old(nameTag) && commands == old(commands)
    {
      tags := tags + {tag};
      tagCalls := tagCalls + [AddCall(tag)];
    }

    /** Host `removeTag`. */
    method RemoveTag(tag: string)
      modifies this
      ensures tags == old(tags) - {tag}
      ensures tagCalls == old(tagCalls) + [RemoveCall(tag)]
      ensures nameTag == old(nameTag) && commands == old(commands)
    {
      tags := tags - {tag};
      tagCalls := tagCalls + [RemoveCall(tag)];
    }

    /** Host `runCommand`: the command is recorded; its effect on the world is not modelled. */
    method RunCommand(command: string)
      modifies this
      ensures commands == old(commands) + [command]
      ensures nameTag == old(nameTag) && tags == old(tags) && tagCalls == old(tagCalls)
    {
      commands := commands + [command];
    }
  }

  /** One call of the host's `addTag` or `removeTag`, with its argument. */
  datatype TagCall = AddCall(tag: string) | RemoveCall(tag: string)

  /** The `addTag` calls that hand over `tags`, in that order. */
  function AddCalls(tags: seq<string>): (r: seq<TagCall>)
    ensures |r| == |tags|
    ensures forall i :: 0 <= i < |tags| ==> r[i] == AddCall(tags[i])
  {
    if tags == [] then [] else AddCalls(tags[..|tags| - 1]) + [AddCall(tags[|tags| - 1])]
  }

  /** Handing over one more tag appends its call to a log ending in the earlier ones. */
  lemma AddCallsSnoc(log: seq<TagCall>, tags: seq<string>, tag: string)
    ensures log + AddCalls(tags) + [AddCall(tag)] == log + AddCalls(tags + [tag])
  {
  }

  /** The `removeTag` calls that hand over `tags`, in that order. */
  function RemoveCalls(tags: seq<string>): (r: seq<TagCall>)
    ensures |r| == |tags|
    ensures forall i :: 0 <= i < |tags| ==> r[i] == RemoveCall(tags[i])
  {
    if tags == [] then [] else RemoveCalls(tags[..|tags| - 1]) + [RemoveCall(tags[|tags| - 1])]
  }

  /** Handing over one more tag appends its call to a log ending in the earlier ones. */
  lemma RemoveCallsSnoc(log: seq<TagCall>, tags: seq<string>, tag: string)
    ensures log + RemoveCalls(tags) + [RemoveCall(tag)] == log + RemoveCalls(tags + [tag])
  {
  }

  /** An enchantment as the host reports it: its type and its level. */
  datatype Enchantment = Enchantment(id: string, level: int)

  /**
   * The level the host's enchantment list reports for `id`: 0 when the item
   * does not carry that enchantment.
   */
  function Level(list: map<string, int>, id: string): int
  {
    if id in list then list[id] else 0
  }

  /** The host's item stack. */
  class HostItem {
    var amount: int
    var nameTag: string
    var lore: seq<string>
    /** The `minecraft:enchantments` component: `None` when the item has none. */
    var enchantments: Option<map<string, int>>

    constructor (amount: int, nameTag: string, lore: seq<string>, enchantments: Option<map<string, int>>)
      ensures this.amount == amount && this.nameTag == nameTag && this.lore == lore
      ensures this.enchantments == enchantments
    {
      this.amount := amount;
      this.nameTag := nameTag;
      this.lore := lore;
      this.enchantments := enchantments;
    }
  }
}
