/**
 * The behaviour-pack JavaScript `Player` wrapper. It does what the TypeScript
 * wrapper does, but `setDisplayName` is written as two branches and `hasTags`
 * as a loop over a flag; both are proved to agree with the TypeScript forms
 * (`PlayerTs.ColoredName` and `Tags.Every`).
 */
module PlayerJs {
  import opened Host
  import opened Tags
  import PlayerTs

  class Player {
    const host: HostPlayer
    const name: string
    var displayName: string

    constructor (player: HostPlayer)
      ensures host == player && name == player.name && displayName == player.nameTag
    {
      host := player;
      name := player.name;
      displayName := player.nameTag;
    }

    method SetDisplayName(name: string, color: string)
      modifies this, host
      ensures displayName == PlayerTs.ColoredName(name, color) && host.nameTag == displayName
      ensures host.tags == old(host.tags) && host.commands == old(host.commands)
      ensures host.tagCalls == old(host.tagCalls)
    {
      if color != "" {
        displayName := color + name;
        host.nameTag := displayName;
      } else {
        displayName := name;
        host.nameTag := name;
      }
    }

    /** `hasTag`: asks the host whether the player carries the tag. */
    predicate HasTag(tag: string)
      reads host
      ensures HasTag(tag) <==> tag in host.tags
    {
      host.HasTag(tag)
    }

    method AddTag(tag: string)
      modifies host
      ensures host.tags == old(host.tags) + {tag}
      ensures host.tagCalls == old(host.tagCalls) + [AddCall(tag)]
      ensures host.nameTag == old(host.nameTag) && host.commands == old(host.commands)
    {
      host.AddTag(tag);
    }

    method RemoveTag(tag: string)
      modifies host
      ensures host.tags == old(host.tags) - {tag}
      ensures host.tagCalls == old(host.tagCalls) + [RemoveCall(tag)]
      ensures host.nameTag == old(host.nameTag) && host.commands == old(host.commands)
    {
      host.RemoveTag(tag);
    }

    /** Adds every listed tag the player lacks; `added` is what was handed to the host's `addTag`. */
    method AddTags(tags: seq<string>) returns (ghost added: seq<string>)
      modifies host
      ensures host.tags == old(host.tags) + Elems(tags)
      ensures Every(tags, host.tags)
      ensures added == NewTags(old(host.tags), tags)
      ensures Elems(added) == Elems(tags) - old(host.tags)
      ensures forall i :: 0 <= i < |added| ==> added[i] !in old(host.tags) && added[i] !in added[..i]
      ensures host.tagCalls == old(host.tagCalls) + AddCalls(added)
      ensures host.nameTag == old(host.nameTag) && host.commands == old(host.commands)
    {
      added := [];
      for i := 0 to |tags|
        invariant host.tags == old(host.tags) + Elems(tags[..i])
        invariant added == NewTags(old(host.tags), tags[..i])
        invariant host.tagCalls == old(host.tagCalls) + AddCalls(added)
        invariant host.nameTag == old(host.nameTag) && host.commands == old(host.commands)
      {
        if HasTag(tags[i]) {
          assert host.tags == old(host.tags) + Elems(tags[..i + 1]) && added == NewTags(old(host.tags), tags[..i + 1]) by {
            NewTagsStep(old(host.tags), tags, i);
          }
          continue;
        }
        assert host.tags + {tags[i]} == old(host.tags) + Elems(tags[..i + 1])
          && added + [tags[i]] == NewTags(old(host.tags), tags[..i + 1]) by {
          NewTagsStep(old(host.tags), tags, i);
        }
        AddTag(tags[i]);
        AddCallsSnoc(old(host.tagCalls), added, tags[i]);
        added := added + [tags[i]];
      }
      assert tags[..|tags|] == tags;
      NewTagsMeans(old(host.tags), tags);
    }

    /** Removes every listed tag the player has; `removed` is what was handed to the host's `removeTag`. */
    method RemoveTags(tags: seq<string>) returns (ghost removed: seq<string>)
      modifies host
      ensures host.tags == old(host.tags) - Elems(tags)
      ensures removed == PresentTags(old(host.tags), tags)
      ensures Elems(removed) == Elems(tags) * old(host.tags)
      ensures forall i :: 0 <= i < |removed| ==> removed[i] in old(host.tags) && removed[i] !in removed[..i]
      ensures host.tagCalls == old(host.tagCalls) + RemoveCalls(removed)
      ensures host.nameTag == old(host.nameTag) && host.commands == old(host.commands)
    {
      removed := [];
      for i := 0 to |tags|
        invariant host.tags == old(host.tags) - Elems(tags[..i])
        invariant removed == PresentTags(old(host.tags), tags[..i])
        invariant host.tagCalls == old(host.tagCalls) + RemoveCalls(removed)
        invariant host.nameTag == old(host.nameTag) && host.commands == old(host.commands)
      {
        if HasTag(tags[i]) {
          assert host.tags - {tags[i]} == old(host.tags) - Elems(tags[..i + 1])
            && removed + [tags[i]] == PresentTags(old(host.tags), tags[..i + 1]) by {
            PresentTagsStep(old(host.tags), tags, i);
          }
          RemoveTag(tags[i]);
          RemoveCallsSnoc(old(host.tagCalls), removed, tags[i]);
          removed := removed + [tags[i]];
        } else {
          assert host.tags == old(host.tags) - Elems(tags[..i + 1]) && removed == PresentTags(old(host.tags), tags[..i + 1]) by {
            PresentTagsStep(old(host.tags), tags, i);
          }
        }
      }
      assert tags[..|tags|] == tags;
      PresentTagsMeans(old(host.tags), tags);
    }

    /**
     * The flag loop: `hasAllTags` starts true and is cleared by every missing
     * tag. It reads the tag set and changes nothing.
     */
    method HasTags(tags: seq<string>) returns (hasAllTags: bool)
      ensures hasAllTags <==> Elems(tags) <= host.tags
      ensures hasAllTags == Every(tags, host.tags)
    {
      hasAllTags := true;
      for i := 0 to |tags|
        invariant hasAllTags <==> Elems(tags[..i]) <= host.tags
      {
        ElemsSnoc(tags, i);
        if HasTag(tags[i]) {
          continue;
        }
        hasAllTags := false;
      }
      assert tags[..|tags|] == tags;
    }
  }
}
