/**
 * The TypeScript `Player` wrapper: a host player plus the name captured at
 * construction and a display name the wrapper keeps itself.
 */
module PlayerTs {
  import opened Wrappers
  import opened Host
  import opened Tags

  /** The reason `destroy` uses when none is given. */
  const DestroyReason := "Instance of Player was destroyed."
  /** The reason `kick` uses when none is given. */
  const KickReason := "You have been kicked from the game!"

  /** The display-name rule: the colour code in front of the name when it is truthy (non-empty). */
  function ColoredName(name: string, color: string): (r: string)
  {
    if color != "" then color + name else name
  }

  /** The console command `destroy` runs: `kick "<displayName>" <reason>`. */
  function KickCommand(displayName: string, reason: string): string
  {
    "kick \"" + displayName + "\" " + reason
  }

  /** Splits at the first double quote: the text before it and the text after it. */
  function SplitAtQuote(s: string): Option<(string, string)>
    decreases |s|
  {
    if s == [] then None
    else if s[0] == '"' then Some(([], s[1..]))
    else match SplitAtQuote(s[1..])
      case None => None
      case Some(parts) => Some(([s[0]] + parts.0, parts.1))
  }

  /**
   * How a `kick "<target>" <reason>` command reads: the target runs to the
   * first double quote after the opening one, and the reason follows a space.
   */
  function ParseKick(command: string): Option<(string, string)>
  {
    if |command| < 6 || command[..6] != "kick \"" then None
    else match SplitAtQuote(command[6..])
      case None => None
      case Some(parts) =>
        if |parts.1| == 0 || parts.1[0] != ' ' then None else Some((parts.0, parts.1[1..]))
  }

  lemma {:induction false} SplitAtQuoteOf(target: string, rest: string)
    requires '"' !in target
    ensures SplitAtQuote(target + "\"" + rest) == Some((target, rest))
    decreases |target|
  {
    var s := target + "\"" + rest;
    if target == [] {
      assert s == "\"" + rest;
    } else {
      assert s[0] == target[0];
      assert s[1..] == target[1..] + "\"" + rest;
      SplitAtQuoteOf(target[1..], rest);
      assert [target[0]] + target[1..] == target;
    }
  }

  /** For a display name without double quotes, the command names exactly that player and reason. */
  lemma KickCommandReadsBack(displayName: string, reason: string)
    requires '"' !in displayName
    ensures ParseKick(KickCommand(displayName, reason)) == Some((displayName, reason))
  {
    var c := KickCommand(displayName, reason);
    assert c[..6] == "kick \"";
    assert c[6..] == displayName + "\"" + (" " + reason);
    SplitAtQuoteOf(displayName, " " + reason);
  }

  /** A double quote inside the display name makes two different kicks the same command. */
  lemma KickCommandAmbiguous()
    ensures KickCommand("a\" b", "c") == KickCommand("a", "b\" c")
    ensures ParseKick(KickCommand("a\" b", "c")) == Some(("a", "b\" c"))
  {
    KickCommandReadsBack("a", "b\" c");
  }

  class Player {
    /** The wrapped host player. */
    const host: HostPlayer
    /** The name captured at construction. */
    const name: string
    /** The display name, kept by the wrapper. */
    var displayName: string

    constructor (player: HostPlayer)
      ensures host == player && name == player.name && displayName == player.nameTag
      ensures GetName() == player.name && GetDisplayName() == player.nameTag
    {
      host := player;
      name := player.name;
      displayName := player.nameTag;
    }

    /** Kicks the player with the given reason. */
    method Destroy(reason: string := DestroyReason)
      modifies host
      ensures host.commands == old(host.commands) + [KickCommand(displayName, reason)]
      ensures host.tags == old(host.tags) && host.nameTag == old(host.nameTag)
      ensures host.tagCalls == old(host.tagCalls)
    {
      host.RunCommand(KickCommand(displayName, reason));
    }

    function GetName(): string
    {
      name
    }

    function GetDisplayName(): string
      reads this
    {
      displayName
    }

    method SetDisplayName(name: string, color: string)
      modifies this, host
      ensures displayName == ColoredName(name, color) && host.nameTag == displayName
      ensures host.tags == old(host.tags) && host.commands == old(host.commands)
      ensures host.tagCalls == old(host.tagCalls)
    {
      displayName := ColoredName(name, color);
      host.nameTag := displayName;
    }

    /** `hasTag`: asks the host whether the player carries the tag. */
    predicate HasTag(tag: string)
      reads host
      ensures HasTag(tag) <==> tag in host.tags
    {
      host.HasTag(tag)
    }

    method AddTag(tag: string)
      modifies host
      ensures host.tags == old(host.tags) + {tag}
      ensures host.tagCalls == old(host.tagCalls) + [AddCall(tag)]
      ensures host.nameTag == old(host.nameTag) && host.commands == old(host.commands)
    {
      host.AddTag(tag);
    }

    method RemoveTag(tag: string)
      modifies host
      ensures host.tags == old(host.tags) - {tag}
      ensures host.tagCalls == old(host.tagCalls) + [RemoveCall(tag)]
      ensures host.nameTag == old(host.nameTag) && host.commands == old(host.commands)
    {
      host.RemoveTag(tag);
    }

    /**
     * Adds every listed tag the player lacks. `added` lists the tags handed to
     * the host's `addTag`, in order (the host's call log grows by exactly those
     * calls): each was missing, and none is handed over twice.
     */
    method AddTags(tags: seq<string>) returns (ghost added: seq<string>)
      modifies host
      ensures host.tags == old(host.tags) + Elems(tags)
      ensures HasTags(tags)
      ensures added == NewTags(old(host.tags), tags)
      ensures Elems(added) == Elems(tags) - old(host.tags)
      ensures forall i :: 0 <= i < |added| ==> added[i] !in old(host.tags) && added[i] !in added[..i]
      ensures host.tagCalls == old(host.tagCalls) + AddCalls(added)
      ensures host.nameTag == old(host.nameTag) && host.commands == old(host.commands)
    {
      added := [];
      for i := 0 to |tags|
        invariant host.tags == old(host.tags) + Elems(tags[..i])
        invariant added == NewTags(old(host.tags), tags[..i])
        invariant host.tagCalls == old(host.tagCalls) + AddCalls(added)
        invariant host.nameTag == old(host.nameTag) && host.commands == old(host.commands)
      {
        if HasTag(tags[i]) {
          assert host.tags == old(host.tags) + Elems(tags[..i + 1]) && added == NewTags(old(host.tags), tags[..i + 1]) by {
            NewTagsStep(old(host.tags), tags, i);
          }
          continue;
        }
        assert host.tags + {tags[i]} == old(host.tags) + Elems(tags[..i + 1])
          && added + [tags[i]] == NewTags(old(host.tags), tags[..i + 1]) by {
          NewTagsStep(old(host.tags), tags, i);
        }
        AddTag(tags[i]);
        AddCallsSnoc(old(host.tagCalls), added, tags[i]);
        added := added + [tags[i]];
      }
      assert tags[..|tags|] == tags;
      NewTagsMeans(old(host.tags), tags);
    }

    /**
     * Removes every listed tag the player has. `removed` lists the tags handed
     * to the host's `removeTag`, in order (the host's call log grows by exactly
     * those calls): each was present, and none is handed over twice.
     */
    method RemoveTags(tags: seq<string>) returns (ghost removed: seq<string>)
      modifies host
      ensures host.tags == old(host.tags) - Elems(tags)
      ensures removed == PresentTags(old(host.tags), tags)
      ensures Elems(removed) == Elems(tags) * old(host.tags)
      ensures forall i :: 0 <= i < |removed| ==> removed[i] in old(host.tags) && removed[i] !in removed[..i]
      ensures host.tagCalls == old(host.tagCalls) + RemoveCalls(removed)
      ensures host.nameTag == old(host.nameTag) && host.commands == old(host.commands)
    {
      removed := [];
      for i := 0 to |tags|
        invariant host.tags == old(host.tags) - Elems(tags[..i])
        invariant removed == PresentTags(old(host.tags), tags[..i])
        invariant host.tagCalls == old(host.tagCalls) + RemoveCalls(removed)
        invariant host.nameTag == old(host.nameTag) && host.commands == old(host.commands)
      {
        if HasTag(tags[i]) {
          assert host.tags - {tags[i]} == old(host.tags) - Elems(tags[..i + 1])
            && removed + [tags[i]] == PresentTags(old(host.tags), tags[..i + 1]) by {
            PresentTagsStep(old(host.tags), tags, i);
          }
          RemoveTag(tags[i]);
          RemoveCallsSnoc(old(host.tagCalls), removed, tags[i]);
          removed := removed + [tags[i]];
        } else {
          assert host.tags == old(host.tags) - Elems(tags[..i + 1]) && removed == PresentTags(old(host.tags), tags[..i + 1]) by {
            PresentTagsStep(old(host.tags), tags, i);
          }
        }
      }
      assert tags[..|tags|] == tags;
      PresentTagsMeans(old(host.tags), tags);
    }

    /** `tags.every(tag => this.hasTag(tag))`. */
    function HasTags(tags: seq<string>): (r: bool)
      reads host
      ensures r <==> Elems(tags) <= host.tags
      ensures tags == [] ==> r
    {
      Every(tags, host.tags)
    }

    /** Kicks the player with the given reason, through `destroy`. */
    method Kick(reason: string := KickReason)
      modifies host
      ensures host.commands == old(host.commands) + [KickCommand(displayName, reason)]
      ensures host.tags == old(host.tags) && host.nameTag == old(host.nameTag)
      ensures host.tagCalls == old(host.tagCalls)
    {
      Destroy(reason);
    }
  }
}
