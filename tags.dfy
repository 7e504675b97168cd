/** Tag lists as the wrappers receive them, and the "has every tag" test. */
module Tags {

  /** The tags a list names, ignoring order and repetition. */
  function Elems(tags: seq<string>): set<string>
  {
    set t | t in tags
  }

  lemma ElemsSnoc(tags: seq<string>, i: nat)
    requires i < |tags|
    ensures Elems(tags[..i + 1]) == Elems(tags[..i]) + {tags[i]}
  {
  }

  lemma ElemsAppend(tags: seq<string>, tag: string)
    ensures Elems(tags + [tag]) == Elems(tags) + {tag}
  {
  }

  /** No entry of `s` repeats an earlier one. */
  predicate NoRepeats(s: seq<string>)
  {
    forall j :: 0 <= j < |s| ==> s[j] !in s[..j]
  }

  lemma NoRepeatsSnoc(s: seq<string>, tag: string)
    requires NoRepeats(s) && tag !in Elems(s)
    ensures NoRepeats(s + [tag])
  {
    var s' := s + [tag];
    assert s'[..|s|] == s;
    forall j | 0 <= j < |s'|
      ensures s'[j] !in s'[..j]
    {
      if j < |s| {
        assert s'[..j] == s[..j];
      }
    }
  }

  /**
   * The tags of `tags` a player that had `have0` lacks, in list order and
   * each at its first occurrence: the ones a front-to-back loop hands to
   * `addTag`.
   */
  function NewTags(have0: set<string>, tags: seq<string>): seq<string>
    decreases |tags|
  {
    if tags == [] then []
    else
      var init, t := tags[..|tags| - 1], tags[|tags| - 1];
      NewTags(have0, init) + (if t in have0 + Elems(init) then [] else [t])
  }

  /**
   * The tags of `tags` a player that had `have0` has, in list order and each
   * at its first occurrence: the ones a front-to-back loop hands to
   * `removeTag`.
   */
  function PresentTags(have0: set<string>, tags: seq<string>): seq<string>
    decreases |tags|
  {
    if tags == [] then []
    else
      var init, t := tags[..|tags| - 1], tags[|tags| - 1];
      PresentTags(have0, init) + (if t in have0 && t !in Elems(init) then [t] else [])
  }

  lemma NewTagsStep(have0: set<string>, tags: seq<string>, i: nat)
    requires i < |tags|
    ensures NewTags(have0, tags[..i + 1]) ==
      NewTags(have0, tags[..i]) + (if tags[i] in have0 + Elems(tags[..i]) then [] else [tags[i]])
    ensures Elems(tags[..i + 1]) == Elems(tags[..i]) + {tags[i]}
  {
    assert tags[..i + 1][..i] == tags[..i];
  }

  lemma PresentTagsStep(have0: set<string>, tags: seq<string>, i: nat)
    requires i < |tags|
    ensures PresentTags(have0, tags[..i + 1]) ==
      PresentTags(have0, tags[..i]) + (if tags[i] in have0 && tags[i] !in Elems(tags[..i]) then [tags[i]] else [])
    ensures Elems(tags[..i + 1]) == Elems(tags[..i]) + {tags[i]}
  {
    assert tags[..i + 1][..i] == tags[..i];
  }

  /** The tags handed to `addTag` are exactly the missing listed ones, each once. */
  lemma {:induction false} NewTagsMeans(have0: set<string>, tags: seq<string>)
    ensures Elems(NewTags(have0, tags)) == Elems(tags) - have0
    ensures NoRepeats(NewTags(have0, tags))
    ensures forall i :: 0 <= i < |NewTags(have0, tags)| ==> NewTags(have0, tags)[i] !in have0
    decreases |tags|
  {
    if tags != [] {
      var init, t := tags[..|tags| - 1], tags[|tags| - 1];
      NewTagsMeans(have0, init);
      assert tags == init + [t];
      ElemsAppend(init, t);
      if t !in have0 + Elems(init) {
        assert NewTags(have0, tags) == NewTags(have0, init) + [t];
        NoRepeatsSnoc(NewTags(have0, init), t);
        ElemsAppend(NewTags(have0, init), t);
      } else {
        assert NewTags(have0, tags) == NewTags(have0, init);
      }
    }
  }

  /** The tags handed to `removeTag` are exactly the present listed ones, each once. */
  lemma {:induction false} PresentTagsMeans(have0: set<string>, tags: seq<string>)
    ensures Elems(PresentTags(have0, tags)) == Elems(tags) * have0
    ensures NoRepeats(PresentTags(have0, tags))
    ensures forall i :: 0 <= i < |PresentTags(have0, tags)| ==> PresentTags(have0, tags)[i] in have0
    decreases |tags|
  {
    if tags != [] {
      var init, t := tags[..|tags| - 1], tags[|tags| - 1];
      PresentTagsMeans(have0, init);
      assert tags == init + [t];
      ElemsAppend(init, t);
      if t in have0 && t !in Elems(init) {
        assert PresentTags(have0, tags) == PresentTags(have0, init) + [t];
        NoRepeatsSnoc(PresentTags(have0, init), t);
        ElemsAppend(PresentTags(have0, init), t);
      } else {
        assert PresentTags(have0, tags) == PresentTags(have0, init);
      }
    }
  }

  /** `tags.every(tag => tag ∈ have)`, checking from the front and stopping at the first miss. */
  function Every(tags: seq<string>, have: set<string>): (r: bool)
    ensures r <==> Elems(tags) <= have
    ensures r <==> forall i :: 0 <= i < |tags| ==> tags[i] in have
    decreases |tags|
  {
    if tags == [] then true
    else if tags[0] !in have then false
    else
      var rest := Every(tags[1..], have);
      assert forall t :: t in tags ==> t == tags[0] || t in tags[1..];
      rest
  }
}
