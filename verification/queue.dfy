/** The queue policy of `_handleQueue` (snacky.js lines 276-295): which of a
    container's current children a new `show` sends into their exit, before
    the new element is inserted. Children are listed in visual (DOM) order. */
module Queue {

  /** `position.startsWith('top')`: such positions prepend new notifications. */
  predicate IsTop(position: string)
    ensures IsTop(position) <==> |position| >= 3 && position[..3] == "top"
    ensures |position| > 0 && position[0] != 't' ==> !IsTop(position)
  {
    "top" <= position
  }

  /** The children `_handleQueue` hides, in the order it hides them. The
      `replace-oldest` branch acts only on a non-empty container; see
      PlanAsWritten for the code as written. */
  function Victims(children: seq<nat>, strategy: string, maxVisible: int, position: string): (victims: seq<nat>)
    ensures forall v :: v in victims ==> v in children
    ensures |victims| <= 1 || victims == children
    ensures children == [] ==> victims == []
  {
    var count := |children|;
    if strategy == "replace-all" then children
    else if strategy == "collapse" && count > 0 then [children[0]]
    else if count >= maxVisible && strategy == "replace-oldest" && count > 0 then
      (if IsTop(position) then [children[count - 1]] else [children[0]])
    else []
  }

  /** `stack`, and every strategy name the code does not recognise, evicts
      nothing, however full the container is. */
  lemma StackEvictsNothing(children: seq<nat>, strategy: string, maxVisible: int, position: string)
    requires strategy != "replace-all" && strategy != "collapse" && strategy != "replace-oldest"
    ensures Victims(children, strategy, maxVisible, position) == []
  {
  }

  /** `replace-all` hides every current child, those already hiding included. */
  lemma ReplaceAllEvictsEveryChild(children: seq<nat>, maxVisible: int, position: string)
    ensures Victims(children, "replace-all", maxVisible, position) == children
  {
  }

  /** `collapse` hides exactly the first child in visual order whenever there
      is one, whatever `maxVisible` is. */
  lemma CollapseEvictsFirst(children: seq<nat>, maxVisible: int, position: string)
    ensures children != [] ==> Victims(children, "collapse", maxVisible, position) == [children[0]]
    ensures children == [] ==> Victims(children, "collapse", maxVisible, position) == []
  {
  }

  /** `replace-oldest` hides one child exactly when the container is at or
      over capacity: the last child under a top anchor, the first otherwise. */
  lemma ReplaceOldestAtCapacity(children: seq<nat>, maxVisible: int, position: string)
    ensures Victims(children, "replace-oldest", maxVisible, position) != [] <==>
              children != [] && |children| >= maxVisible
    ensures children != [] && |children| >= maxVisible && IsTop(position) ==>
              Victims(children, "replace-oldest", maxVisible, position) == [children[|children| - 1]]
    ensures children != [] && |children| >= maxVisible && !IsTop(position) ==>
              Victims(children, "replace-oldest", maxVisible, position) == [children[0]]
  {
  }

  /** Under `replace-oldest` a container holding at most `maxVisible`
      children holds at most `maxVisible` once the evicted one is gone and
      the new one is in. */
  lemma ReplaceOldestKeepsCapacity(children: seq<nat>, maxVisible: int, position: string)
    requires 1 <= maxVisible && |children| <= maxVisible
    ensures |children| - |Victims(children, "replace-oldest", maxVisible, position)| + 1 <= maxVisible
  {
  }

  /** A child chosen by `replace-oldest` stays a child, hiding, until its
      cleanup runs. A second `show` before then, into a container still at
      capacity, picks the same child again: the new element sits at the other
      end. That child is already hiding, so nothing new is hidden. */
  lemma OldestStaysOldest(children: seq<nat>, id: nat, maxVisible: int, position: string)
    requires children != [] && |children| >= maxVisible
    ensures Victims(Place(children, id, position), "replace-oldest", maxVisible, position) ==
            Victims(children, "replace-oldest", maxVisible, position)
  {
  }

  /** What `_handleQueue` as written does: hide the listed children, or throw
      a TypeError by calling `_hideAndRemove(null)`. */
  datatype Plan = Evict(victims: seq<nat>) | TypeError

  /** The branches of lines 276-295 as written: `replace-oldest` takes
      `lastElementChild` or `firstElementChild` without checking that the
      container has children, and both are null on an empty container. */
  function PlanAsWritten(children: seq<nat>, strategy: string, maxVisible: int, position: string): Plan {
    var count := |children|;
    if strategy == "replace-all" then Evict(children)
    else if strategy == "collapse" && count > 0 then Evict([children[0]])
    else if count >= maxVisible then
      (if strategy != "replace-oldest" then Evict([])
       else if count == 0 then TypeError
       else if IsTop(position) then Evict([children[count - 1]])
       else Evict([children[0]]))
    else Evict([])
  }

  /** The code as written throws exactly for `replace-oldest` on an empty
      container with `maxVisible <= 0`, and otherwise hides what Victims says. */
  lemma AsWrittenDiffersOnlyWhenEmpty(children: seq<nat>, strategy: string, maxVisible: int, position: string)
    ensures PlanAsWritten(children, strategy, maxVisible, position) == TypeError <==>
              strategy == "replace-oldest" && children == [] && maxVisible <= 0
    ensures PlanAsWritten(children, strategy, maxVisible, position) != TypeError ==>
              PlanAsWritten(children, strategy, maxVisible, position) ==
              Evict(Victims(children, strategy, maxVisible, position))
  {
  }

  /** The first `show` at a position with `queueStrategy: 'replace-oldest'`
      and `maxVisible: 0` throws after the new container has been registered. */
  lemma FreshContainerThrows(position: string)
    ensures PlanAsWritten([], "replace-oldest", 0, position) == TypeError
    ensures Victims([], "replace-oldest", 0, position) == []
  {
  }

  /** The child list after lines 394-395: the new element goes first under a
      top anchor and last otherwise, and no other child moves. */
  function Place(children: seq<nat>, id: nat, position: string): (placed: seq<nat>)
    ensures |placed| == |children| + 1
    ensures IsTop(position) ==> placed[0] == id && placed[1..] == children
    ensures !IsTop(position) ==> placed[|children|] == id && placed[..|children|] == children
    ensures forall y :: y in placed <==> y in children || y == id
  {
    if IsTop(position) then [id] + children else children + [id]
  }
}
