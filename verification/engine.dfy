/** The notification engine of snacky.js over an abstract DOM: the position
    registry `containerStore` (line 9), the containers it points to with
    their children in visual order, and one record per notification element.
    Timers, `requestAnimationFrame` and `transitionend` are event methods
    the caller invokes. */
module Engine {
  import opened Settings
  import opened Presentation
  import opened Dom
  import Queue

  /** Where a click on a notification lands: on action button `index`, or
      anywhere else. */
  datatype ClickTarget = OnAction(index: nat) | Elsewhere

  /** The snacky IIFE's state. */
  class Snacky {
    var store: map<string, nat>
    var boxes: map<nat, Box>
    var notes: map<nat, Note>
    var nextId: nat

    /** The shape of the abstract DOM, true at every step of every operation. */
    ghost predicate Coherent()
      reads this
    {
      Shaped(store, boxes, notes, nextId)
    }

    /** Between operations, moreover, a container exists only while it has a child. */
    ghost predicate Valid()
      reads this
    {
      Coherent() && NonEmpty(boxes)
    }

    constructor ()
      ensures Valid()
      ensures store == map[] && boxes == map[] && notes == map[]
    {
      store, boxes, notes, nextId := map[], map[], map[], 0;
    }

    /** `_createContainer` (lines 251-258): the registered container, or a new
        empty one registered under `position`. */
    method CreateContainer(position: string) returns (c: nat)
      requires Coherent()
      modifies this`store, this`boxes, this`nextId
      ensures Coherent()
      ensures c == Slot(old(store), position, old(nextId))
      ensures store == old(store)[position := c]
      ensures boxes == old(boxes)[c := Box(position, Kids(old(store), old(boxes), position))]
      ensures nextId == if position in old(store) then old(nextId) else old(nextId) + 1
      ensures position in old(store) ==> store == old(store) && boxes == old(boxes)
      ensures ClassOf(boxes[c]) == ContainerClass(position)
    {
      if position in store {
        c := store[position];
        assert store[position := c] == store;
        assert boxes[c := Box(position, boxes[c].children)] == boxes;
        return;
      }
      CreateKeepsShape(store, boxes, notes, nextId, position);
      c := nextId;
      nextId := nextId + 1;
      boxes := boxes[c := Box(position, [])];
      store := store[position := c];
    }

    /** `_hideAndRemove` (lines 260-274): adds `hide` and arms the cleanup
        (see Cleanup). On an element already hiding it changes nothing. */
    method HideAndRemove(id: nat)
      requires id in notes
      modifies this`notes
      ensures notes == old(notes)[id := old(notes[id]).(hiding := true)]
      ensures old(notes[id]).hiding ==> notes == old(notes)
    {
      if notes[id].hiding {
        assert notes[id].(hiding := true) == notes[id];
        assert notes[id := notes[id]] == notes;
      }
      notes := notes[id := notes[id].(hiding := true)];
    }

    /** `[...container.children].forEach(_hideAndRemove)` (line 279). */
    method HideEach(kids: seq<nat>)
      requires forall k :: k in kids ==> k in notes
      modifies this`notes
      ensures notes == MarkHiding(old(notes), kids)
    {
      MarkHidingNothing(notes);
      var i := 0;
      while i < |kids|
        invariant 0 <= i <= |kids|
        invariant notes == MarkHiding(old(notes), kids[..i])
      {
        MarkHidingStep(old(notes), kids[..i], kids[i]);
        HideAndRemove(kids[i]);
        assert kids[..i + 1] == kids[..i] + [kids[i]];
        i := i + 1;
      }
      assert kids[..i] == kids;
    }

    /** `_handleQueue` (lines 276-295) on container `c`, with the empty-container
        guard on `replace-oldest` that the code lacks (see Queue.PlanAsWritten). */
    method HandleQueue(c: nat, config: Config)
      requires c in boxes && forall k :: k in boxes[c].children ==> k in notes
      modifies this`notes
      ensures notes == MarkHiding(old(notes),
                Queue.Victims(old(boxes[c].children), config.queueStrategy, config.maxVisible, config.position))
    {
      var kids := boxes[c].children;
      var count := |kids|;
      if config.queueStrategy == "replace-all" {
        HideEach(kids);
        return;
      }
      if config.queueStrategy == "collapse" && count > 0 {
        HideEach([kids[0]]);
        return;
      }
      if count >= config.maxVisible {
        if config.queueStrategy == "replace-oldest" && count > 0 {
          var target := if Queue.IsTop(config.position) then kids[count - 1] else kids[0];
          HideEach([target]);
        }
      }
    }

    /** Lines 394-395: the new element goes first under a top anchor and last
        otherwise; no other child moves. */
    method Insert(c: nat, message: string, config: Config) returns (id: nat)
      requires Coherent() && c in boxes
      modifies this`boxes, this`notes, this`nextId
      ensures Coherent()
      ensures id == old(nextId) && nextId == old(nextId) + 1
      ensures boxes == old(boxes)[c := Box(old(boxes[c]).anchor, Queue.Place(old(boxes[c].children), id, config.position))]
      ensures notes == old(notes)[id := NewNote(message, config, c)]
    {
      id := nextId;
      InsertKeepsShape(store, boxes, notes, nextId, c, NewNote(message, config, c), config.position);
      nextId := nextId + 1;
      notes := notes[id := NewNote(message, config, c)];
      boxes := boxes[c := Box(boxes[c].anchor, Queue.Place(boxes[c].children, id, config.position))];
    }

    /** `show` (lines 303-405) without its presentation side effects: resolve
        the settings, get or create the container, run the queue policy, then
        insert the new element. Its identity is returned so that the caller
        can deliver its later events. */
    method Show(message: string, options: Options) returns (id: nat)
      requires Valid()
      modifies this
      ensures Valid()
      ensures var config := Merge(options);
              var c := Slot(old(store), config.position, old(nextId));
              var before := Kids(old(store), old(boxes), config.position);
              && store == old(store)[config.position := c]
              && boxes == old(boxes)[c := Box(config.position, Queue.Place(before, id, config.position))]
              && notes == MarkHiding(old(notes), Queue.Victims(before, config.queueStrategy, config.maxVisible, config.position))
                            [id := NewNote(message, config, c)]
      ensures id !in old(notes) && id !in old(boxes)
      ensures id in notes && !notes[id].hiding
    {
      id := Present(message, Merge(options));
    }

    /** The rest of `show` once its settings are resolved: the container
        registered under the position, or a new one; the queue policy on its
        children as they were; the new element placed among them. */
    method Present(message: string, config: Config) returns (id: nat)
      requires Valid()
      modifies this
      ensures Valid()
      ensures var c := Slot(old(store), config.position, old(nextId));
              var before := Kids(old(store), old(boxes), config.position);
              && store == old(store)[config.position := c]
              && boxes == old(boxes)[c := Box(config.position, Queue.Place(before, id, config.position))]
              && notes == MarkHiding(old(notes), Queue.Victims(before, config.queueStrategy, config.maxVisible, config.position))
                            [id := NewNote(message, config, c)]
      ensures id !in old(notes) && id !in old(boxes)
      ensures id in notes && !notes[id].hiding
    {
      ghost var before := Kids(store, boxes, config.position);
      var c := CreateContainer(config.position);
      ChildrenAttached(store, boxes, notes, nextId, c);
      MarkHidingKeepsShape(store, boxes, notes, nextId, Queue.Victims(before, config.queueStrategy, config.maxVisible, config.position));
      HandleQueue(c, config);
      id := Insert(c, message, config);
      Supersede(old(boxes), c, Box(config.position, before), Box(config.position, Queue.Place(before, id, config.position)));
      FilledKeepsNonEmpty(old(boxes), c, Box(config.position, Queue.Place(before, id, config.position)));
    }

    /** The `requestAnimationFrame` callback (line 400): adds `show`. */
    method AnimationFrame(id: nat)
      requires Valid() && id in notes
      modifies this`notes
      ensures Valid()
      ensures notes == old(notes)[id := old(notes[id]).(shown := true)]
    {
      RetagKeepsShape(store, boxes, notes, nextId, id, notes[id].(shown := true));
      notes := notes[id := notes[id].(shown := true)];
    }

    /** The auto-hide timeout (lines 402-404), armed only under `autoHide` and
        never cancelled: on an element already gone it changes nothing. */
    method AutoHideFired(id: nat)
      requires Valid() && id in notes && notes[id].config.autoHide
      modifies this`notes
      ensures Valid()
      ensures notes == old(notes)[id := old(notes[id]).(hiding := true)]
      ensures old(notes[id]).parent.None? ==> notes == old(notes)
    {
      RetagKeepsShape(store, boxes, notes, nextId, id, notes[id].(hiding := true));
      if notes[id].parent.None? {
        DetachedIsHiding(store, boxes, notes, nextId, id);
      }
      HideAndRemove(id);
    }

    /** A click on notification `id`: the expand listener (lines 367-376),
        then the action listener (lines 378-391). Returns whether the
        action's `onClick` was called. */
    method Click(id: nat, target: ClickTarget) returns (called: bool)
      requires Valid() && id in notes
      requires target.OnAction? ==> target.index < |notes[id].config.actions|
      modifies this`notes
      ensures Valid()
      ensures var n := old(notes[id]);
              var cfg := n.config;
              && called == (target.OnAction? && InvokesOnClick(cfg.actions, target.index))
              && notes == old(notes)[id := n.(
                   clamp := if cfg.expandable && target.Elsewhere? then ToggleClamp(n.clamp, cfg.maxLines) else n.clamp,
                   hiding := n.hiding || (target.OnAction? && ShouldClose(cfg.actions, target.index, cfg.closeOnAction)))]
    {
      var n := notes[id];
      var cfg := n.config;
      called := false;
      if target.Elsewhere? {
        if cfg.expandable {
          RetagKeepsShape(store, boxes, notes, nextId, id, n.(clamp := ToggleClamp(n.clamp, cfg.maxLines)));
          notes := notes[id := n.(clamp := ToggleClamp(n.clamp, cfg.maxLines))];
          return;
        }
      } else if |cfg.actions| > 0 {
        called := InvokesOnClick(cfg.actions, target.index);
        if ShouldClose(cfg.actions, target.index, cfg.closeOnAction) {
          RetagKeepsShape(store, boxes, notes, nextId, id, n.(hiding := true));
          HideAndRemove(id);
          return;
        }
      }
      assert notes[id := n.(clamp := n.clamp, hiding := n.hiding)] == notes;
    }

    /** The loop of lines 267-269: delete every registry key naming `c`. */
    method Unregister(c: nat)
      modifies this`store
      ensures store == Unregistered(old(store), c)
    {
      var keys := store.Keys;
      ghost var before := store;
      while keys != {}
        invariant keys <= before.Keys
        invariant store == map p | p in before && (p in keys || before[p] != c) :: before[p]
        decreases keys
      {
        var p :| p in keys;
        if store[p] == c {
          store := store - {p};
        }
        keys := keys - {p};
      }
    }

    /** `snackbar.remove()` (line 264): the element leaves its container's
        child list, the others keep their order. */
    method Detach(id: nat)
      requires Coherent() && id in notes && notes[id].hiding && notes[id].parent.Some?
      modifies this`boxes, this`notes
      ensures Coherent()
      ensures var c := old(notes[id]).parent.value;
              && notes == old(notes)[id := old(notes[id]).(parent := None)]
              && boxes == old(boxes)[c := Box(old(boxes[c]).anchor, Without(old(boxes[c].children), id))]
    {
      var c := notes[id].parent.value;
      DetachKeepsShape(store, boxes, notes, nextId, id);
      notes := notes[id := notes[id].(parent := None)];
      boxes := boxes[c := Box(boxes[c].anchor, Without(boxes[c].children, id))];
    }

    /** Lines 265-269: an emptied container is removed from the page and
        from the registry. */
    method Discard(c: nat)
      requires Coherent() && c in boxes && boxes[c].children == []
      modifies this`boxes, this`store
      ensures Coherent()
      ensures boxes == old(boxes) - {c} && store == Unregistered(old(store), c)
    {
      DropKeepsShape(store, boxes, notes, nextId, c);
      boxes := boxes - {c};
      Unregister(c);
    }

    /** The `cleanup` closure (lines 262-271), for either of its two armed
        triggers (`transitionend`, line 272, and the 450 ms timeout, line 273).
        It detaches the element if it still has a parent, and removes and
        unregisters the container it leaves empty. Once the element is
        detached every later cleanup changes nothing. */
    method Cleanup(id: nat)
      requires Valid() && id in notes && notes[id].hiding
      modifies this`store, this`boxes, this`notes
      ensures Valid()
      ensures id in notes && notes[id].parent.None?
      ensures old(notes[id]).parent.None? ==>
                store == old(store) && boxes == old(boxes) && notes == old(notes)
      ensures old(notes[id]).parent.Some? ==>
                var c := old(notes[id]).parent.value;
                var rest := Without(old(boxes[c].children), id);
                && notes == old(notes)[id := old(notes[id]).(parent := None)]
                && (rest == [] ==> boxes == old(boxes) - {c} && store == Unregistered(old(store), c))
                && (rest != [] ==> boxes == old(boxes)[c := Box(old(boxes[c]).anchor, rest)] && store == old(store))
    {
      if notes[id].parent.Some? {
        var c := notes[id].parent.value;
        Detach(id);
        if boxes[c].children == [] {
          DropForgetsUpdate(old(boxes), c, boxes[c]);
          Discard(c);
        } else {
          FilledKeepsNonEmpty(old(boxes), c, boxes[c]);
        }
      }
    }

    /** How many children the container registered under `position` has;
        zero exactly when no container is registered there. */
    method Occupancy(position: string) returns (count: nat)
      requires Valid()
      ensures count > 0 <==> position in store
      ensures position in store ==> count == |boxes[store[position]].children|
    {
      count := if position in store then |boxes[store[position]].children| else 0;
    }
  }
}
