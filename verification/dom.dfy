/** The abstract DOM the engine works on: container elements with their
    children in visual order, notification elements with their parent and
    classes, the position registry, and the shape these keep at every step. */
module Dom {
  import opened Settings
  import opened Presentation
  import Queue

  /** A container element: the position it was created for, which fixes its
      class attribute (`ContainerClass(anchor)`), and its children in visual
      order. */
  datatype Box = Box(anchor: string, children: seq<nat>)

  /** The container's class attribute. */
  function ClassOf(b: Box): string {
    ContainerClass(b.anchor)
  }

  /** A notification element. `parent` is its container while attached;
      `hiding` and `shown` are the `hide` and `show` classes; `clamp` is the
      message's inline line clamp. What `show` renders once from the
      settings and never changes (theme variables, icon, progress bar) is a
      function of `config`: see Rendered. */
  datatype Note = Note(
    message: string,
    config: Config,
    parent: Option<nat>,
    hiding: bool,
    shown: bool,
    clamp: LineClamp)

  /** The element `show` builds for `message` inside container `c`: attached,
      neither hiding nor shown yet, clamped as its settings say. */
  function NewNote(message: string, config: Config, c: nat): Note {
    Note(message, config, Some(c), false, false, InitialClamp(config.maxLines))
  }

  /** What an element renders from its settings at creation: the theme's
      CSS variables, the icon and the progress bar's duration. */
  datatype Rendering = Rendering(themeVars: map<string, string>, glyph: Glyph, progress: Option<nat>)

  function Rendered(n: Note): (r: Rendering)
    ensures r.themeVars.Keys == ThemeTokens + n.config.customTheme.Keys
    ensures r.progress.Some? <==> n.config.progressBar == "show" && n.config.autoHide
  {
    Rendering(ResolveTheme(n.config.theme, n.config.customTheme),
              IconChoice(n.config.icon, n.config.kind),
              ProgressBar(n.config))
  }

  predicate NoDup(s: seq<nat>) {
    forall i, j :: 0 <= i < j < |s| ==> s[i] != s[j]
  }

  /** The child list after `x.remove()`: `x` gone, the others in order. */
  function Without(s: seq<nat>, x: nat): (r: seq<nat>)
    ensures forall y :: y in r <==> y in s && y != x
    ensures x !in s ==> r == s
    ensures NoDup(s) ==> NoDup(r)
    ensures NoDup(s) && x in s ==> |r| == |s| - 1
  {
    if s == [] then []
    else if s[0] == x then Without(s[1..], x)
    else
      assert s[0] !in s[1..] || !NoDup(s);
      [s[0]] + Without(s[1..], x)
  }

  /** Removing an element from a duplicate-free child list keeps the order of
      the others: the list closes over the gap the element leaves. */
  lemma {:induction false} WithoutKeepsOrder(s: seq<nat>, i: nat)
    requires NoDup(s) && i < |s|
    ensures Without(s, s[i]) == s[..i] + s[i + 1..]
  {
    if i == 0 {
      WithoutHead(s);
      assert s[..0] + s[1..] == s[1..];
    } else {
      var x := s[i];
      assert s[0] != x;
      NoDupTail(s);
      WithoutSkip(s, x);
      assert s[1..][i - 1] == x;
      WithoutKeepsOrder(s[1..], i - 1);
      SpliceCons(s, i);
    }
  }

  /** The first child of a duplicate-free list occurs nowhere else in it. */
  lemma WithoutHead(s: seq<nat>)
    requires NoDup(s) && s != []
    ensures Without(s, s[0]) == s[1..]
  {
    var tail := s[1..];
    assert s[0] !in tail by {
      forall k | 0 <= k < |tail|
        ensures tail[k] != s[0]
      {
        assert tail[k] == s[k + 1];
      }
    }
  }

  lemma WithoutSkip(s: seq<nat>, x: nat)
    requires s != [] && s[0] != x
    ensures Without(s, x) == [s[0]] + Without(s[1..], x)
  {
  }

  lemma SpliceCons(s: seq<nat>, i: nat)
    requires 0 < i < |s|
    ensures s[..i] + s[i + 1..] == [s[0]] + (s[1..][..i - 1] + s[1..][i..])
  {
  }

  lemma NoDupTail(s: seq<nat>)
    requires NoDup(s) && s != []
    ensures NoDup(s[1..])
  {
    var tail := s[1..];
    forall a, b | 0 <= a < b < |tail|
      ensures tail[a] != tail[b]
    {
      assert tail[a] == s[a + 1] && tail[b] == s[b + 1];
    }
  }

  /** The records after `_hideAndRemove` has been called on each of `ids`. */
  function MarkHiding(notes: map<nat, Note>, ids: seq<nat>): map<nat, Note> {
    map n | n in notes :: if n in ids then notes[n].(hiding := true) else notes[n]
  }

  /** `_hideAndRemove` on each of `ids` adds `hide` to exactly those
      elements that exist, keeps the ones already hiding hiding, and touches
      nothing else about any element. */
  lemma MarkHidingMarksOnly(notes: map<nat, Note>, ids: seq<nat>)
    ensures MarkHiding(notes, ids).Keys == notes.Keys
    ensures forall n :: n in notes ==>
              MarkHiding(notes, ids)[n].hiding == (notes[n].hiding || n in ids)
    ensures forall n :: n in notes ==>
              MarkHiding(notes, ids)[n].(hiding := notes[n].hiding) == notes[n]
  {
  }

  lemma MarkHidingNothing(notes: map<nat, Note>)
    ensures MarkHiding(notes, []) == notes
  {
  }

  /** Hiding one more element extends the marks by that element. */
  lemma MarkHidingStep(notes: map<nat, Note>, ids: seq<nat>, x: nat)
    requires x in notes
    ensures MarkHiding(notes, ids + [x]) == MarkHiding(notes, ids)[x := MarkHiding(notes, ids)[x].(hiding := true)]
  {
    var l, r := MarkHiding(notes, ids + [x]), MarkHiding(notes, ids)[x := MarkHiding(notes, ids)[x].(hiding := true)];
    assert l.Keys == r.Keys;
    forall n | n in l
      ensures l[n] == r[n]
    {
      assert n in ids + [x] <==> n in ids || n == x;
    }
  }

  /** The container `show` uses for `position`: the registered one, or a new
      one taking identity `next`. */
  function Slot(store: map<string, nat>, position: string, next: nat): nat {
    if position in store then store[position] else next
  }

  /** A second update of the same container supersedes the first. */
  lemma Supersede(boxes: map<nat, Box>, c: nat, first: Box, second: Box)
    ensures boxes[c := first][c := second] == boxes[c := second]
  {
  }

  /** Removing a container forgets whatever it was last updated to. */
  lemma DropForgetsUpdate(boxes: map<nat, Box>, c: nat, b: Box)
    ensures boxes[c := b] - {c} == boxes - {c}
  {
  }

  /** A new element, absent from a duplicate-free child list, can go first or
      last without creating a duplicate. */
  lemma PlaceNoDup(kids: seq<nat>, id: nat, position: string)
    requires NoDup(kids) && id !in kids
    ensures NoDup(Queue.Place(kids, id, position))
  {
    var front, back := [id] + kids, kids + [id];
    forall i, j | 0 <= i < j < |front|
      ensures front[i] != front[j]
    {
      if i > 0 {
        assert front[i] == kids[i - 1] && front[j] == kids[j - 1];
      } else {
        assert front[j] in kids;
      }
    }
    forall i, j | 0 <= i < j < |back|
      ensures back[i] != back[j]
    {
      if j < |kids| {
        assert back[i] == kids[i] && back[j] == kids[j];
      } else {
        assert back[i] in kids;
      }
    }
  }

  /** The registry after the loop of lines 267-269 has deleted every key that
      maps to container `c`. */
  function Unregistered(store: map<string, nat>, c: nat): map<string, nat> {
    map p | p in store && store[p] != c :: store[p]
  }

  /** Unregistering `c` forgets exactly the positions that named it, and
      keeps every other position's container. */
  lemma UnregisteredForgetsOnly(store: map<string, nat>, c: nat)
    ensures forall p :: p in Unregistered(store, c) <==> p in store && store[p] != c
    ensures forall p :: p in Unregistered(store, c) ==> Unregistered(store, c)[p] == store[p]
    ensures c !in Unregistered(store, c).Values
  {
  }

  /** The children of the container registered under `position`, or none. */
  function Kids(store: map<string, nat>, boxes: map<nat, Box>, position: string): seq<nat> {
    if position in store && store[position] in boxes then boxes[store[position]].children else []
  }

  /** The registry: every key names a live container created for that
      position (so carrying its class), every live container is registered, and under one
      position only. */
  ghost predicate RegistryOk(store: map<string, nat>, boxes: map<nat, Box>) {
    && (forall p :: p in store ==> store[p] in boxes && boxes[store[p]].anchor == p)
    && boxes.Keys <= store.Values
    && (forall p, q :: p in store && q in store && p != q ==> store[p] != store[q])
  }

  /** Children and parents agree, and only a detached element has no parent;
      a cleanup, the only thing that detaches, exists only after
      `_hideAndRemove`, so a detached element is hiding. */
  ghost predicate LinksOk(boxes: map<nat, Box>, notes: map<nat, Note>) {
    && (forall c :: c in boxes ==> NoDup(boxes[c].children))
    && (forall c, n :: c in boxes && n in boxes[c].children ==> n in notes && notes[n].parent == Some(c))
    && (forall n :: n in notes && notes[n].parent.Some? ==>
          notes[n].parent.value in boxes && n in boxes[notes[n].parent.value].children)
    && (forall n :: n in notes && notes[n].parent.None? ==> notes[n].hiding)
  }

  /** Element identities come from `next` and are never shared. */
  ghost predicate FreshOk(boxes: map<nat, Box>, notes: map<nat, Note>, next: nat) {
    && (forall c :: c in boxes ==> c < next)
    && (forall n :: n in notes ==> n < next)
    && boxes.Keys !! notes.Keys
  }

  ghost predicate Shaped(store: map<string, nat>, boxes: map<nat, Box>, notes: map<nat, Note>, next: nat) {
    RegistryOk(store, boxes) && LinksOk(boxes, notes) && FreshOk(boxes, notes, next)
  }

  ghost predicate NonEmpty(boxes: map<nat, Box>) {
    forall c :: c in boxes ==> boxes[c].children != []
  }

  /** Giving a container children keeps every container non-empty. */
  lemma FilledKeepsNonEmpty(boxes: map<nat, Box>, c: nat, b: Box)
    requires NonEmpty(boxes) && b.children != []
    ensures NonEmpty(boxes[c := b])
  {
  }

  /** Every child of a live container is a notification element. */
  lemma ChildrenAttached(store: map<string, nat>, boxes: map<nat, Box>, notes: map<nat, Note>, next: nat, c: nat)
    requires Shaped(store, boxes, notes, next) && c in boxes
    ensures forall k :: k in boxes[c].children ==> k in notes
  {
  }

  /** Only a hiding element is ever detached. */
  lemma DetachedIsHiding(store: map<string, nat>, boxes: map<nat, Box>, notes: map<nat, Note>, next: nat, id: nat)
    requires Shaped(store, boxes, notes, next) && id in notes && notes[id].parent.None?
    ensures notes[id].hiding
  {
  }

  /** Changing an element's classes or settings keeps the links, as long as
      its parent stays and a detached element stays hiding. */
  lemma RetagKeepsLinks(boxes: map<nat, Box>, notes: map<nat, Note>, id: nat, x: Note)
    requires LinksOk(boxes, notes) && id in notes
    requires x.parent == notes[id].parent && (x.parent.None? ==> x.hiding)
    ensures LinksOk(boxes, notes[id := x])
  {
  }

  lemma RetagKeepsShape(store: map<string, nat>, boxes: map<nat, Box>, notes: map<nat, Note>, next: nat,
                        id: nat, x: Note)
    requires Shaped(store, boxes, notes, next) && id in notes
    requires x.parent == notes[id].parent && (x.parent.None? ==> x.hiding)
    ensures Shaped(store, boxes, notes[id := x], next)
  {
    RetagKeepsLinks(boxes, notes, id, x);
    assert notes[id := x].Keys == notes.Keys;
  }

  /** Marking elements as hiding changes no link and leaves no detached
      element visible. */
  lemma MarkHidingKeepsLinks(boxes: map<nat, Box>, notes: map<nat, Note>, ids: seq<nat>)
    requires LinksOk(boxes, notes)
    ensures LinksOk(boxes, MarkHiding(notes, ids))
  {
    var notes' := MarkHiding(notes, ids);
    forall n | n in notes'
      ensures notes'[n].parent == notes[n].parent && (notes[n].hiding ==> notes'[n].hiding)
    {
    }
  }

  lemma MarkHidingKeepsShape(store: map<string, nat>, boxes: map<nat, Box>, notes: map<nat, Note>, next: nat,
                             ids: seq<nat>)
    requires Shaped(store, boxes, notes, next)
    ensures Shaped(store, boxes, MarkHiding(notes, ids), next)
  {
    MarkHidingKeepsLinks(boxes, notes, ids);
    assert MarkHiding(notes, ids).Keys == notes.Keys;
  }

  /** Registering a fresh container under a free position keeps the registry. */
  lemma CreateKeepsRegistry(store: map<string, nat>, boxes: map<nat, Box>, position: string, c: nat)
    requires RegistryOk(store, boxes) && position !in store && c !in boxes
    ensures RegistryOk(store[position := c], boxes[c := Box(position, [])])
  {
    var store', boxes' := store[position := c], boxes[c := Box(position, [])];
    assert store'[position] == c;
    forall d | d in boxes'
      ensures d in store'.Values
    {
      if d != c {
        var p :| p in store && store[p] == d;
        assert store'[p] == d;
      }
    }
  }

  lemma CreateKeepsLinks(boxes: map<nat, Box>, notes: map<nat, Note>, c: nat, anchor: string)
    requires LinksOk(boxes, notes) && c !in boxes
    ensures LinksOk(boxes[c := Box(anchor, [])], notes)
  {
  }

  lemma CreateKeepsShape(store: map<string, nat>, boxes: map<nat, Box>, notes: map<nat, Note>, next: nat,
                         position: string)
    requires Shaped(store, boxes, notes, next) && position !in store
    ensures Shaped(store[position := next], boxes[next := Box(position, [])], notes, next + 1)
  {
    CreateKeepsRegistry(store, boxes, position, next);
    CreateKeepsLinks(boxes, notes, next, position);
  }

  /** Replacing a container's child list keeps the registry. */
  lemma RechildKeepsRegistry(store: map<string, nat>, boxes: map<nat, Box>, c: nat, kids: seq<nat>)
    requires RegistryOk(store, boxes) && c in boxes
    ensures RegistryOk(store, boxes[c := boxes[c].(children := kids)])
  {
    assert boxes[c := boxes[c].(children := kids)].Keys == boxes.Keys;
  }

  /** Adding a fresh element to container `c`, anywhere in its child list,
      keeps the links. */
  lemma InsertKeepsLinks(boxes: map<nat, Box>, notes: map<nat, Note>, c: nat, id: nat, x: Note, placed: seq<nat>)
    requires LinksOk(boxes, notes) && c in boxes && id !in notes && x.parent == Some(c)
    requires NoDup(placed) && forall y :: y in placed <==> y in boxes[c].children || y == id
    ensures LinksOk(boxes[c := Box(boxes[c].anchor, placed)], notes[id := x])
  {
    var boxes', notes' := boxes[c := Box(boxes[c].anchor, placed)], notes[id := x];
    forall d, n | d in boxes' && n in boxes'[d].children
      ensures n in notes' && notes'[n].parent == Some(d)
    {
      if n != id {
        assert n in boxes[d].children;
      }
    }
    forall n | n in notes' && notes'[n].parent.Some?
      ensures notes'[n].parent.value in boxes' && n in boxes'[notes'[n].parent.value].children
    {
    }
  }

  /** Placing a fresh element first or last in container `c` keeps the shape. */
  lemma InsertKeepsShape(store: map<string, nat>, boxes: map<nat, Box>, notes: map<nat, Note>, next: nat,
                         c: nat, x: Note, position: string)
    requires Shaped(store, boxes, notes, next) && c in boxes && x.parent == Some(c)
    ensures Shaped(store, boxes[c := Box(boxes[c].anchor, Queue.Place(boxes[c].children, next, position))],
                   notes[next := x], next + 1)
  {
    var kids := boxes[c].children;
    assert forall k :: k in kids ==> k in notes;
    PlaceNoDup(kids, next, position);
    RechildKeepsRegistry(store, boxes, c, Queue.Place(kids, next, position));
    InsertKeepsLinks(boxes, notes, c, next, x, Queue.Place(kids, next, position));
  }

  /** Detaching a hiding element from its container keeps the links. */
  lemma DetachKeepsLinks(boxes: map<nat, Box>, notes: map<nat, Note>, id: nat)
    requires LinksOk(boxes, notes) && id in notes && notes[id].hiding && notes[id].parent.Some?
    ensures var c := notes[id].parent.value;
            LinksOk(boxes[c := Box(boxes[c].anchor, Without(boxes[c].children, id))],
                    notes[id := notes[id].(parent := None)])
  {
    var c := notes[id].parent.value;
    var boxes', notes' := boxes[c := Box(boxes[c].anchor, Without(boxes[c].children, id))],
                          notes[id := notes[id].(parent := None)];
    forall n | n in notes' && notes'[n].parent.Some?
      ensures notes'[n].parent.value in boxes' && n in boxes'[notes'[n].parent.value].children
    {
      assert n != id;
    }
  }

  /** Detaching an attached, hiding element from a container that keeps
      other children keeps the shape. */
  lemma DetachKeepsShape(store: map<string, nat>, boxes: map<nat, Box>, notes: map<nat, Note>, next: nat,
                         id: nat)
    requires Shaped(store, boxes, notes, next) && id in notes && notes[id].hiding && notes[id].parent.Some?
    ensures var c := notes[id].parent.value;
            Shaped(store, boxes[c := Box(boxes[c].anchor, Without(boxes[c].children, id))],
                   notes[id := notes[id].(parent := None)], next)
  {
    var c := notes[id].parent.value;
    RechildKeepsRegistry(store, boxes, c, Without(boxes[c].children, id));
    DetachKeepsLinks(boxes, notes, id);
    assert notes[id := notes[id].(parent := None)].Keys == notes.Keys;
  }

  /** Removing container `c` and unregistering it keeps the registry. */
  lemma ReleaseKeepsRegistry(store: map<string, nat>, boxes: map<nat, Box>, c: nat)
    requires RegistryOk(store, boxes)
    ensures RegistryOk(Unregistered(store, c), boxes - {c})
  {
    var store', boxes' := Unregistered(store, c), boxes - {c};
    UnregisteredForgetsOnly(store, c);
    forall d | d in boxes'
      ensures d in store'.Values
    {
      var p :| p in store && store[p] == d;
      assert store'[p] == d;
    }
  }

  /** Removing a container whose child list has become empty keeps the links. */
  lemma ReleaseKeepsLinks(boxes: map<nat, Box>, notes: map<nat, Note>, c: nat)
    requires LinksOk(boxes, notes) && c in boxes && boxes[c].children == []
    ensures LinksOk(boxes - {c}, notes)
  {
  }

  /** Removing an empty container and unregistering it keeps the shape. */
  lemma DropKeepsShape(store: map<string, nat>, boxes: map<nat, Box>, notes: map<nat, Note>, next: nat, c: nat)
    requires Shaped(store, boxes, notes, next) && c in boxes && boxes[c].children == []
    ensures Shaped(Unregistered(store, c), boxes - {c}, notes, next)
  {
    ReleaseKeepsRegistry(store, boxes, c);
    ReleaseKeepsLinks(boxes, notes, c);
  }
}
