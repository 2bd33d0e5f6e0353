// The game loop's input handling: the set of pressed keys read by the control
// systems, the quit flag, the window size, and the synthesis of a click from a
// left mouse-down and mouse-up at the same pixel. Events for the scene go to its
// root and travel down the tree in pre-order.

module Input {
  import opened Options
  import opened Vectors

  /** The scene's input events (Library's Event). */
  datatype Event =
    | MouseDown(position: Vector, time: real)
    | MouseUp(position: Vector, time: real)
    | Click(at: Vector)

  /** The SDL events the loop distinguishes. */
  datatype SdlEvent =
    | Quit
    | Window(sizeChanged: bool, data1: int, data2: int)
    | KeyDown(sym: int)
    | KeyUp(sym: int)
    | MouseButtonDown(button: int, x: int, y: int, timestamp: nat)
    | MouseButtonUp(button: int, x: int, y: int, timestamp: nat)
    | Other

  /** SDLK_ESCAPE */
  const Escape: int := 27
  /** SDL_BUTTON_LEFT */
  const LeftButton: int := 1

  /** The loop's variables that events change. */
  datatype LoopState = LoopState(keysDown: set<int>, prevMouseDown: Option<(int, int)>, quit: bool, width: int, height: int)

  /** `isKeyDown`, the closure handed to the control systems. */
  predicate IsKeyDown(s: LoopState, key: int) {
    key in s.keysDown
  }

  function PixelVector(x: int, y: int): Vector {
    Vector(x as real, y as real)
  }

  function IsLeftUp(e: SdlEvent): bool {
    e.MouseButtonUp? && e.button == LeftButton
  }

  function IsLeftDown(e: SdlEvent): bool {
    e.MouseButtonDown? && e.button == LeftButton
  }

  /** The state after one SDL event and the events pushed to the scene root, in order. */
  function Dispatch(s: LoopState, e: SdlEvent): (r: (LoopState, seq<Event>))
    ensures e.KeyDown? ==> r.0.keysDown == s.keysDown + {e.sym}
    ensures e.KeyUp? ==> r.0.keysDown == s.keysDown - {e.sym}
    ensures !e.KeyDown? && !e.KeyUp? ==> r.0.keysDown == s.keysDown
    ensures r.0.quit <==> s.quit || e.Quit? || (e.KeyDown? && e.sym == Escape)
    // a click goes out only on a left mouse-up at exactly the remembered mouse-down pixel
    ensures forall i | 0 <= i < |r.1| && r.1[i].Click? ::
              IsLeftUp(e) && s.prevMouseDown == Some((e.x, e.y)) && r.1[i].at == PixelVector(e.x, e.y)
    ensures IsLeftUp(e) && s.prevMouseDown == Some((e.x, e.y)) ==> Click(PixelVector(e.x, e.y)) in r.1
    ensures IsLeftUp(e) ==> r.0.prevMouseDown == None
    ensures IsLeftDown(e) ==> r.0.prevMouseDown == Some((e.x, e.y))
    ensures !IsLeftUp(e) && !IsLeftDown(e) ==> r.0.prevMouseDown == s.prevMouseDown && r.1 == []
  {
    match e
    case Quit => (s.(quit := true), [])
    case Window(sizeChanged, data1, data2) =>
      if sizeChanged then (s.(width := data1, height := data2), []) else (s, [])
    case KeyDown(sym) =>
      (s.(keysDown := s.keysDown + {sym}, quit := s.quit || sym == Escape), [])
    case KeyUp(sym) => (s.(keysDown := s.keysDown - {sym}), [])
    case MouseButtonDown(button, x, y, timestamp) =>
      if button == LeftButton then
        (s.(prevMouseDown := Some((x, y))), [MouseDown(PixelVector(x, y), timestamp as real)])
      else (s, [])
    case MouseButtonUp(button, x, y, timestamp) =>
      if button == LeftButton then
        var up := [MouseUp(PixelVector(x, y), timestamp as real)];
        var click := if s.prevMouseDown == Some((x, y)) then [Click(PixelVector(x, y))] else [];
        (s.(prevMouseDown := None), up + click)
      else (s, [])
    case Other => (s, [])
  }

  /** The state after a run of events and everything pushed to the scene, in order. */
  function Run(s: LoopState, events: seq<SdlEvent>): (LoopState, seq<Event>) {
    if events == [] then (s, [])
    else
      var (mid, pushed) := Run(s, events[..|events| - 1]);
      var (last, more) := Dispatch(mid, events[|events| - 1]);
      (last, pushed + more)
  }

  /** Whether the last key event for `key` in `events` pressed it (None: no such event). */
  function LastPress(events: seq<SdlEvent>, key: int): Option<bool> {
    if events == [] then None
    else
      var e := events[|events| - 1];
      if e.KeyDown? && e.sym == key then Some(true)
      else if e.KeyUp? && e.sym == key then Some(false)
      else LastPress(events[..|events| - 1], key)
  }

  /** A key reads as down exactly when its latest key event was a press, or, with no key event
      for it, when it was down before. */
  lemma {:induction false} KeyDownIffLastPressed(s: LoopState, events: seq<SdlEvent>, key: int)
    ensures IsKeyDown(Run(s, events).0, key) <==>
              match LastPress(events, key)
              case Some(pressed) => pressed
              case None => IsKeyDown(s, key)
  {
    if events != [] {
      KeyDownIffLastPressed(s, events[..|events| - 1], key);
    }
  }

  /** Once quit is requested it stays requested. */
  lemma {:induction false} QuitIsFinal(s: LoopState, events: seq<SdlEvent>)
    requires s.quit
    ensures Run(s, events).0.quit
  {
    if events != [] {
      QuitIsFinal(s, events[..|events| - 1]);
    }
  }

  function CountClicks(pushed: seq<Event>): nat {
    if pushed == [] then 0
    else CountClicks(pushed[..|pushed| - 1]) + (if pushed[|pushed| - 1].Click? then 1 else 0)
  }

  function CountLeftDowns(events: seq<SdlEvent>): nat {
    if events == [] then 0
    else CountLeftDowns(events[..|events| - 1]) + (if IsLeftDown(events[|events| - 1]) then 1 else 0)
  }

  lemma {:induction false} CountClicksConcat(a: seq<Event>, b: seq<Event>)
    ensures CountClicks(a + b) == CountClicks(a) + CountClicks(b)
  {
    if b != [] {
      assert (a + b)[..|a + b| - 1] == a + b[..|b| - 1];
      CountClicksConcat(a, b[..|b| - 1]);
    } else {
      assert a + b == a;
    }
  }

  function Pending(s: LoopState): nat {
    if s.prevMouseDown.Some? then 1 else 0
  }

  /** Each left mouse-down yields at most one click: the clicks pushed plus a still-pending
      mouse-down never outnumber the mouse-downs seen (plus one pending at the start). */
  lemma {:induction false} ClicksBoundedByMouseDowns(s: LoopState, events: seq<SdlEvent>)
    ensures CountClicks(Run(s, events).1) + Pending(Run(s, events).0) <= CountLeftDowns(events) + Pending(s)
  {
    if events != [] {
      var prefix := events[..|events| - 1];
      ClicksBoundedByMouseDowns(s, prefix);
      var (mid, pushed) := Run(s, prefix);
      var e := events[|events| - 1];
      var (last, more) := Dispatch(mid, e);
      CountClicksConcat(pushed, more);
      assert CountClicks(more) + Pending(last) <= Pending(mid) + (if IsLeftDown(e) then 1 else 0) by {
        if IsLeftUp(e) {
          var up := [MouseUp(PixelVector(e.x, e.y), e.timestamp as real)];
          var click := if mid.prevMouseDown == Some((e.x, e.y)) then [Click(PixelVector(e.x, e.y))] else [];
          assert more == up + click;
          CountClicksConcat(up, click);
          assert CountClicks(up) == 0 by {
            assert up[..0] == [];
          }
          if click != [] {
            assert click[..0] == [];
          }
        } else if IsLeftDown(e) {
          assert more[..0] == [];
        }
      }
    }
  }

  /** The loop's globals `keysDown`, `prevMouseDown`, `quit`, `width`, `height`, and the events
      pushed to the scene root so far. */
  class EventLoop {
    var keysDown: set<int>
    var prevMouseDown: Option<(int, int)>
    var quit: bool
    var width: int
    var height: int
    var pushed: seq<Event>

    constructor (width: int, height: int)
      ensures keysDown == {} && prevMouseDown == None && !quit
      ensures this.width == width && this.height == height && pushed == []
    {
      keysDown := {};
      prevMouseDown := None;
      quit := false;
      this.width := width;
      this.height := height;
      pushed := [];
    }

    function State(): LoopState
      reads this
    {
      LoopState(keysDown, prevMouseDown, quit, width, height)
    }

    /** One pass of the event switch. */
    method HandleEvent(e: SdlEvent)
      modifies this
      ensures State() == Dispatch(old(State()), e).0
      ensures pushed == old(pushed) + Dispatch(old(State()), e).1
    {
      match e {
        case Quit =>
          quit := true;
        case Window(sizeChanged, data1, data2) =>
          if sizeChanged {
            width := data1;
            height := data2;
          }
        case KeyDown(sym) =>
          keysDown := keysDown + {sym};
          if sym == Escape {
            quit := true;
          }
        case KeyUp(sym) =>
          keysDown := keysDown - {sym};
        case MouseButtonDown(button, x, y, timestamp) =>
          if button == LeftButton {
            pushed := pushed + [MouseDown(PixelVector(x, y), timestamp as real)];
            prevMouseDown := Some((x, y));
          }
        case MouseButtonUp(button, x, y, timestamp) =>
          if button == LeftButton {
            pushed := pushed + [MouseUp(PixelVector(x, y), timestamp as real)];
            if prevMouseDown == Some((x, y)) {
              pushed := pushed + [Click(PixelVector(x, y))];
            }
            prevMouseDown := None;
          }
        case Other =>
      }
    }
  }

  /** A snapshot of the scene tree: a node, whether it has a `handleEvent` closure, and its children. */
  datatype Node = Node(id: nat, handles: bool, children: seq<Node>)

  /** `push(event:to:)`: the nodes whose handler is called, in call order. */
  function Push(n: Node): seq<nat>
    decreases n, 1
  {
    (if n.handles then [n.id] else []) + PushAll(n.children)
  }

  /** The calls of `push` on each node of a child list, in list order. */
  function PushAll(nodes: seq<Node>): seq<nat>
    decreases nodes, 0
  {
    if nodes == [] then [] else Push(nodes[0]) + PushAll(nodes[1..])
  }

  lemma {:induction false} PushAllConcat(a: seq<Node>, b: seq<Node>)
    ensures PushAll(a + b) == PushAll(a) + PushAll(b)
    decreases a
  {
    if a == [] {
      assert a + b == b;
    } else {
      assert (a + b)[1..] == a[1..] + b;
      PushAllConcat(a[1..], b);
    }
  }

  /** Pre-order: a node's own handler runs first, then the calls for its i-th child's subtree come
      as one contiguous block, after the blocks of the children before it. */
  lemma PushIsPreorder(n: Node, i: nat)
    requires i < |n.children|
    ensures n.handles ==> Push(n)[0] == n.id
    ensures var start := (if n.handles then 1 else 0) + |PushAll(n.children[..i])|;
            start + |Push(n.children[i])| <= |Push(n)| &&
            Push(n)[start..start + |Push(n.children[i])|] == Push(n.children[i])
  {
    var cs := n.children;
    assert cs == cs[..i] + ([cs[i]] + cs[i + 1..]);
    PushAllConcat(cs[..i], [cs[i]] + cs[i + 1..]);
    assert ([cs[i]] + cs[i + 1..])[1..] == cs[i + 1..];
  }
}
