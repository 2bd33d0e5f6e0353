// The display-object tree: a Renderable keeps the list of its children and a
// back-pointer to its parent, both edited in place by addChild/removeChild.

module Scene {
  import opened Vectors

  /** Index of the first element of `s` identical to `x` (`firstIndex(where: { $0 === x })`). */
  function FirstIndex<T(==)>(s: seq<T>, x: T): (i: nat)
    requires x in s
    ensures i < |s| && s[i] == x
    ensures x !in s[..i]
  {
    if s[0] == x then 0
    else
      var j := FirstIndex(s[1..], x);
      assert s[..j + 1] == [s[0]] + s[1..][..j];
      j + 1
  }

  /** `s` without any occurrence of `x`: the order of everything else. */
  function Without<T(==)>(s: seq<T>, x: T): (r: seq<T>)
    ensures x !in r
    ensures forall i :: 0 <= i < |r| ==> r[i] in s && r[i] != x
  {
    if s == [] then []
    else (if s[0] == x then [] else [s[0]]) + Without(s[1..], x)
  }

  /** The child list after removing the first occurrence of `x`, or `s` when `x` is not listed. */
  function Detach<T(==)>(s: seq<T>, x: T): (r: seq<T>)
    ensures multiset(r) == multiset(s) - multiset{x}
    ensures forall k | k in r :: k in s
    ensures forall k | k in s && k != x :: k in r
    ensures x in s ==> |r| == |s| - 1
    ensures x !in s ==> r == s
  {
    if x in s then
      var i := FirstIndex(s, x);
      assert s == s[..i] + [x] + s[i + 1..];
      s[..i] + s[i + 1..]
    else s
  }

  /** True when no element occurs twice in `s`. */
  predicate Unique<T(==)>(s: seq<T>) {
    forall i, j :: 0 <= i < j < |s| ==> s[i] != s[j]
  }

  lemma {:induction false} WithoutConcat<T>(a: seq<T>, b: seq<T>, x: T)
    ensures Without(a + b, x) == Without(a, x) + Without(b, x)
  {
    if a == [] {
      assert a + b == b;
    } else {
      assert (a + b)[1..] == a[1..] + b;
      WithoutConcat(a[1..], b, x);
    }
  }

  /** Detaching keeps every other element in its original relative order. */
  lemma {:induction false} DetachKeepsOrder<T>(s: seq<T>, x: T)
    ensures Without(Detach(s, x), x) == Without(s, x)
  {
    if x in s {
      var i := FirstIndex(s, x);
      assert s == s[..i] + ([x] + s[i + 1..]);
      WithoutConcat(s[..i], [x] + s[i + 1..], x);
      WithoutConcat([x], s[i + 1..], x);
      WithoutConcat(s[..i], s[i + 1..], x);
    }
  }

  /** In a list without repeats, detaching `x` removes it completely and keeps the list free of repeats. */
  lemma DetachUnique<T>(s: seq<T>, x: T)
    requires Unique(s)
    ensures x !in Detach(s, x)
    ensures Unique(Detach(s, x))
  {
    if x in s {
      var i := FirstIndex(s, x);
      var r := s[..i] + s[i + 1..];
      assert forall k :: 0 <= k < |r| ==> r[k] == if k < i then s[k] else s[k + 1];
    }
  }

  /** A child appended to a list it was not in is detached again without a trace. */
  lemma DetachAppended<T>(s: seq<T>, x: T)
    requires x !in s
    ensures Detach(s + [x], x) == s
  {
    var i := FirstIndex(s + [x], x);
    assert i == |s|;
  }

  class Renderable {
    var position: Vector
    var rotation: real
    var scale: Vector
    var children: seq<Renderable>
    var parent: Renderable?

    /** A new node sits at the origin, unrotated, at unit scale, with no parent and no children. */
    constructor ()
      ensures position == Zero && rotation == 0.0 && scale == One
      ensures children == [] && parent == null
    {
      position := Zero;
      rotation := 0.0;
      scale := One;
      children := [];
      parent := null;
    }

    /** Removes `child` when this node is its parent and lists it; otherwise does nothing. */
    method RemoveChild(child: Renderable, ghost scene: set<Renderable>)
      modifies this`children, child`parent
      ensures old(child.parent) == this && child in old(children) ==>
                children == Detach(old(children), child) && child.parent == null
      ensures !(old(child.parent) == this && child in old(children)) ==>
                children == old(children) && child.parent == old(child.parent)
      ensures old(Consistent(scene)) && this in scene && child in scene ==>
                Consistent(scene) && child !in children
    {
      ghost var before := LinksOf(scene);
      ghost var wasConsistent := WellLinked(before);
      if wasConsistent && this in scene && child in scene {
        ListedIffParent(before, this, child);
      }
      if child.parent != this {
        return;
      }
      if child !in children {
        return;
      }
      var idx := FirstIndex(children, child);
      child.parent := null;
      children := children[..idx] + children[idx + 1..];
      if wasConsistent && this in scene && child in scene {
        var now, expected := LinksOf(scene), Removed(before, this, child);
        forall n | n in scene ensures now[n] == expected[n] {
          if n != this && n != child {
            assert expected[n] == before[n];
          }
        }
        assert now == expected;
        RemovedWellLinked(before, this, child);
      }
    }

    /** Moves `child` to the end of this node's children, detaching it from its previous parent first. */
    method AddChild(child: Renderable, ghost scene: set<Renderable>)
      modifies this`children, child`parent, (if child.parent == null then {} else {child.parent})`children
      ensures child.parent == this
      ensures children == (if old(child.parent) == this then Detach(old(children), child) else old(children)) + [child]
      ensures old(child.parent) != null && old(child.parent) != this ==>
                old(child.parent).children == Detach(old(child.parent.children), child)
      ensures old(Consistent(scene)) && this in scene && child in scene ==> Consistent(scene)
    {
      ghost var wasConsistent := Consistent(scene);
      var p := child.parent;
      if p != null {
        if wasConsistent && child in scene {
          ParentInScene(LinksOf(scene), child);
          ListedIffParent(LinksOf(scene), p, child);
        }
        p.RemoveChild(child, scene);
      }
      Attach(child, scene);
    }

    /** The second half of `AddChild`: lists `child` last and points it at this node. */
    method Attach(child: Renderable, ghost scene: set<Renderable>)
      modifies this`children, child`parent
      ensures children == old(children) + [child] && child.parent == this
      ensures old(Consistent(scene)) && old(child.parent) == null && this in scene && child in scene ==>
                Consistent(scene)
    {
      ghost var mid := LinksOf(scene);
      ghost var ready := Consistent(scene) && child.parent == null && this in scene && child in scene;
      children := children + [child];
      child.parent := this;
      if ready {
        var now, expected := LinksOf(scene), Appended(mid, this, child);
        forall n | n in scene ensures now[n] == expected[n] {
          if n != this && n != child {
            assert expected[n] == mid[n];
          }
        }
        assert now == expected;
        AppendedWellLinked(mid, this, child);
      }
    }
  }

  /** Adding a parentless node and removing it again leaves the parent's child list as it was. */
  method AddThenRemove(parent: Renderable, child: Renderable, ghost scene: set<Renderable>)
    requires child.parent == null && child !in parent.children
    modifies parent`children, child`parent
    ensures parent.children == old(parent.children) && child.parent == null
  {
    parent.AddChild(child, scene);
    parent.RemoveChild(child, scene);
    DetachAppended(old(parent.children), child);
  }

  /** What the scene invariant looks at in one node: its child list and its parent pointer. */
  datatype Links = Links(children: seq<Renderable>, parent: Renderable?)

  ghost function LinksOf(scene: set<Renderable>): (m: map<Renderable, Links>)
    reads scene
    ensures m.Keys == scene
    ensures forall n | n in scene :: m[n] == Links(n.children, n.parent)
  {
    map n | n in scene :: Links(n.children, n.parent)
  }

  /** Node `n` lists each of its children once, and each of them points back to `n`. */
  ghost predicate ChildrenPointBack(m: map<Renderable, Links>, n: Renderable)
    requires n in m
  {
    Unique(m[n].children) && forall k | k in m[n].children :: k in m && m[k].parent == n
  }

  /** The parent of `n`, if any, lists `n`. */
  ghost predicate ParentLists(m: map<Renderable, Links>, n: Renderable)
    requires n in m
  {
    m[n].parent != null ==> m[n].parent in m && n in m[m[n].parent].children
  }

  /** The scene invariant on a snapshot. */
  ghost predicate WellLinked(m: map<Renderable, Links>) {
    forall n | n in m :: ChildrenPointBack(m, n) && ParentLists(m, n)
  }

  /** The scene invariant: every listed child points back to the node listing it and is listed
      there once, and every parent pointer is matched by a listing. */
  ghost predicate Consistent(scene: set<Renderable>)
    reads scene
  {
    WellLinked(LinksOf(scene))
  }

  /** The snapshot after `p.removeChild(c)` has found `c`. */
  ghost function Removed(m: map<Renderable, Links>, p: Renderable, c: Renderable): map<Renderable, Links>
    requires p in m && c in m
  {
    var m1 := m[p := m[p].(children := Detach(m[p].children, c))];
    m1[c := m1[c].(parent := null)]
  }

  /** The snapshot after `p.children.append(c); c.parent = p`. */
  ghost function Appended(m: map<Renderable, Links>, p: Renderable, c: Renderable): map<Renderable, Links>
    requires p in m && c in m
  {
    var m1 := m[p := m[p].(children := m[p].children + [c])];
    m1[c := m1[c].(parent := p)]
  }

  lemma ParentInScene(m: map<Renderable, Links>, c: Renderable)
    requires WellLinked(m) && c in m
    ensures m[c].parent != null ==> m[c].parent in m && c in m[m[c].parent].children
  {
    assert ParentLists(m, c);
  }

  /** In a well-linked snapshot a node lists `c` exactly when `c` points to it. */
  lemma ListedIffParent(m: map<Renderable, Links>, p: Renderable, c: Renderable)
    requires WellLinked(m) && p in m && c in m
    ensures c in m[p].children <==> m[c].parent == p
  {
    assert ChildrenPointBack(m, p) && ParentLists(m, c);
  }

  /** Removing a listed child keeps a snapshot well linked. */
  lemma RemovedWellLinked(m: map<Renderable, Links>, p: Renderable, c: Renderable)
    requires WellLinked(m) && p in m && c in m && m[c].parent == p
    ensures WellLinked(Removed(m, p, c))
    ensures c !in Removed(m, p, c)[p].children
  {
    var before := m[p].children;
    var r := Removed(m, p, c);
    assert ChildrenPointBack(m, p);
    DetachUnique(before, c);
    forall n: Renderable | n in r ensures ChildrenPointBack(r, n) && ParentLists(r, n) {
      assert ChildrenPointBack(m, n) && ParentLists(m, n);
      if n == p {
        forall k | k in r[n].children ensures k in r && r[k].parent == n {
        }
      }
      if r[n].parent != null && r[n].parent == p {
        assert n != c && m[n].parent == p;
      }
    }
  }

  /** Appending a parentless node keeps a snapshot well linked. */
  lemma AppendedWellLinked(m: map<Renderable, Links>, p: Renderable, c: Renderable)
    requires WellLinked(m) && p in m && c in m && m[c].parent == null
    ensures WellLinked(Appended(m, p, c))
  {
    var mid := m[p].children;
    var r := Appended(m, p, c);
    assert ChildrenPointBack(m, p);
    assert c !in mid;
    forall n: Renderable | n in r ensures ChildrenPointBack(r, n) && ParentLists(r, n) {
      assert ChildrenPointBack(m, n) && ParentLists(m, n);
      if n == p {
        assert r[n].children == mid + [c];
        assert Unique(mid + [c]);
      }
    }
  }
}
