/** XML documents as the handlers see them: an arena of elements, each with a
    tag (its local name), string attributes, optional text, the index of its
    parent and the indices of its children in document order. Index 0 is the
    document root. Removing an element from its parent (lxml's
    `getparent().remove(e)`) leaves it in the arena without a parent, so the
    indices of everything else stay valid. */
module XmlDoc {
  import opened Wrappers
  import opened Lists

  datatype Node = Node(tag: string, attrs: map<string, string>, text: Option<string>, parent: int, kids: seq<nat>)

  /** The parent of the root and of a removed element. */
  const NoParent: int := -1

  /** Parents come before their children, every child lists its parent, every
      attached element is listed by its parent, once. */
  predicate WellFormed(nodes: seq<Node>)
  {
    && |nodes| > 0
    && nodes[0].parent == NoParent
    && (forall c :: 0 <= c < |nodes| ==> nodes[c].parent < c)
    && (forall p :: 0 <= p < |nodes| ==> KidsAgree(nodes, p))
    && (forall c :: 0 <= c < |nodes| ==> ListedByParent(nodes, c))
  }

  /** The children of `p` are listed once each, come after it and name it as
      their parent. */
  predicate KidsAgree(nodes: seq<Node>, p: nat)
    requires p < |nodes|
  {
    && NoDup(nodes[p].kids)
    && forall c :: c in nodes[p].kids ==> p < c < |nodes| && nodes[c].parent == p
  }

  /** An attached element comes after its parent and is listed by it. */
  predicate ListedByParent(nodes: seq<Node>, c: nat)
    requires c < |nodes|
  {
    nodes[c].parent >= 0 ==> nodes[c].parent < c && c in nodes[nodes[c].parent].kids
  }

  /** Every child listed by `p` is in range and names `p` as its parent. */
  lemma {:induction false} KidsOf(nodes: seq<Node>, p: nat)
    requires WellFormed(nodes) && p < |nodes|
    ensures NoDup(nodes[p].kids)
    ensures forall c :: c in nodes[p].kids ==> p < c < |nodes| && nodes[c].parent == p
    ensures forall i :: 0 <= i < |nodes[p].kids| ==> p < nodes[p].kids[i] < |nodes|
  {
    assert KidsAgree(nodes, p);
    assert forall i :: 0 <= i < |nodes[p].kids| ==> nodes[p].kids[i] in nodes[p].kids;
  }

  /** An attached element's parent is in range and lists it. */
  lemma {:induction false} ParentOf(nodes: seq<Node>, c: nat)
    requires WellFormed(nodes) && c < |nodes| && nodes[c].parent >= 0
    ensures nodes[c].parent < c && c in nodes[nodes[c].parent].kids
  {
    assert ListedByParent(nodes, c);
  }

  /** `b` is `a` after removing some elements from their parents: no tag,
      attribute or text differs, and every element keeps its parent or has
      none. */
  predicate PrunedFrom(a: seq<Node>, b: seq<Node>)
  {
    && |a| == |b|
    && forall i :: 0 <= i < |a| ==>
         && b[i].tag == a[i].tag && b[i].attrs == a[i].attrs && b[i].text == a[i].text
         && (b[i].parent == a[i].parent || b[i].parent == NoParent)
  }

  lemma {:induction false} PrunedTrans(a: seq<Node>, b: seq<Node>, c: seq<Node>)
    requires PrunedFrom(a, b) && PrunedFrom(b, c)
    ensures PrunedFrom(a, c)
  {
  }

  // ---------------------------------------------------------------------------
  // Selection

  /** The elements of `ks` with the given tag, in order. */
  function WithTag(nodes: seq<Node>, ks: seq<nat>, tag: string): (r: seq<nat>)
    requires forall i :: 0 <= i < |ks| ==> ks[i] < |nodes|
    ensures forall x :: x in r <==> x in ks && nodes[x].tag == tag
    ensures NoDup(ks) ==> NoDup(r)
    decreases |ks|
  {
    if ks == [] then []
    else
      assert NoDup(ks) ==> NoDup(ks[1..]) && ks[0] !in ks[1..] by {
        if NoDup(ks) {
          assert forall i, j :: 0 <= i < j < |ks[1..]| ==> ks[1..][i] == ks[i + 1] && ks[1..][j] == ks[j + 1];
        }
      }
      (if nodes[ks[0]].tag == tag then [ks[0]] else []) + WithTag(nodes, ks[1..], tag)
  }

  /** `e.xpath("./tag")`: the children of `e` with the tag, in document order. */
  function Children(nodes: seq<Node>, e: nat, tag: string): (r: seq<nat>)
    requires WellFormed(nodes) && e < |nodes|
    ensures NoDup(r)
    ensures forall x :: x in r <==> 0 <= x < |nodes| && nodes[x].parent == e && nodes[x].tag == tag
  {
    KidsOf(nodes, e);
    assert forall x :: 0 <= x < |nodes| && nodes[x].parent == e ==> x in nodes[e].kids by {
      forall x | 0 <= x < |nodes| && nodes[x].parent == e
        ensures x in nodes[e].kids
      {
        ParentOf(nodes, x);
      }
    }
    WithTag(nodes, nodes[e].kids, tag)
  }

  /** Selecting by tag reads nothing but the tags. */
  lemma {:induction false} WithTagFrame(nodes: seq<Node>, r: seq<Node>, ks: seq<nat>, tag: string)
    requires |r| == |nodes| && forall i :: 0 <= i < |nodes| ==> r[i].tag == nodes[i].tag
    requires forall i :: 0 <= i < |ks| ==> ks[i] < |nodes|
    ensures WithTag(r, ks, tag) == WithTag(nodes, ks, tag)
    decreases |ks|
  {
    if ks != [] {
      WithTagFrame(nodes, r, ks[1..], tag);
    }
  }

  /** `x` is reached from `e` by a child tagged `a`, then its child tagged `b`. */
  predicate Grandchild(nodes: seq<Node>, x: nat, e: nat, a: string, b: string)
    requires x < |nodes|
  {
    && nodes[x].tag == b
    && 0 <= nodes[x].parent < |nodes|
    && nodes[nodes[x].parent].tag == a
    && nodes[nodes[x].parent].parent == e
  }

  /** The `b` children of each of `cs` in turn. */
  function ChildrenOfEach(nodes: seq<Node>, cs: seq<nat>, b: string): (r: seq<nat>)
    requires WellFormed(nodes) && forall i :: 0 <= i < |cs| ==> cs[i] < |nodes|
    ensures forall x :: x in r <==> 0 <= x < |nodes| && nodes[x].tag == b && nodes[x].parent in cs
    ensures NoDup(cs) ==> NoDup(r)
    decreases |cs|
  {
    if cs == [] then []
    else
      assert NoDup(cs) ==> NoDup(cs[1..]) && cs[0] !in cs[1..] by {
        if NoDup(cs) {
          assert forall i, j :: 0 <= i < j < |cs[1..]| ==> cs[1..][i] == cs[i + 1] && cs[1..][j] == cs[j + 1];
        }
      }
      var here := Children(nodes, cs[0], b);
      var rest := ChildrenOfEach(nodes, cs[1..], b);
      if NoDup(cs) then
        NoDupConcat(here, rest);
        here + rest
      else here + rest
  }

  /** `e.xpath("./a/b")`: without repeats (order not stated), exactly the
      `b` elements whose parent is an `a` child of `e`. */
  function Path2(nodes: seq<Node>, e: nat, a: string, b: string): (r: seq<nat>)
    requires WellFormed(nodes) && e < |nodes|
    ensures NoDup(r)
    ensures forall x :: x in r <==> 0 <= x < |nodes| && Grandchild(nodes, x, e, a, b)
  {
    var cs := Children(nodes, e, a);
    assert forall i :: 0 <= i < |cs| ==> cs[i] in cs;
    var r := ChildrenOfEach(nodes, cs, b);
    assert forall x :: 0 <= x < |nodes| && nodes[x].parent in cs ==> 0 <= nodes[x].parent < |nodes|;
    r
  }

  /** `x` lies below `e` at some depth: following parents from `x` reaches `e`. */
  predicate Below(nodes: seq<Node>, x: nat, e: nat)
    requires x < |nodes|
    decreases x
  {
    var p := nodes[x].parent;
    0 <= p < x && (p == e || Below(nodes, p, e))
  }

  /** The elements among `0 .. n-1` below `e` with the tag, in arena order. */
  function BelowUpTo(nodes: seq<Node>, n: nat, e: nat, tag: string): (r: seq<nat>)
    requires n <= |nodes|
    ensures NoDup(r)
    ensures forall x :: x in r <==> 0 <= x < n && nodes[x].tag == tag && Below(nodes, x, e)
    ensures forall x :: x in r ==> x < n
  {
    if n == 0 then []
    else
      var r := BelowUpTo(nodes, n - 1, e, tag);
      if nodes[n - 1].tag == tag && Below(nodes, n - 1, e) then r + [n - 1] else r
  }

  /** `e.xpath(".//tag")`: every element with the tag at any depth below `e`,
      each once. */
  function Descendants(nodes: seq<Node>, e: nat, tag: string): (r: seq<nat>)
    requires WellFormed(nodes) && e < |nodes|
    ensures NoDup(r)
    ensures forall x :: x in r <==> 0 <= x < |nodes| && nodes[x].tag == tag && Below(nodes, x, e)
  {
    BelowUpTo(nodes, |nodes|, e, tag)
  }

  /** An element selected by `./a/b` from `e` is among the `.//b` below `e`:
      the direct selection is part of the any-depth one. */
  lemma {:induction false} Path2InDescendants(nodes: seq<Node>, e: nat, a: string, b: string)
    requires WellFormed(nodes) && e < |nodes|
    ensures forall x :: x in Path2(nodes, e, a, b) ==> x in Descendants(nodes, e, b)
  {
    forall x | x in Path2(nodes, e, a, b)
      ensures x in Descendants(nodes, e, b)
    {
      var p := nodes[x].parent;
      ParentOf(nodes, x);
      ParentOf(nodes, p);
      assert Below(nodes, p, e);
      assert Below(nodes, x, e);
    }
  }

  /** An element with a child of the tag (`boolean(./tag)`). */
  predicate HasChild(nodes: seq<Node>, e: nat, tag: string)
  {
    exists c :: 0 <= c < |nodes| && nodes[c].parent == e && nodes[c].tag == tag
  }

  /** `e.xpath("./@name")[0]`: the attribute, or an IndexError when it is absent. */
  function FirstAttr(nodes: seq<Node>, e: nat, name: string): (r: Result<string>)
    requires e < |nodes|
    ensures r.Ok? <==> name in nodes[e].attrs
    ensures r.Ok? ==> r.value == nodes[e].attrs[name]
  {
    if name in nodes[e].attrs then Ok(nodes[e].attrs[name]) else Err("IndexError: list index out of range")
  }

  /** `e.get(name)`: the attribute, or None. */
  function GetAttr(nodes: seq<Node>, e: nat, name: string): (r: Option<string>)
    requires e < |nodes|
    ensures r.Some? <==> name in nodes[e].attrs
    ensures r.Some? ==> r.value == nodes[e].attrs[name]
  {
    if name in nodes[e].attrs then Some(nodes[e].attrs[name]) else None
  }

  /** The position of the first element of `ks` whose attribute `name`
      equals `v`, if any. */
  function FirstWithAttr(nodes: seq<Node>, ks: seq<nat>, name: string, v: string): (r: Option<nat>)
    requires forall i :: 0 <= i < |ks| ==> ks[i] < |nodes|
    ensures r.None? <==> forall i :: 0 <= i < |ks| ==> GetAttr(nodes, ks[i], name) != Some(v)
    ensures r.Some? ==> r.value < |ks| && GetAttr(nodes, ks[r.value], name) == Some(v)
    ensures r.Some? ==> forall i :: 0 <= i < r.value ==> GetAttr(nodes, ks[i], name) != Some(v)
    decreases |ks|
  {
    if ks == [] then None
    else if GetAttr(nodes, ks[0], name) == Some(v) then Some(0)
    else
      var rest := FirstWithAttr(nodes, ks[1..], name, v);
      assert forall i :: 1 <= i < |ks| ==> ks[i] == ks[1..][i - 1];
      if rest.Some? then Some(rest.value + 1) else None
  }

  // ---------------------------------------------------------------------------
  // Removal

  /** `e.getparent().remove(e)`: `e` leaves its parent's children and has no
      parent; no other element changes its parent, and no tag, attribute or
      text changes. */
  function Detached(nodes: seq<Node>, x: nat): (r: seq<Node>)
    requires WellFormed(nodes) && x < |nodes| && nodes[x].parent >= 0
    ensures WellFormed(r)
    ensures PrunedFrom(nodes, r)
    ensures forall i :: 0 <= i < |r| ==> r[i].parent == if i == x then NoParent else nodes[i].parent
  {
    var p := nodes[x].parent;
    var r := nodes[p := nodes[p].(kids := Without(nodes[p].kids, x))][x := nodes[x].(parent := NoParent)];
    DetachedWellFormed(nodes, x, r);
    r
  }

  lemma {:induction false} DetachedWellFormed(nodes: seq<Node>, x: nat, r: seq<Node>)
    requires WellFormed(nodes) && x < |nodes| && nodes[x].parent >= 0
    requires r == nodes[nodes[x].parent := nodes[nodes[x].parent].(kids := Without(nodes[nodes[x].parent].kids, x))][x := nodes[x].(parent := NoParent)]
    ensures WellFormed(r)
  {
    var p := nodes[x].parent;
    assert p != x;
    forall q | 0 <= q < |r|
      ensures KidsAgree(r, q)
    {
      KidsOf(nodes, q);
      if q == p {
        assert r[q].kids == Without(nodes[p].kids, x);
      } else {
        assert r[q].kids == nodes[q].kids;
      }
      forall c | c in r[q].kids
        ensures q < c < |r| && r[c].parent == q
      {
        assert c in nodes[q].kids && c != x;
        assert r[c].parent == nodes[c].parent;
      }
    }
    forall c | 0 <= c < |r|
      ensures ListedByParent(r, c)
    {
      if r[c].parent >= 0 {
        assert c != x;
        var q := nodes[c].parent;
        assert r[c].parent == q;
        ParentOf(nodes, c);
        if q == p {
          assert c in Without(nodes[p].kids, x);
        } else {
          assert r[q].kids == nodes[q].kids;
        }
      }
    }
  }

  /** `b` is `a` with exactly the elements of `gone` removed from their parents. */
  predicate DetachedExactly(a: seq<Node>, b: seq<Node>, gone: set<nat>)
  {
    && PrunedFrom(a, b)
    && forall x :: 0 <= x < |b| ==> b[x].parent == if x in gone then NoParent else a[x].parent
  }

  /** Removing one more element extends the removed set by it. */
  lemma {:induction false} DetachedExactlyStep(a: seq<Node>, b: seq<Node>, gone: set<nat>, t: nat)
    requires WellFormed(b) && t < |b| && b[t].parent >= 0
    requires DetachedExactly(a, b, gone)
    ensures DetachedExactly(a, Detached(b, t), gone + {t})
  {
  }

  /** Removals compose: first `g1`, then `g2`, is removing both. */
  lemma {:induction false} DetachedExactlyTrans(a: seq<Node>, b: seq<Node>, c: seq<Node>, g1: set<nat>, g2: set<nat>)
    requires DetachedExactly(a, b, g1) && DetachedExactly(b, c, g2)
    ensures DetachedExactly(a, c, g1 + g2)
  {
  }

  /** Whether an element has a child of a tag survives removals of elements
      with other tags. */
  lemma {:induction false} HasChildKept(a: seq<Node>, b: seq<Node>, gone: set<nat>, v: nat, tag: string)
    requires DetachedExactly(a, b, gone)
    requires forall d :: d in gone && d < |a| ==> a[d].tag != tag
    ensures HasChild(b, v, tag) <==> HasChild(a, v, tag)
  {
    if HasChild(a, v, tag) {
      var c :| 0 <= c < |a| && a[c].parent == v && a[c].tag == tag;
      assert b[c].parent == v;
    }
    if HasChild(b, v, tag) {
      var c :| 0 <= c < |b| && b[c].parent == v && b[c].tag == tag;
      assert a[c].parent == v;
    }
  }

  /** Reaching `x` by `./ta/tb` from `e` survives removals of elements with
      neither tag. */
  lemma {:induction false} GrandchildKept(a: seq<Node>, b: seq<Node>, gone: set<nat>, x: nat, e: nat, ta: string, tb: string)
    requires DetachedExactly(a, b, gone) && x < |a|
    requires forall d :: d in gone && d < |a| ==> a[d].tag != ta && a[d].tag != tb
    ensures Grandchild(b, x, e, ta, tb) <==> Grandchild(a, x, e, ta, tb)
  {
  }

  /** Removals never add a child: an empty selection stays empty. */
  lemma {:induction false} ChildrenStayEmpty(a: seq<Node>, b: seq<Node>, e: nat, tag: string)
    requires WellFormed(a) && WellFormed(b) && PrunedFrom(a, b) && e < |a|
    requires Children(a, e, tag) == []
    ensures Children(b, e, tag) == []
  {
    FirstIn(Children(b, e, tag));
  }

  /** Removing `x` leaves a `./a/b` selection from `e` as it was unless `x`
      was a child of `e` or of one of its children. */
  lemma {:induction false} Path2AfterDetach(nodes: seq<Node>, x: nat, e: nat, a: string, b: string)
    requires WellFormed(nodes) && x < |nodes| && nodes[x].parent >= 0 && e < |nodes|
    requires nodes[x].parent != e && nodes[nodes[x].parent].parent != e
    ensures Path2(Detached(nodes, x), e, a, b) == Path2(nodes, e, a, b)
  {
    var r := Detached(nodes, x);
    var p := nodes[x].parent;
    assert r[e].kids == nodes[e].kids;
    KidsOf(nodes, e);
    WithTagFrame(nodes, r, nodes[e].kids, a);
    assert Children(r, e, a) == Children(nodes, e, a);
    var cs := Children(nodes, e, a);
    forall c | c in cs
      ensures Children(r, c, b) == Children(nodes, c, b)
    {
      assert r[c].kids == nodes[c].kids;
      KidsOf(nodes, c);
      WithTagFrame(nodes, r, nodes[c].kids, b);
    }
    assert forall i :: 0 <= i < |cs| ==> cs[i] in cs;
    ChildrenOfEachFrame(nodes, r, cs, b);
  }

  lemma {:induction false} ChildrenOfEachFrame(nodes: seq<Node>, r: seq<Node>, cs: seq<nat>, b: string)
    requires WellFormed(nodes) && WellFormed(r) && forall i :: 0 <= i < |cs| ==> cs[i] < |nodes| && cs[i] < |r|
    requires forall c :: c in cs ==> Children(r, c, b) == Children(nodes, c, b)
    ensures ChildrenOfEach(r, cs, b) == ChildrenOfEach(nodes, cs, b)
    decreases |cs|
  {
    if cs != [] {
      ChildrenOfEachFrame(nodes, r, cs[1..], b);
    }
  }

  /** Setting (`Some`) or removing (`None`) one attribute of one element;
      nothing else changes. */
  function WithAttr(nodes: seq<Node>, x: nat, name: string, v: Option<string>): (r: seq<Node>)
    requires x < |nodes|
    ensures |r| == |nodes|
    ensures forall i :: 0 <= i < |r| ==>
      && r[i].tag == nodes[i].tag && r[i].text == nodes[i].text
      && r[i].parent == nodes[i].parent && r[i].kids == nodes[i].kids
    ensures forall i :: 0 <= i < |r| && i != x ==> r[i].attrs == nodes[i].attrs
    ensures GetAttr(r, x, name) == v
    ensures forall k :: k != name ==> GetAttr(r, x, k) == GetAttr(nodes, x, k)
  {
    var attrs := if v.Some? then nodes[x].attrs[name := v.value] else nodes[x].attrs - {name};
    nodes[x := nodes[x].(attrs := attrs)]
  }

  lemma {:induction false} WithAttrKeepsWellFormed(nodes: seq<Node>, x: nat, name: string, v: Option<string>)
    requires WellFormed(nodes) && x < |nodes|
    ensures WellFormed(WithAttr(nodes, x, name, v))
  {
    var r := WithAttr(nodes, x, name, v);
    forall q | 0 <= q < |r|
      ensures KidsAgree(r, q)
    {
      KidsOf(nodes, q);
    }
    forall c | 0 <= c < |r|
      ensures ListedByParent(r, c)
    {
      if r[c].parent >= 0 {
        ParentOf(nodes, c);
      }
    }
  }

  // ---------------------------------------------------------------------------
  // Dropping whole sections

  /** `b` is `a` after every child of the root whose tag is in `tags` left
      the root, and nothing else moved. */
  predicate DroppedFromRoot(a: seq<Node>, b: seq<Node>, tags: set<string>)
  {
    && PrunedFrom(a, b)
    && forall y :: 0 <= y < |a| ==> b[y].parent == (if a[y].parent == 0 && a[y].tag in tags then NoParent else a[y].parent)
  }

  /** Removing exactly the root children with one tag drops that tag. */
  lemma {:induction false} DroppedFromRootOne(a: seq<Node>, b: seq<Node>, tag: string)
    requires |a| == |b| && DetachedExactly(a, b, set x | 0 <= x < |b| && a[x].parent == 0 && a[x].tag == tag)
    ensures DroppedFromRoot(a, b, {tag})
  {
  }

  /** Dropping `t1`, then `t2`, drops both. */
  lemma {:induction false} DroppedFromRootTrans(a: seq<Node>, b: seq<Node>, c: seq<Node>, t1: set<string>, t2: set<string>)
    requires DroppedFromRoot(a, b, t1) && DroppedFromRoot(b, c, t2)
    ensures DroppedFromRoot(a, c, t1 + t2)
  {
  }

  /** Dropping from the root is removing a set of elements. */
  lemma {:induction false} DroppedFromRootDetached(a: seq<Node>, b: seq<Node>, tags: set<string>)
    requires DroppedFromRoot(a, b, tags)
    ensures DetachedExactly(a, b, set x | 0 <= x < |a| && a[x].parent == 0 && a[x].tag in tags)
  {
  }

  /** After the drop no root child has a dropped tag. */
  lemma {:induction false} DroppedFromRootEmpties(a: seq<Node>, b: seq<Node>, tags: set<string>, tag: string)
    requires WellFormed(b) && DroppedFromRoot(a, b, tags) && tag in tags
    ensures Children(b, 0, tag) == []
  {
    FirstIn(Children(b, 0, tag));
  }
}
