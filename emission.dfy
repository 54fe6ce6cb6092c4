/**
 * What the transaction formatter emits, stated as functions of the delta: the operation log a
 * walk produces, a reference enumeration of the changes a delta describes, and the key chain
 * that leads from the delta's root to each of them.
 */
module Emission {
  import opened Json
  import opened Results
  import opened Deltas
  import opened Paths

  /** A path-addressed operation of the document store's transaction. */
  datatype Op =
    | Insert(path: string, value: Value)
    | Replace(path: string, value: Value)
    | Delete(path: string)

  /** The operation a change becomes at an address. */
  function OpFor(c: Change, at: string): Op {
    match c
    case Insertion(v) => Insert(at, v)
    case Replacement(v) => Replace(at, v)
    case Deletion => Delete(at)
  }

  /** The operations the walk emits for `d` when it is visited with path stack `path`. */
  function Emitted(d: Delta, path: seq<Segment>, base: string): seq<Op>
    decreases d, 1, 0
  {
    match d
    case Node(_, children) => EmittedChildren(d, |children|, path, base)
    case _ =>
      match ChangeOf(d)
      case Some(c) => [OpFor(c, Render(base, path))]
      case None => []
  }

  /** The operations emitted for the first `n` children of `d`, each visited with its leftKey pushed. */
  function EmittedChildren(d: Delta, n: nat, path: seq<Segment>, base: string): seq<Op>
    requires d.Node? && n <= |d.children|
    decreases d, 0, n
  {
    if n == 0 then []
    else
      var c := d.children[n - 1];
      assert c in d.children;
      EmittedChildren(d, n - 1, path, base) + Emitted(c.delta, path + [c.leftKey], base)
  }

  /** The transaction of a whole walk: the root is visited with an empty path stack. */
  function Transaction(d: Delta, base: string): seq<Op> {
    Emitted(d, [], base)
  }

  /** A change the delta describes, with the chain of leftKeys from the delta's root to it. */
  datatype Site = Site(chain: seq<Segment>, change: Change)

  /** Every change in `d`, depth first, children in the order the delta lists them. */
  function Sites(d: Delta): seq<Site>
    decreases d, 1, 0
  {
    match d
    case Node(_, children) => SitesOfChildren(d, |children|)
    case _ =>
      match ChangeOf(d)
      case Some(c) => [Site([], c)]
      case None => []
  }

  function SitesOfChildren(d: Delta, n: nat): seq<Site>
    requires d.Node? && n <= |d.children|
    decreases d, 0, n
  {
    if n == 0 then []
    else
      var c := d.children[n - 1];
      assert c in d.children;
      SitesOfChildren(d, n - 1) + Under(c.leftKey, Sites(c.delta))
  }

  /** The same sites, seen from one level up, through the key `key`. */
  function Under(key: Segment, sites: seq<Site>): seq<Site> {
    seq(|sites|, i requires 0 <= i < |sites| => Site([key] + sites[i].chain, sites[i].change))
  }

  /** The operations for a list of sites, addressed below the path stack `path`. */
  function OpsAt(sites: seq<Site>, path: seq<Segment>, base: string): seq<Op> {
    seq(|sites|, i requires 0 <= i < |sites| => OpFor(sites[i].change, Render(base, path + sites[i].chain)))
  }

  /** Following the keys of `chain` down from `d` leads to the node `target`. */
  ghost predicate Reaches(d: Delta, chain: seq<Segment>, target: Delta)
    decreases chain
  {
    if chain == [] then target == d
    else
      d.Node? &&
      exists c :: c in d.children && c.leftKey == chain[0] && Reaches(c.delta, chain[1..], target)
  }

  /** No node of `d` is added, modified or deleted. */
  predicate Quiet(d: Delta)
    decreases d
  {
    match d
    case Node(_, children) => forall c :: c in children ==> Quiet(c.delta)
    case _ => ChangeOf(d).None?
  }

  lemma OpsAtAppend(a: seq<Site>, b: seq<Site>, path: seq<Segment>, base: string)
    ensures OpsAt(a + b, path, base) == OpsAt(a, path, base) + OpsAt(b, path, base)
  {
  }

  lemma OpsAtUnder(key: Segment, sites: seq<Site>, path: seq<Segment>, base: string)
    ensures OpsAt(Under(key, sites), path, base) == OpsAt(sites, path + [key], base)
  {
    forall i | 0 <= i < |sites|
      ensures path + ([key] + sites[i].chain) == (path + [key]) + sites[i].chain
    {
    }
  }

  /**
   * The walk emits exactly one operation per change, in visit order, each addressed by the
   * path stack it was visited with followed by the change's key chain.
   */
  lemma {:induction false} EmittedIsSites(d: Delta, path: seq<Segment>, base: string)
    ensures Emitted(d, path, base) == OpsAt(Sites(d), path, base)
    decreases d, 1, 0
  {
    if d.Node? {
      EmittedChildrenIsSites(d, |d.children|, path, base);
    } else {
      assert path + [] == path;
    }
  }

  lemma {:induction false} EmittedChildrenIsSites(d: Delta, n: nat, path: seq<Segment>, base: string)
    requires d.Node? && n <= |d.children|
    ensures EmittedChildren(d, n, path, base) == OpsAt(SitesOfChildren(d, n), path, base)
    decreases d, 0, n
  {
    if n > 0 {
      var c := d.children[n - 1];
      assert c in d.children;
      EmittedChildrenIsSites(d, n - 1, path, base);
      EmittedIsSites(c.delta, path + [c.leftKey], base);
      OpsAtUnder(c.leftKey, Sites(c.delta), path, base);
      OpsAtAppend(SitesOfChildren(d, n - 1), Under(c.leftKey, Sites(c.delta)), path, base);
    }
  }

  /** Every listed site is a change that its key chain leads to. */
  lemma {:induction false} SiteIsReachable(d: Delta, s: Site)
    requires s in Sites(d)
    ensures exists t :: Reaches(d, s.chain, t) && ChangeOf(t) == Some(s.change)
    decreases d, 1, 0
  {
    if d.Node? {
      SiteOfChildIsReachable(d, |d.children|, s);
    } else {
      assert Reaches(d, s.chain, d);
    }
  }

  lemma {:induction false} SiteOfChildIsReachable(d: Delta, n: nat, s: Site)
    requires d.Node? && n <= |d.children|
    requires s in SitesOfChildren(d, n)
    ensures exists t :: Reaches(d, s.chain, t) && ChangeOf(t) == Some(s.change)
    decreases d, 0, n
  {
    var c := d.children[n - 1];
    assert c in d.children;
    var under := Under(c.leftKey, Sites(c.delta));
    if s in SitesOfChildren(d, n - 1) {
      SiteOfChildIsReachable(d, n - 1, s);
    } else {
      assert s in under;
      var i :| 0 <= i < |under| && under[i] == s;
      var inner := Sites(c.delta)[i];
      SiteIsReachable(c.delta, inner);
      var t :| Reaches(c.delta, inner.chain, t) && ChangeOf(t) == Some(inner.change);
      assert s.chain == [c.leftKey] + inner.chain && s.chain[1..] == inner.chain;
      assert Reaches(d, s.chain, t);
    }
  }

  /** Every change that a key chain leads to is listed as a site, under that chain. */
  lemma {:induction false} ReachableIsSite(d: Delta, chain: seq<Segment>, t: Delta)
    requires Reaches(d, chain, t) && ChangeOf(t).Some?
    ensures Site(chain, ChangeOf(t).value) in Sites(d)
    decreases chain
  {
    if chain != [] {
      var c :| c in d.children && c.leftKey == chain[0] && Reaches(c.delta, chain[1..], t);
      ReachableIsSite(c.delta, chain[1..], t);
      var inner := Site(chain[1..], ChangeOf(t).value);
      var i :| 0 <= i < |Sites(c.delta)| && Sites(c.delta)[i] == inner;
      assert Under(c.leftKey, Sites(c.delta))[i] == Site(chain, ChangeOf(t).value);
      var k :| 0 <= k < |d.children| && d.children[k] == c;
      ChildSitesIncluded(d, |d.children|, k);
    }
  }

  lemma {:induction false} ChildSitesIncluded(d: Delta, n: nat, k: nat)
    requires d.Node? && k < n <= |d.children|
    ensures var c := d.children[k];
      forall s :: s in Under(c.leftKey, Sites(c.delta)) ==> s in SitesOfChildren(d, n)
    decreases n
  {
    if k < n - 1 {
      ChildSitesIncluded(d, n - 1, k);
    }
  }

  /** The walk emits nothing exactly when no node of the delta is added, modified or deleted. */
  lemma {:induction false} SilentIffQuiet(d: Delta, path: seq<Segment>, base: string)
    ensures Emitted(d, path, base) == [] <==> Quiet(d)
    decreases d, 1, 0
  {
    if d.Node? {
      SilentChildrenIffQuiet(d, |d.children|, path, base);
      assert Quiet(d) <==> forall i :: 0 <= i < |d.children| ==> Quiet(d.children[i].delta);
    }
  }

  lemma {:induction false} SilentChildrenIffQuiet(d: Delta, n: nat, path: seq<Segment>, base: string)
    requires d.Node? && n <= |d.children|
    ensures EmittedChildren(d, n, path, base) == []
        <==> forall i :: 0 <= i < n ==> Quiet(d.children[i].delta)
    decreases d, 0, n
  {
    if n > 0 {
      var c := d.children[n - 1];
      assert c in d.children;
      SilentChildrenIffQuiet(d, n - 1, path, base);
      SilentIffQuiet(c.delta, path + [c.leftKey], base);
    }
  }

  /**
   * Unchanged, moved, move-destination and text-diff nodes emit nothing wherever they are
   * visited; an added, modified or deleted node emits its one operation at the address of
   * the path stack it is visited with, without looking into the values it carries.
   */
  lemma NodeEmission(d: Delta, path: seq<Segment>, base: string)
    ensures d.Unchanged? || d.Moved? || d.MoveDestination? || d.TextDiff? ==> Emitted(d, path, base) == []
    ensures d.Added? ==> Emitted(d, path, base) == [Insert(Render(base, path), d.newValue)]
    ensures d.Modified? ==> Emitted(d, path, base) == [Replace(Render(base, path), d.newValue)]
    ensures d.Deleted? ==> Emitted(d, path, base) == [Delete(Render(base, path))]
  {
  }

  /** A change to a nested field is addressed by its key chain below the base pointer. */
  lemma NestedReplaceExample()
    ensures Transaction(
              Node(ObjectNode, [Child(Key("a"),
                Node(ObjectNode, [Child(Key("b"), Modified(Str("foo"), Str("bar")))]))]),
              "doc")
         == [Replace("doc/a/b", Str("bar"))]
  {
    var leaf := Modified(Str("foo"), Str("bar"));
    var inner := Node(ObjectNode, [Child(Key("b"), leaf)]);
    var d := Node(ObjectNode, [Child(Key("a"), inner)]);
    var p := [Key("a"), Key("b")];
    var ts := Texts(p);
    assert ts == ["a", "b"] && ts[1..] == ["b"];
    assert Join(ts) == "a/b";
    assert Render("doc", p) == "doc/a/b";
    assert Emitted(leaf, p, "doc") == [Replace("doc/a/b", Str("bar"))];
    assert [Key("a")] + [Key("b")] == p;
    assert EmittedChildren(inner, 0, [Key("a")], "doc") == [];
    assert Emitted(inner, [Key("a")], "doc") == EmittedChildren(inner, 1, [Key("a")], "doc")
        == Emitted(leaf, p, "doc");
    assert [] + [Key("a")] == [Key("a")];
    assert EmittedChildren(d, 0, [], "doc") == [];
    assert Emitted(d, [], "doc") == EmittedChildren(d, 1, [], "doc") == Emitted(inner, [Key("a")], "doc");
  }

  /** A change at the delta's root is addressed by the base pointer and a trailing "/". */
  lemma RootChangeExample(v: Value, w: Value)
    ensures Transaction(Modified(v, w), "doc") == [Replace("doc/", w)]
  {
    assert Texts([]) == [] && Join([]) == "";
    assert Render("doc", []) == "doc/";
    assert ChangeOf(Modified(v, w)) == Some(Replacement(w));
  }
}
