/**
 * The subset of ElementTree the checks use: an element tree and the restricted path
 * language of `find`, `findall` and `findtext` — a bare `tag` step selects the direct
 * children with that tag, a `.//tag` step the descendants (below, never the element itself)
 * with that tag, in document order.
 */
module ConfigTree {
  import opened Wrappers

  datatype Node = Node(tag: string, text: Option<string>, children: seq<Node>)

  /** One step of a path: `tag` (children) or `.//tag` (descendants). */
  datatype Step = Child(tag: string) | Desc(tag: string)

  type Path = seq<Step>

  /** The nodes of `s` whose tag is `t`, in order. */
  function WithTag(s: seq<Node>, t: string): (r: seq<Node>)
    ensures |r| <= |s|
    ensures forall x :: x in r <==> x in s && x.tag == t
  {
    if s == [] then []
    else (if s[0].tag == t then [s[0]] else []) + WithTag(s[1..], t)
  }

  /** Filtering by tag keeps order and multiplicity: it distributes over concatenation. */
  lemma {:induction false} WithTagAppend(a: seq<Node>, b: seq<Node>, t: string)
    ensures WithTag(a + b, t) == WithTag(a, t) + WithTag(b, t)
  {
    if a == [] {
      assert a + b == b;
    } else {
      var head := if a[0].tag == t then [a[0]] else [];
      assert (a + b)[0] == a[0] && (a + b)[1..] == a[1..] + b;
      assert WithTag(a + b, t) == head + WithTag(a[1..] + b, t);
      WithTagAppend(a[1..], b, t);
      assert WithTag(a, t) == head + WithTag(a[1..], t);
    }
  }

  /** Descendants of `n` in document order, taken from its `i`-th child on. */
  function DescendantsFrom(n: Node, i: nat): seq<Node>
    requires i <= |n.children|
    decreases n, |n.children| - i
  {
    if i == |n.children| then []
    else [n.children[i]] + DescendantsFrom(n.children[i], 0) + DescendantsFrom(n, i + 1)
  }

  /** `n.iter()` without `n` itself. */
  function Descendants(n: Node): seq<Node> {
    DescendantsFrom(n, 0)
  }

  /** The nodes one step selects from a single context node. */
  function StepFrom(n: Node, step: Step): seq<Node> {
    match step
    case Child(t) => WithTag(n.children, t)
    case Desc(t) => WithTag(Descendants(n), t)
  }

  /** One step applied to every context node, results concatenated in context order. */
  function Select(context: seq<Node>, step: Step): seq<Node> {
    if context == [] then [] else StepFrom(context[0], step) + Select(context[1..], step)
  }

  function Eval(context: seq<Node>, path: Path): seq<Node>
    decreases |path|
  {
    if path == [] then context else Eval(Select(context, path[0]), path[1..])
  }

  /** `elem.findall(path)`. */
  function FindAll(root: Node, path: Path): seq<Node> {
    Eval([root], path)
  }

  /** `elem.find(path)`: the first match, if any. */
  function Find(root: Node, path: Path): (r: Option<Node>)
    ensures r.None? <==> FindAll(root, path) == []
    ensures r.Some? ==> r.value == FindAll(root, path)[0]
  {
    var all := FindAll(root, path);
    if all == [] then None else Some(all[0])
  }

  /** `elem.findtext(path)`: None without a match, else the first match's text or "". */
  function FindText(root: Node, path: Path): (r: Option<string>)
    ensures r.None? <==> Find(root, path).None?
    ensures r.Some? ==> r.value == Find(root, path).value.text.GetOr("")
  {
    match Find(root, path)
    case None => None
    case Some(n) => Some(n.text.GetOr(""))
  }

  /** `elem.find(path) is not None`. */
  predicate Has(root: Node, path: Path) {
    Find(root, path).Some?
  }

  /** A one-step path from the root is that step taken from the root. */
  lemma SelectSingle(n: Node, step: Step)
    ensures FindAll(n, [step]) == StepFrom(n, step)
  {
    assert [n][1..] == [];
    assert Select([n], step) == StepFrom(n, step) + [];
    assert [step][1..] == [];
    assert Eval([n], [step]) == Eval(Select([n], step), []);
  }

  /** A bare `tag` path finds exactly the direct children carrying that tag. */
  lemma ChildStepIsDirect(root: Node, t: string)
    ensures forall x :: x in FindAll(root, [Child(t)]) <==> x in root.children && x.tag == t
  {
    SelectSingle(root, Child(t));
  }

  /** Every child from `i` on is among the descendants counted from `i`. */
  lemma {:induction false} ChildrenAmongDescendantsFrom(n: Node, i: nat)
    requires i <= |n.children|
    ensures forall k :: i <= k < |n.children| ==> n.children[k] in DescendantsFrom(n, i)
    decreases |n.children| - i
  {
    if i < |n.children| {
      ChildrenAmongDescendantsFrom(n, i + 1);
    }
  }

  /** What `tag` finds, `.//tag` finds as well. */
  lemma ChildResultsAreDescResults(root: Node, t: string)
    ensures forall x :: x in FindAll(root, [Child(t)]) ==> x in FindAll(root, [Desc(t)])
  {
    SelectSingle(root, Child(t));
    SelectSingle(root, Desc(t));
    ChildrenAmongDescendantsFrom(root, 0);
    forall x | x in FindAll(root, [Child(t)])
      ensures x in FindAll(root, [Desc(t)])
    {
      assert x in root.children;
      var k :| 0 <= k < |root.children| && root.children[k] == x;
      assert x in Descendants(root);
    }
  }

  /** The config used to contrast the two step kinds: `<pfsense><services><unbound><dnssec/>`. */
  function NestedUnbound(): Node {
    Node("pfsense", None, [Node("services", None, [Node("unbound", None, [Node("dnssec", None, [])])])])
  }

  /** A bare `unbound` misses a nested resolver block that `.//unbound` finds. */
  lemma BareStepMissesNested()
    ensures !Has(NestedUnbound(), [Child("unbound")])
    ensures Has(NestedUnbound(), [Desc("unbound")])
  {
    var root := NestedUnbound();
    SelectSingle(root, Child("unbound"));
    SelectSingle(root, Desc("unbound"));
    var services := root.children[0];
    assert DescendantsFrom(services, 0)[0].tag == "unbound";
    assert Descendants(root)[1].tag == "unbound";
  }

  /** `findtext` on a matched element without text is "", not None. */
  lemma FindTextOfEmptyElement(root: Node, path: Path)
    requires Find(root, path).Some? && Find(root, path).value.text.None?
    ensures FindText(root, path) == Some("")
  {
  }
}
