/** The decision-path enumerator: a tree explored while it is being discovered. */
module Traversal {
  import opened Wrappers

  type Signature = string

  /**
   What a test body looks like from one point on: nothing more to decide, sibling subcases, or a generator
   with the rest of the body under each of its values.
   */
  datatype Tree = Leaf | Subcases(names: seq<Signature>, bodies: seq<Tree>) | Generator(values: seq<Tree>)
  {
    function Kids(): seq<Tree> {
      match this
      case Leaf => []
      case Subcases(_, bodies) => bodies
      case Generator(values) => values
    }
  }

  /** Every decision has a branch, sibling subcases have distinct signatures, and no point mixes the two kinds. */
  ghost predicate WellFormed(t: Tree) {
    match t
    case Leaf => true
    case Subcases(names, bodies) =>
      && bodies != [] && |names| == |bodies|
      && (forall i, j :: 0 <= i < j < |names| ==> names[i] != names[j])
      && (forall b :: b in bodies ==> WellFormed(b))
    case Generator(values) => values != [] && (forall v :: v in values ==> WellFormed(v))
  }

  // ---------- the paths of a tree ----------

  /** `p` leads from the root to a leaf. */
  predicate IsLeafPath(t: Tree, p: seq<nat>) {
    if t.Kids() == [] then p == []
    else p != [] && p[0] < |t.Kids()| && IsLeafPath(t.Kids()[p[0]], p[1..])
  }

  function Prefixed(i: nat, ps: seq<seq<nat>>): (r: seq<seq<nat>>)
    ensures |r| == |ps| && forall k :: 0 <= k < |ps| ==> r[k] == [i] + ps[k]
  {
    if ps == [] then [] else [[i] + ps[0]] + Prefixed(i, ps[1..])
  }

  /** The root-to-leaf paths, leftmost first. */
  function Leaves(t: Tree): seq<seq<nat>>
    decreases t, |t.Kids()| + 2
  {
    if t.Kids() == [] then [[]] else LeavesFrom(t, 0)
  }

  function LeavesFrom(t: Tree, i: nat): seq<seq<nat>>
    requires i <= |t.Kids()|
    decreases t, |t.Kids()| - i + 1
  {
    if i == |t.Kids()| then [] else Prefixed(i, Leaves(t.Kids()[i])) + LeavesFrom(t, i + 1)
  }

  /** The choice a path makes at the current point: the one it names, or the first. */
  function First(p: seq<nat>): nat {
    if p == [] then 0 else p[0]
  }

  /** What a path says about the points below. */
  function Below(p: seq<nat>): seq<nat> {
    if p == [] then [] else p[1..]
  }

  /** The path that a run takes when `p` tells it the first choices: the first branch wherever `p` is silent. */
  function Extend(t: Tree, p: seq<nat>): seq<nat>
    requires IsPrefix(t, p)
    decreases t
  {
    if t.Kids() == [] then []
    else
      [First(p)] + Extend(t.Kids()[First(p)], Below(p))
  }

  /** `p` names existing branches. */
  predicate IsPrefix(t: Tree, p: seq<nat>) {
    p == [] || (p[0] < |t.Kids()| && IsPrefix(t.Kids()[p[0]], p[1..]))
  }

  /** The branch counts met along a leaf path. */
  function Counts(t: Tree, p: seq<nat>): seq<nat>
    requires IsLeafPath(t, p)
  {
    if t.Kids() == [] then [] else [|t.Kids()|] + Counts(t.Kids()[p[0]], p[1..])
  }

  /**
   The choices that come next after `p`: the deepest one that can still be raised is raised, the deeper ones
   forgotten.
   */
  function Successor(p: seq<nat>, counts: seq<nat>): Option<seq<nat>>
    requires |p| == |counts|
  {
    if p == [] then None
    else
      match Successor(p[1..], counts[1..])
      case Some(q) => Some([p[0]] + q)
      case None => if p[0] + 1 < counts[0] then Some([p[0] + 1]) else None
  }

  // ---------- facts about paths ----------

  lemma {:induction false} ExtendIsLeafPath(t: Tree, p: seq<nat>)
    requires IsPrefix(t, p)
    ensures IsLeafPath(t, Extend(t, p))
    decreases t
  {
    if t.Kids() != [] {
      ExtendIsLeafPath(t.Kids()[First(p)], Below(p));
    }
  }

  lemma {:induction false} CountsLength(t: Tree, p: seq<nat>)
    requires IsLeafPath(t, p)
    ensures |Counts(t, p)| == |p|
    decreases t
  {
    if t.Kids() != [] { CountsLength(t.Kids()[p[0]], p[1..]); }
  }

  lemma {:induction false} LeafPathIsPrefix(t: Tree, p: seq<nat>)
    requires IsLeafPath(t, p)
    ensures IsPrefix(t, p) && Extend(t, p) == p
    decreases t
  {
    if t.Kids() != [] { LeafPathIsPrefix(t.Kids()[p[0]], p[1..]); }
  }

  lemma {:induction false} SomeLeaf(t: Tree)
    ensures Leaves(t) != [] && Leaves(t)[0] == Extend(t, [])
    decreases t
  {
    if t.Kids() != [] { SomeLeaf(t.Kids()[0]); }
  }

  /** The leaf list holds exactly the leaf paths. */
  lemma {:induction false} LeavesComplete(t: Tree, p: seq<nat>)
    ensures p in Leaves(t) <==> IsLeafPath(t, p)
    decreases t, |t.Kids()| + 2
  {
    if t.Kids() != [] { LeavesFromComplete(t, 0, p); }
  }

  lemma {:induction false} LeavesFromComplete(t: Tree, i: nat, p: seq<nat>)
    requires i <= |t.Kids()| && t.Kids() != []
    ensures p in LeavesFrom(t, i) <==> IsLeafPath(t, p) && p[0] >= i
    decreases t, |t.Kids()| - i + 1
  {
    if i < |t.Kids()| {
      LeavesFromComplete(t, i + 1, p);
      var kid := t.Kids()[i];
      PrefixedMembers(i, Leaves(kid), p);
      if p != [] { LeavesComplete(kid, p[1..]); }
      assert p in LeavesFrom(t, i) <==> p in Prefixed(i, Leaves(kid)) || p in LeavesFrom(t, i + 1);
    }
  }

  lemma PrefixedMembers(i: nat, ps: seq<seq<nat>>, p: seq<nat>)
    ensures p in Prefixed(i, ps) <==> p != [] && p[0] == i && p[1..] in ps
  {
    var here := Prefixed(i, ps);
    if p in here {
      var k :| 0 <= k < |here| && here[k] == p;
      assert p[1..] == ps[k];
    }
    if p != [] && p[0] == i && p[1..] in ps {
      var k :| 0 <= k < |ps| && ps[k] == p[1..];
      assert here[k] == p;
    }
  }

  /** Lexicographic order on paths. */
  predicate Before(p: seq<nat>, q: seq<nat>) {
    p != [] && q != [] && (p[0] < q[0] || (p[0] == q[0] && Before(p[1..], q[1..])))
  }

  /** The leaf list is strictly increasing, so no path occurs twice. */
  lemma {:induction false} LeavesSorted(t: Tree, i: nat, j: nat)
    requires i < j < |Leaves(t)|
    ensures Before(Leaves(t)[i], Leaves(t)[j])
    decreases t, |t.Kids()| + 2
  {
    LeavesFromSorted(t, 0, i, j);
  }

  lemma {:induction false} LeavesFromSorted(t: Tree, n: nat, i: nat, j: nat)
    requires t.Kids() != [] && n <= |t.Kids()| && i < j < |LeavesFrom(t, n)|
    ensures Before(LeavesFrom(t, n)[i], LeavesFrom(t, n)[j])
    decreases t, |t.Kids()| - n + 1
  {
    var below, here := Leaves(t.Kids()[n]), Prefixed(n, Leaves(t.Kids()[n]));
    if j < |here| {
      LeavesSorted(t.Kids()[n], i, j);
      assert here[i][1..] == below[i] && here[j][1..] == below[j];
    } else if i < |here| {
      var q := LeavesFrom(t, n)[j];
      assert q == LeavesFrom(t, n + 1)[j - |here|];
      LeavesFromComplete(t, n + 1, q);
      assert here[i][0] == n;
    } else {
      LeavesFromSorted(t, n + 1, i - |here|, j - |here|);
    }
  }

  /** Raising the deepest choice that can be raised and then going first everywhere gives the next leaf. */
  lemma {:induction false} NextLeaf(t: Tree, k: nat)
    requires k < |Leaves(t)|
    ensures IsLeafPath(t, Leaves(t)[k]) && |Counts(t, Leaves(t)[k])| == |Leaves(t)[k]|
    ensures var next := Successor(Leaves(t)[k], Counts(t, Leaves(t)[k]));
      if k + 1 < |Leaves(t)| then next.Some? && IsPrefix(t, next.value) && Extend(t, next.value) == Leaves(t)[k + 1]
      else next.None?
    decreases t, |t.Kids()| + 2
  {
    var p := Leaves(t)[k];
    LeavesComplete(t, p);
    CountsLength(t, p);
    if t.Kids() != [] { NextLeafFrom(t, 0, k); }
  }

  lemma {:induction false} NextLeafFrom(t: Tree, n: nat, k: nat)
    requires t.Kids() != [] && n <= |t.Kids()| && k < |LeavesFrom(t, n)|
    ensures var p := LeavesFrom(t, n)[k];
      && IsLeafPath(t, p) && |Counts(t, p)| == |p|
      && var next := Successor(p, Counts(t, p));
         if k + 1 < |LeavesFrom(t, n)|
         then next.Some? && IsPrefix(t, next.value) && Extend(t, next.value) == LeavesFrom(t, n)[k + 1]
         else next.None?
    decreases t, |t.Kids()| - n + 1
  {
    var kid := t.Kids()[n];
    var below, here, p := Leaves(kid), Prefixed(n, Leaves(kid)), LeavesFrom(t, n)[k];
    LeavesFromComplete(t, n, p);
    CountsLength(t, p);
    if k >= |here| {
      NextLeafFrom(t, n + 1, k - |here|);
    } else {
      NextLeaf(kid, k);
      NextLeafHere(t, n, k, kid, below[k], Successor(below[k], Counts(kid, below[k])));
    }
  }

  /** `next` leads to the leaf after the `k`-th, if there is one. */
  predicate LeadsOn(t: Tree, leaves: seq<seq<nat>>, k: nat, next: Option<seq<nat>>) {
    if k + 1 < |leaves| then next.Some? && IsPrefix(t, next.value) && Extend(t, next.value) == leaves[k + 1]
    else next.None?
  }

  lemma LeavesSplit(t: Tree, n: nat, kid: Tree)
    requires n < |t.Kids()| && kid == t.Kids()[n]
    ensures |LeavesFrom(t, n)| == |Leaves(kid)| + |LeavesFrom(t, n + 1)|
    ensures forall k :: 0 <= k < |Leaves(kid)| ==> LeavesFrom(t, n)[k] == [n] + Leaves(kid)[k]
    ensures LeavesFrom(t, n + 1) != [] ==> LeavesFrom(t, n)[|Leaves(kid)|] == LeavesFrom(t, n + 1)[0]
  {
  }

  /**
   The leaf after one of the first child's: the next of the child if it has one, the first of the next child if not.
   */
  lemma NextLeafHere(t: Tree, n: nat, k: nat, kid: Tree, q: seq<nat>, next: Option<seq<nat>>)
    requires n < |t.Kids()| && kid == t.Kids()[n] && k < |Leaves(kid)| && q == Leaves(kid)[k]
    requires IsLeafPath(kid, q) && |Counts(kid, q)| == |q| && next == Successor(q, Counts(kid, q))
    requires LeadsOn(kid, Leaves(kid), k, next)
    ensures LeavesFrom(t, n)[k] == [n] + q
    ensures LeadsOn(t, LeavesFrom(t, n), k, Successor([n] + q, Counts(t, [n] + q)))
  {
    LeavesSplit(t, n, kid);
    CountsCons(t, n, q);
    SuccessorCons(n, q, |t.Kids()|, Counts(kid, q));
    LeadsOnHere(t, n, k, kid, next, Leaves(kid), LeavesFrom(t, n + 1), LeavesFrom(t, n),
                Successor([n] + q, Counts(t, [n] + q)));
  }

  lemma LeadsOnHere(t: Tree, n: nat, k: nat, kid: Tree, next: Option<seq<nat>>, below: seq<seq<nat>>,
                    later: seq<seq<nat>>, all: seq<seq<nat>>, after: Option<seq<nat>>)
    requires n < |t.Kids()| && kid == t.Kids()[n] && k < |below| && LeadsOn(kid, below, k, next)
    requires |all| == |below| + |later| && (forall i :: 0 <= i < |below| ==> all[i] == [n] + below[i])
    requires later == LeavesFrom(t, n + 1) && (later != [] ==> all[|below|] == later[0])
    requires after == match next
                      case Some(p) => Some([n] + p)
                      case None => if n + 1 < |t.Kids()| then Some([n + 1]) else None
    ensures LeadsOn(t, all, k, after)
  {
    if next.Some? {
      InsideKid(t, n, next.value);
    } else if n + 1 < |t.Kids()| {
      NextKid(t, n + 1);
    }
  }

  lemma CountsCons(t: Tree, n: nat, q: seq<nat>)
    requires n < |t.Kids()| && IsLeafPath(t.Kids()[n], q)
    ensures IsLeafPath(t, [n] + q) && Counts(t, [n] + q) == [|t.Kids()|] + Counts(t.Kids()[n], q)
  {
    assert ([n] + q)[1..] == q;
  }

  lemma SuccessorCons(i: nat, p: seq<nat>, c: nat, counts: seq<nat>)
    requires |p| == |counts|
    ensures Successor([i] + p, [c] + counts) ==
      match Successor(p, counts)
      case Some(q) => Some([i] + q)
      case None => if i + 1 < c then Some([i + 1]) else None
  {
    assert ([i] + p)[1..] == p && ([c] + counts)[1..] == counts;
  }

  lemma InsideKid(t: Tree, n: nat, q: seq<nat>)
    requires n < |t.Kids()| && IsPrefix(t.Kids()[n], q)
    ensures IsPrefix(t, [n] + q) && Extend(t, [n] + q) == [n] + Extend(t.Kids()[n], q)
  {
    assert ([n] + q)[1..] == q;
  }

  lemma NextKid(t: Tree, n: nat)
    requires n < |t.Kids()|
    ensures IsPrefix(t, [n]) && LeavesFrom(t, n) != [] && Extend(t, [n]) == LeavesFrom(t, n)[0]
  {
    SomeLeaf(t.Kids()[n]);
    assert [n][1..] == [];
  }

  // ---------- the enumerator ----------

  datatype DecisionPoint = DecisionPoint(branchCount: nat, subcases: seq<Signature>)

  /** What a run along `p` finds out about the points it passes. */
  function Points(t: Tree, p: seq<nat>): seq<DecisionPoint>
    requires IsLeafPath(t, p)
  {
    if t.Kids() == [] then []
    else
      var here := DecisionPoint(|t.Kids()|, if t.Subcases? then t.names else []);
      [here] + Points(t.Kids()[p[0]], p[1..])
  }

  lemma {:induction false} PointsCounts(t: Tree, p: seq<nat>)
    requires IsLeafPath(t, p)
    ensures |Points(t, p)| == |p| == |Counts(t, p)|
    ensures forall i :: 0 <= i < |p| ==> Points(t, p)[i].branchCount == Counts(t, p)[i]
    decreases t
  {
    if t.Kids() != [] { PointsCounts(t.Kids()[p[0]], p[1..]); }
  }

  function CountsOf(points: seq<DecisionPoint>): (counts: seq<nat>)
    ensures |counts| == |points| && forall i :: 0 <= i < |points| ==> counts[i] == points[i].branchCount
  {
    if points == [] then [] else [points[0].branchCount] + CountsOf(points[1..])
  }

  /** Where `signature` is among the siblings noted, or where it would be noted next. */
  function SiblingIndex(seen: seq<Signature>, signature: Signature): nat {
    if seen == [] || seen[0] == signature then 0 else 1 + SiblingIndex(seen[1..], signature)
  }

  lemma {:induction false} NewSibling(seen: seq<Signature>, signature: Signature)
    requires signature !in seen
    ensures SiblingIndex(seen, signature) == |seen|
  {
    if seen != [] { NewSibling(seen[1..], signature); }
  }

  class TraversalState {
    var discovered: seq<DecisionPoint>
    var path: seq<nat>
    var depth: nat
    var enteredDepths: seq<nat>
    var activeDepth: nat

    constructor ()
      ensures path == [] && discovered == [] && enteredDepths == [] && activeDepth == 0 && depth == 0
    {
      discovered, path, depth, enteredDepths, activeDepth := [], [], 0, [], 0;
    }

    method ResetForTestCase()
      modifies this
      ensures path == [] && discovered == [] && enteredDepths == [] && activeDepth == 0 && depth == 0
    {
      path, discovered, enteredDepths, activeDepth, depth := [], [], [], 0, 0;
    }

    method ResetForRun()
      modifies this
      ensures path == old(path) && discovered == [] && enteredDepths == [] && activeDepth == 0 && depth == 0
    {
      discovered, enteredDepths, activeDepth, depth := [], [], 0, 0;
    }

    method EnsureDecisionPoint()
      requires depth <= |discovered| && depth <= |path|
      modifies this`discovered, this`path
      ensures depth < |discovered| && (|old(discovered)| == depth ==> depth < |path|)
      ensures discovered ==
        if |old(discovered)| == depth then old(discovered) + [DecisionPoint(0, [])] else old(discovered)
      ensures path == if |old(discovered)| == depth && |old(path)| == depth then old(path) + [0] else old(path)
    {
      if |discovered| == depth {
        discovered := discovered + [DecisionPoint(0, [])];
        if |path| == depth {
          path := path + [0];
        }
      }
    }

    /** Notes the sibling at the current point, if it is new there, and enters it if the path says so. */
    method TryEnterSubcase(signature: Signature) returns (entered: bool)
      requires depth <= |discovered| && depth <= |path| && (depth < |discovered| ==> depth < |path|)
      modifies this
      ensures path == if |old(discovered)| == old(depth) == |old(path)| then old(path) + [0] else old(path)
      ensures old(depth) < |path|
      ensures var seen := if old(depth < |discovered|) then old(discovered[depth].subcases) else [];
        var now := if signature in seen then seen else seen + [signature];
        && discovered ==
           (if old(depth < |discovered|) then old(discovered) else old(discovered) + [DecisionPoint(0, [])])
                         [old(depth) := DecisionPoint(|now|, now)]
        && entered == (SiblingIndex(seen, signature) == path[old(depth)])
      ensures entered ==>
        depth == old(depth) + 1 && enteredDepths == old(enteredDepths) + [old(depth)] &&
        activeDepth == old(activeDepth) + 1
      ensures !entered ==> depth == old(depth) && enteredDepths == old(enteredDepths) && activeDepth == old(activeDepth)
    {
      EnsureDecisionPoint();
      var subcases := discovered[depth].subcases;
      var sibling := 0;
      ghost var seen := subcases;
      assert seen[0..] == seen;
      while sibling < |subcases| && subcases[sibling] != signature
        invariant sibling <= |subcases| && signature !in subcases[..sibling]
        invariant SiblingIndex(seen, signature) == sibling + SiblingIndex(seen[sibling..], signature)
      {
        assert seen[sibling..][1..] == seen[sibling + 1..];
        sibling := sibling + 1;
      }
      assert signature in seen <==> sibling < |seen|;
      if sibling == |subcases| {
        subcases := subcases + [signature];
      }
      discovered := discovered[depth := DecisionPoint(|subcases|, subcases)];
      if sibling != path[depth] {
        return false;
      }
      enteredDepths := enteredDepths + [depth];
      activeDepth := activeDepth + 1;
      depth := depth + 1;
      return true;
    }

    method LeaveSubcase()
      requires enteredDepths != [] && activeDepth > 0
      modifies this`depth, this`enteredDepths, this`activeDepth
      ensures depth == old(enteredDepths[|enteredDepths| - 1])
      ensures enteredDepths == old(enteredDepths[..|enteredDepths| - 1]) && activeDepth == old(activeDepth) - 1
    {
      depth := enteredDepths[|enteredDepths| - 1];
      enteredDepths := enteredDepths[..|enteredDepths| - 1];
      activeDepth := activeDepth - 1;
    }

    method AcquireGeneratorIndex(count: nat) returns (index: nat)
      requires depth <= |discovered| && depth <= |path| && (depth < |discovered| ==> depth < |path|)
      modifies this`discovered, this`path, this`depth
      ensures path == if |old(discovered)| == old(depth) == |old(path)| then old(path) + [0] else old(path)
      ensures old(depth) < |path|
      ensures discovered == if old(depth < |discovered|)
                            then old(discovered)[old(depth) := old(discovered[depth]).(branchCount := count)]
                            else old(discovered) + [DecisionPoint(count, [])]
      ensures depth == old(depth) + 1
      ensures index == if path[old(depth)] < count then path[old(depth)] else 0
    {
      EnsureDecisionPoint();
      discovered := discovered[depth := discovered[depth].(branchCount := count)];
      index := path[depth];
      depth := depth + 1;
      if index >= count {
        index := 0;
      }
    }

    /** Moves on to the next path, if there is one; what was chosen beyond the points discovered does not count. */
    method Advance() returns (more: bool)
      modifies this`path
      ensures var n := if |old(path)| < |discovered| then |old(path)| else |discovered|;
        var next := Successor(old(path)[..n], CountsOf(discovered)[..n]);
        more == next.Some? && path == if more then next.value else old(path)
    {
      var maxDepth := if |path| < |discovered| then |path| else |discovered|;
      ghost var p, counts := path[..maxDepth], CountsOf(discovered)[..maxDepth];
      var d: nat := maxDepth;
      assert p[|p|..] == [] && counts[|p|..] == [];
      while d > 0
        invariant d <= |p| == |counts| == maxDepth && path == old(path)
        invariant Successor(p[d..], counts[d..]).None?
        decreases d
      {
        var index := d - 1;
        assert p[index..][1..] == p[d..] && counts[index..][1..] == counts[d..];
        if path[index] + 1 < discovered[index].branchCount {
          SuccessorAbove(p, counts, index, [path[index] + 1]);
          path := path[..index] + [path[index] + 1];
          assert path == p[..index] + [p[index] + 1];
          return true;
        }
        d := index;
      }
      assert p[0..] == p && counts[0..] == counts;
      return false;
    }

    // ---------- running a test body ----------

    /**
     A run of the body `t` from the current point on: at a generator it goes on under the chosen value; at
     subcases it tries each sibling in turn and runs the body of the one it may enter.
     */
    method RunBody(t: Tree)
      requires WellFormed(t)
      requires depth == |discovered| && depth <= |path| && IsPrefix(t, path[depth..])
      modifies this
      ensures path == old(path[..depth]) + Extend(t, old(path[depth..]))
      ensures IsLeafPath(t, Extend(t, old(path[depth..])))
      ensures discovered == old(discovered) + Points(t, Extend(t, old(path[depth..])))
      ensures enteredDepths == old(enteredDepths) && activeDepth == old(activeDepth)
      decreases t, 2
    {
      match t {
        case Leaf =>
          assert path == path[..depth] + path[depth..];
        case Generator(values) => RunGenerator(t);
        case Subcases(names, bodies) => RunSiblings(t);
      }
    }

    method RunGenerator(t: Tree)
      requires t.Generator? && WellFormed(t)
      requires depth == |discovered| && depth <= |path| && IsPrefix(t, path[depth..])
      modifies this
      ensures path == old(path[..depth]) + Extend(t, old(path[depth..]))
      ensures IsLeafPath(t, Extend(t, old(path[depth..])))
      ensures discovered == old(discovered) + Points(t, Extend(t, old(path[depth..])))
      ensures enteredDepths == old(enteredDepths) && activeDepth == old(activeDepth)
      decreases t, 1
    {
      ghost var d, prefix, rest := depth, path[..depth], path[depth..];
      var index := AcquireGeneratorIndex(|t.values|);
      GeneratorStep(t, prefix, rest, path, d);
      ChoiceMade(t, rest, prefix, old(discovered));
      RunBody(t.values[index]);
    }

    method RunSiblings(t: Tree)
      requires t.Subcases? && WellFormed(t)
      requires depth == |discovered| && depth <= |path| && IsPrefix(t, path[depth..])
      modifies this
      ensures path == old(path[..depth]) + Extend(t, old(path[depth..]))
      ensures IsLeafPath(t, Extend(t, old(path[depth..])))
      ensures discovered == old(discovered) + Points(t, Extend(t, old(path[depth..])))
      ensures enteredDepths == old(enteredDepths) && activeDepth == old(activeDepth)
      decreases t, 1
    {
      ghost var prefix, rest, known := path[..depth], path[depth..], discovered;
      ghost var entered, active := enteredDepths, activeDepth;
      assert path == prefix + rest;
      for i := 0 to |t.names|
        invariant enteredDepths == entered && activeDepth == active
        invariant Midway(t, i, prefix, rest, known)
      {
        RunSibling(t, i, prefix, rest, known);
      }
      ChoiceMade(t, rest, prefix, known);
      assert t.names[..|t.names|] == t.names;
    }

    /** The state between two siblings: `i` of them have been tried. */
    ghost predicate Midway(t: Tree, i: nat, prefix: seq<nat>, rest: seq<nat>, known: seq<DecisionPoint>)
      requires t.Subcases? && WellFormed(t) && IsPrefix(t, rest) && i <= |t.names|
      reads this
    {
      var choice, below := First(rest), Below(rest);
      && depth == |prefix| == |known|
      && (i == 0 ==> path == prefix + rest && discovered == known)
      && (0 < i <= choice ==>
            path == prefix + [choice] + below && discovered == known + [DecisionPoint(i, t.names[..i])])
      && (choice < i ==>
            && IsLeafPath(t.bodies[choice], Extend(t.bodies[choice], below))
            && path == prefix + [choice] + Extend(t.bodies[choice], below)
            && discovered ==
               known + [DecisionPoint(i, t.names[..i])] + Points(t.bodies[choice], Extend(t.bodies[choice], below)))
    }

    /** The attempt at sibling `i`, before its body is run. */
    method TrySibling(t: Tree, i: nat, ghost prefix: seq<nat>, ghost rest: seq<nat>, ghost known: seq<DecisionPoint>)
      returns (entered: bool)
      requires t.Subcases? && WellFormed(t) && IsPrefix(t, rest) && i < |t.names|
      requires Midway(t, i, prefix, rest, known)
      modifies this
      ensures entered == (i == First(rest))
      ensures !entered ==> Midway(t, i + 1, prefix, rest, known)
      ensures !entered ==> enteredDepths == old(enteredDepths) && activeDepth == old(activeDepth)
      ensures entered ==>
        && path == prefix + [i] + Below(rest) && discovered == known + [DecisionPoint(i + 1, t.names[..i + 1])]
        && depth == |prefix| + 1 && enteredDepths == old(enteredDepths) + [|prefix|] &&
           activeDepth == old(activeDepth) + 1
    {
      ghost var choice, below := First(rest), Below(rest);
      assert t.names[..i + 1] == t.names[..i] + [t.names[i]];
      Replaced(known, DecisionPoint(0, []), DecisionPoint(1, [t.names[0]]), []);
      if i <= choice {
        Replaced(known, DecisionPoint(i, t.names[..i]), DecisionPoint(i + 1, t.names[..i + 1]), []);
      } else {
        Replaced(known, DecisionPoint(i, t.names[..i]), DecisionPoint(i + 1, t.names[..i + 1]),
                 Points(t.bodies[choice], Extend(t.bodies[choice], below)));
      }
      NewSibling(t.names[..i], t.names[i]);
      entered := TryEnterSubcase(t.names[i]);
    }

    method RunSibling(t: Tree, i: nat, ghost prefix: seq<nat>, ghost rest: seq<nat>, ghost known: seq<DecisionPoint>)
      requires t.Subcases? && WellFormed(t) && IsPrefix(t, rest) && i < |t.names|
      requires Midway(t, i, prefix, rest, known)
      modifies this
      ensures Midway(t, i + 1, prefix, rest, known)
      ensures enteredDepths == old(enteredDepths) && activeDepth == old(activeDepth)
      decreases t, 0
    {
      var entered := TrySibling(t, i, prefix, rest, known);
      if entered {
        assert path[depth..] == Below(rest) && path[..depth] == prefix + [i];
        RunBody(t.bodies[i]);
        LeaveSubcase();
      }
    }
  }

  lemma {:induction false} CountsOfPoints(t: Tree, p: seq<nat>)
    requires IsLeafPath(t, p)
    ensures CountsOf(Points(t, p)) == Counts(t, p)
  {
    PointsCounts(t, p);
  }

  /** What a finished run has written down is enough to find the next path. */
  lemma NextFromPoints(t: Tree, k: nat, taken: seq<nat>, points: seq<DecisionPoint>)
    requires k < |Leaves(t)| && taken == Leaves(t)[k]
    requires IsLeafPath(t, taken) && points == Points(t, taken)
    ensures |points| == |taken|
    ensures var next := Successor(taken[..|taken|], CountsOf(points)[..|taken|]);
      if k + 1 < |Leaves(t)| then next.Some? && IsPrefix(t, next.value) && Extend(t, next.value) == Leaves(t)[k + 1]
      else next.None?
  {
    NextLeaf(t, k);
    PointsCounts(t, taken);
    CountsOfPoints(t, taken);
    assert taken[..|taken|] == taken && Counts(t, taken)[..|taken|] == Counts(t, taken);
  }

  /** One run of the body along the `k`-th path. */
  method RunOnce(state: TraversalState, t: Tree, ghost k: nat) returns (taken: seq<nat>)
    requires WellFormed(t) && k < |Leaves(t)|
    requires IsPrefix(t, state.path) && Extend(t, state.path) == Leaves(t)[k]
    modifies state
    ensures taken == state.path == Leaves(t)[k] && IsLeafPath(t, taken)
    ensures state.discovered == Points(t, taken)
  {
    ghost var asked := state.path;
    assert asked[0..] == asked && asked[..0] == [];
    state.ResetForRun();
    assert state.path[state.depth..] == asked && state.path[..state.depth] == [];
    state.RunBody(t);
    taken := state.path;
    assert taken == [] + Extend(t, asked) == Extend(t, asked);
    assert state.discovered == [] + Points(t, Extend(t, asked)) == Points(t, taken);
  }

  /** One round of the loop below: the body is run along the `k`-th path, and the state moves on to the next. */
  method RunAndAdvance(state: TraversalState, t: Tree, ghost k: nat) returns (taken: seq<nat>, more: bool)
    requires WellFormed(t) && k < |Leaves(t)|
    requires IsPrefix(t, state.path) && Extend(t, state.path) == Leaves(t)[k]
    modifies state
    ensures taken == Leaves(t)[k]
    ensures more == (k + 1 < |Leaves(t)|)
    ensures more ==> IsPrefix(t, state.path) && Extend(t, state.path) == Leaves(t)[k + 1]
  {
    taken := RunOnce(state, t, k);
    NextFromPoints(t, k, taken, state.discovered);
    more := state.Advance();
  }

  /**
   The loop that drives a test case: run the body, move on to the next path, stop when there is none.  The
   paths visited are all the root-to-leaf paths, each once, in lexicographic order, one run for each.
   */
  method Enumerate(state: TraversalState, t: Tree) returns (visited: seq<seq<nat>>)
    requires WellFormed(t)
    modifies state
    ensures visited == Leaves(t)
  {
    state.ResetForTestCase();
    visited := [];
    SomeLeaf(t);
    ghost var all, k := Leaves(t), 0;
    var more := true;
    while more
      invariant k <= |all| && visited == all[..k]
      invariant more ==> k < |all| && IsPrefix(t, state.path) && Extend(t, state.path) == all[k]
      invariant !more ==> k == |all|
      decreases |all| - k, more
    {
      var taken;
      taken, more := RunAndAdvance(state, t, k);
      assert all[..k + 1] == all[..k] + [all[k]];
      visited, k := visited + [taken], k + 1;
    }
  }

  /** The successor of a suffix, put behind the choices above it, is the successor of the whole. */
  lemma {:induction false} SuccessorAbove(p: seq<nat>, counts: seq<nat>, d: nat, q: seq<nat>)
    requires |p| == |counts| && d <= |p| && Successor(p[d..], counts[d..]) == Some(q)
    ensures Successor(p, counts) == Some(p[..d] + q)
    decreases d
  {
    if d == 0 {
      assert p[0..] == p && counts[0..] == counts && p[..0] + q == q;
    } else {
      assert p[d - 1..][1..] == p[d..] && counts[d - 1..][1..] == counts[d..];
      SuccessorAbove(p, counts, d - 1, [p[d - 1]] + q);
      assert p[..d - 1] + ([p[d - 1]] + q) == p[..d] + q;
    }
  }

  /** The first choice at a generator: the one the path names, or the first. */
  lemma GeneratorStep(t: Tree, prefix: seq<nat>, rest: seq<nat>, path: seq<nat>, d: nat)
    requires t.Generator? && WellFormed(t) && IsPrefix(t, rest) && |prefix| == d
    requires path == if rest == [] then prefix + rest + [0] else prefix + rest
    ensures var choice, below := First(rest), Below(rest);
      && d < |path| && path[d] == choice < |t.values| && path[d + 1..] == below && path[..d + 1] == prefix + [choice]
      && IsPrefix(t.values[choice], below) && WellFormed(t.values[choice])
  {
  }

  lemma ExtendHead(t: Tree, rest: seq<nat>)
    requires t.Kids() != [] && IsPrefix(t, rest)
    ensures First(rest) < |t.Kids()| && IsPrefix(t.Kids()[First(rest)], Below(rest))
    ensures Extend(t, rest) == [First(rest)] + Extend(t.Kids()[First(rest)], Below(rest))
    ensures IsLeafPath(t, Extend(t, rest))
    ensures IsLeafPath(t.Kids()[First(rest)], Extend(t.Kids()[First(rest)], Below(rest)))
  {
    ExtendIsLeafPath(t, rest);
    ExtendIsLeafPath(t.Kids()[First(rest)], Below(rest));
  }

  lemma PointsHead(t: Tree, i: nat, p: seq<nat>)
    requires i < |t.Kids()| && IsLeafPath(t.Kids()[i], p) && IsLeafPath(t, [i] + p)
    ensures Points(t, [i] + p) ==
      [DecisionPoint(|t.Kids()|, if t.Subcases? then t.names else [])] + Points(t.Kids()[i], p)
  {
    assert ([i] + p)[1..] == p;
  }

  /** The path and the points from here on, split after the choice made here. */
  lemma ChoiceMade(t: Tree, rest: seq<nat>, prefix: seq<nat>, known: seq<DecisionPoint>)
    requires t.Kids() != [] && IsPrefix(t, rest)
    ensures First(rest) < |t.Kids()| && IsPrefix(t.Kids()[First(rest)], Below(rest))
    ensures var kid := t.Kids()[First(rest)];
      && IsLeafPath(t, Extend(t, rest)) && IsLeafPath(kid, Extend(kid, Below(rest)))
      && prefix + Extend(t, rest) == prefix + [First(rest)] + Extend(kid, Below(rest))
      && known + Points(t, Extend(t, rest)) ==
         known + [DecisionPoint(|t.Kids()|, if t.Subcases? then t.names else [])]
               + Points(kid, Extend(kid, Below(rest)))
  {
    var kid := t.Kids()[First(rest)];
    ExtendHead(t, rest);
    PointsHead(t, First(rest), Extend(kid, Below(rest)));
    Associate(prefix, [First(rest)], Extend(kid, Below(rest)));
    Associate(known, [DecisionPoint(|t.Kids()|, if t.Subcases? then t.names else [])],
              Points(kid, Extend(kid, Below(rest))));
  }

  lemma Associate<X>(x: seq<X>, y: seq<X>, z: seq<X>)
    ensures x + (y + z) == x + y + z
  {
  }

  lemma Replaced<X>(before: seq<X>, x: X, y: X, after: seq<X>)
    ensures (before + [x] + after)[|before| := y] == before + [y] + after
    ensures (before + [x])[|before| := y] == before + [y]
  {
  }
}
