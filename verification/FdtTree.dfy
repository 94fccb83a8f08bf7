/** Item lists that are trees: one root, every node closed, properties in front of the children. The
    edits of a blob keep them trees. */
module FdtTree {

  import opened Common
  import opened Blocks
  import opened FdtBlob
  import opened FdtEdit

  // Checking an item list from front to back.

  /** In front of the root; in the root and d more nodes, with properties allowed or not; behind the
      root; or wrong. */
  datatype State = Before | In(d: nat, props: bool) | After | Bad

  function Step(s: State, x: Item): State {
    match x
    case Nop => s
    case Begin(_) => if s.Before? then In(0, true) else if s.In? then In(s.d + 1, true) else Bad
    case Prop(_, _) => if s.In? && s.props then s else Bad
    case EndNode => if s.In? && s.d > 0 then In(s.d - 1, false) else if s.In? then After else Bad
  }

  function Run(s: State, xs: seq<Item>): State
    decreases |xs|
  {
    if xs == [] then s else Run(Step(s, xs[0]), xs[1..])
  }

  ghost predicate IsTree(xs: seq<Item>) {
    Run(Before, xs) == After
  }

  lemma {:induction false} RunConcat(s: State, xs: seq<Item>, ys: seq<Item>)
    ensures Run(s, xs + ys) == Run(Run(s, xs), ys)
    decreases |xs|
  {
    if xs == [] {
      assert xs + ys == ys;
    } else {
      RunConcat(Step(s, xs[0]), xs[1..], ys);
      assert (xs + ys)[1..] == xs[1..] + ys;
    }
  }

  lemma {:induction false} BadStays(xs: seq<Item>)
    ensures Run(Bad, xs) == Bad
  {
    if xs != [] {
      BadStays(xs[1..]);
    }
  }

  /** The run up to item k, over it, and from there on. */
  lemma RunAt(s: State, xs: seq<Item>, k: nat)
    requires k < |xs|
    ensures Run(s, xs) == Run(Step(Run(s, xs[..k]), xs[k]), xs[k + 1..])
    ensures Run(s, xs[..k + 1]) == Step(Run(s, xs[..k]), xs[k])
  {
    assert xs == xs[..k] + xs[k..] && xs[k..][1..] == xs[k + 1..];
    RunConcat(s, xs[..k], xs[k..]);
    assert xs[..k + 1] == xs[..k] + [xs[k]];
    RunConcat(s, xs[..k], [xs[k]]);
  }

  /** In a tree no item is wrong where it stands. */
  lemma NeverBad(xs: seq<Item>, k: nat)
    requires IsTree(xs) && k < |xs|
    ensures Step(Run(Before, xs[..k]), xs[k]) != Bad
  {
    RunAt(Before, xs, k);
    BadStays(xs[k + 1..]);
  }

  /** Where properties are allowed, the rest may do without them. */
  lemma {:induction false} PropsAllowed(d: nat, xs: seq<Item>)
    requires Run(In(d, false), xs) != Bad
    ensures Run(In(d, true), xs) == Run(In(d, false), xs) || forall k :: 0 <= k < |xs| ==> xs[k].Nop?
  {
    if xs != [] {
      if xs[0].Nop? {
        PropsAllowed(d, xs[1..]);
      } else if xs[0].Prop? {
        BadStays(xs[1..]);
      }
    }
  }

  // NOPs do not count.

  lemma {:induction false} LiveRun(s: State, xs: seq<Item>)
    ensures Run(s, Live(xs)) == Run(s, xs)
  {
    if xs != [] {
      var n := |xs| - 1;
      LiveRun(s, xs[..n]);
      assert xs == xs[..n] + [xs[n]];
      RunConcat(s, xs[..n], [xs[n]]);
      RunConcat(s, Live(xs[..n]), if xs[n].Nop? then [] else [xs[n]]);
    }
  }

  /** Two lists that denote the same live items are both trees or both none. */
  lemma SameLive(xs: seq<Item>, ys: seq<Item>)
    requires Live(xs) == Live(ys)
    ensures IsTree(xs) <==> IsTree(ys)
  {
    LiveRun(Before, xs);
    LiveRun(Before, ys);
  }

  // The edits.

  lemma SetPropKeeps(xs: seq<Item>, k: nat, name: seq<Byte>, val: seq<Byte>)
    requires IsTree(xs) && k < |xs| && xs[k].Begin?
    ensures IsTree(SetProp(xs, k, name, val))
  {
    hide IsTree, FindProp;
    var j := FindProp(xs, k + 1, name);
    if j.Some? {
      ReplaceProp(xs, j.value, Prop(name, val));
    } else {
      InsertProp(xs, k, Prop(name, val));
    }
  }

  lemma ReplaceProp(xs: seq<Item>, j: nat, x: Item)
    requires IsTree(xs) && j < |xs| && xs[j].Prop? && x.Prop?
    ensures IsTree(xs[j := x])
  {
    hide Run;
    var ys := xs[j := x];
    RunAt(Before, xs, j);
    RunAt(Before, ys, j);
    assert ys[..j] == xs[..j] && ys[j + 1..] == xs[j + 1..];
  }

  lemma InsertProp(xs: seq<Item>, k: nat, x: Item)
    requires IsTree(xs) && k < |xs| && xs[k].Begin? && x.Prop?
    ensures IsTree(xs[..k + 1] + [x] + xs[k + 1..])
  {
    hide Run;
    NeverBad(xs, k);
    RunAt(Before, xs, k);
    RunConcat(Before, xs[..k + 1] + [x], xs[k + 1..]);
    RunConcat(Before, xs[..k + 1], [x]);
    RunOne(Run(Before, xs[..k + 1]), x);
  }

  lemma RunOne(s: State, x: Item)
    ensures Run(s, [x]) == Step(s, x)
  {
    assert [x][1..] == [];
  }

  lemma DelPropKeeps(xs: seq<Item>, j: nat)
    requires IsTree(xs) && j < |xs| && xs[j].Prop?
    ensures IsTree(xs[..j] + xs[j + 1..])
  {
    NeverBad(xs, j);
    RunAt(Before, xs, j);
    RunConcat(Before, xs[..j], xs[j + 1..]);
  }

  /** From a node's first item to the end of its properties they stay allowed. */
  lemma {:induction false} PropsRun(xs: seq<Item>, k: nat, i: nat)
    requires IsTree(xs) && k < |xs| && xs[k].Begin? && k < i <= PropsEnd(xs, k + 1)
    ensures Run(Before, xs[..i]).In? && Run(Before, xs[..i]).props
    decreases i
  {
    if i == k + 1 {
      NeverBad(xs, k);
      RunAt(Before, xs, k);
    } else {
      PropsOnly(xs, k + 1, i - 1);
      PropsRun(xs, k, i - 1);
      RunAt(Before, xs, i - 1);
    }
  }

  lemma {:induction false} PropsOnly(xs: seq<Item>, i: nat, j: nat)
    requires i <= |xs| && i <= j < PropsEnd(xs, i)
    ensures xs[j].Prop? || xs[j].Nop?
    decreases |xs| - i
  {
    if i < j {
      PropsOnly(xs, i + 1, j);
    }
  }

  lemma {:induction false} PropsStop(xs: seq<Item>, i: nat)
    requires i <= |xs|
    ensures PropsEnd(xs, i) < |xs| ==> xs[PropsEnd(xs, i)].Begin? || xs[PropsEnd(xs, i)].EndNode?
    decreases |xs| - i
  {
    if i < |xs| && (xs[i].Prop? || xs[i].Nop?) {
      PropsStop(xs, i + 1);
    }
  }

  /** In a tree the properties of a node end in front of a child or of the node's end. */
  lemma PropsClosed(xs: seq<Item>, k: nat)
    requires IsTree(xs) && k < |xs| && xs[k].Begin?
    ensures PropsEnd(xs, k + 1) < |xs|
  {
    var e := PropsEnd(xs, k + 1);
    PropsRun(xs, k, e);
    assert xs[..|xs|] == xs;
  }

  lemma EmptyNode(d: nat, p: bool, name: seq<Byte>)
    ensures Run(In(d, p), [Begin(name), EndNode]) == In(d, false)
  {
    var node := [Begin(name), EndNode];
    assert node[1..] == [EndNode] && [EndNode][1..] == [];
    assert Run(In(d + 1, true), [EndNode]) == In(d, false);
  }

  lemma AddNodeKeeps(xs: seq<Item>, k: nat, name: seq<Byte>)
    requires IsTree(xs) && k < |xs| && xs[k].Begin?
    ensures var e := PropsEnd(xs, k + 1); IsTree(xs[..e] + [Begin(name), EndNode] + xs[e..])
  {
    hide Run;
    var e := PropsEnd(xs, k + 1);
    var s, node := Run(Before, xs[..e]), [Begin(name), EndNode];
    PropsRun(xs, k, e);
    PropsClosed(xs, k);
    PropsStop(xs, k + 1);
    RunConcat(Before, xs[..e] + node, xs[e..]);
    RunConcat(Before, xs[..e], node);
    EmptyNode(s.d, s.props, name);
    NoPropNext(s.d, xs[e..]);
    RunConcat(Before, xs[..e], xs[e..]);
    assert xs == xs[..e] + xs[e..];
  }

  lemma NoPropNext(d: nat, xs: seq<Item>)
    requires xs != [] && (xs[0].Begin? || xs[0].EndNode?)
    ensures Run(In(d, true), xs) == Run(In(d, false), xs)
  {
    assert Step(In(d, true), xs[0]) == Step(In(d, false), xs[0]);
  }

  /** The node whose contents start at i, with depth nodes open in it, ends, and takes the run to
      the state of its parent. */
  lemma {:induction false} NodeRun(xs: seq<Item>, i: nat, depth: nat, d: nat)
    requires IsTree(xs) && i <= |xs| && Run(Before, xs[..i]).In? && Run(Before, xs[..i]).d == d + depth
    ensures var m := NodeEnd(xs, i, depth);
      m.Some? && Run(Before, xs[..m.value]) == if d == 0 then After else In(d - 1, false)
    decreases |xs| - i
  {
    hide Run;
    NotWhole(xs, i);
    NeverBad(xs, i);
    RunAt(Before, xs, i);
    match xs[i] {
      case Begin(_) => NodeRun(xs, i + 1, depth + 1, d);
      case EndNode =>
        if depth > 0 {
          NodeRun(xs, i + 1, depth - 1, d);
        }
      case _ => NodeRun(xs, i + 1, depth, d);
    }
  }

  lemma NotWhole(xs: seq<Item>, i: nat)
    requires IsTree(xs) && i <= |xs| && Run(Before, xs[..i]).In?
    ensures i < |xs|
  {
    assert xs[..|xs|] == xs;
  }

  /** In a tree every node ends, and without any node but the root a tree remains. Without the root
      nothing does. */
  lemma DelNodeKeeps(xs: seq<Item>, k: nat)
    requires IsTree(xs) && k < |xs| && xs[k].Begin?
    ensures NodeEnd(xs, k + 1, 0).Some?
    ensures var ys := xs[..k] + xs[NodeEnd(xs, k + 1, 0).value..];
      if Run(Before, xs[..k]).Before? then Live(ys) == [] else IsTree(ys)
  {
    hide Run, Live, NodeEnd;
    var s := Run(Before, xs[..k]);
    NeverBad(xs, k);
    RunAt(Before, xs, k);
    NodeRun(xs, k + 1, 0, if s.Before? then 0 else s.d + 1);
    var m := NodeEnd(xs, k + 1, 0).value;
    var rest := xs[m..];
    assert xs == xs[..m] + rest;
    RunConcat(Before, xs[..m], rest);
    RunConcat(Before, xs[..k], rest);
    if s.Before? {
      StillBefore(xs[..k]);
      NothingAfter(rest);
      LiveConcat(xs[..k], rest);
    } else {
      EitherWay(s.d, s.props, rest);
    }
  }

  lemma EitherWay(d: nat, p: bool, rest: seq<Item>)
    requires Run(In(d, false), rest) == After
    ensures Run(In(d, p), rest) == After
  {
    PropsAllowed(d, rest);
    if forall j :: 0 <= j < |rest| ==> rest[j].Nop? {
      NopsRun(In(d, false), rest);
    }
  }

  lemma {:induction false} NopsRun(s: State, xs: seq<Item>)
    requires forall j :: 0 <= j < |xs| ==> xs[j].Nop?
    ensures Run(s, xs) == s
  {
    if xs != [] {
      NopsRun(s, xs[1..]);
    }
  }

  lemma {:induction false} StillBefore(xs: seq<Item>)
    requires Run(Before, xs).Before?
    ensures Live(xs) == []
  {
    if xs != [] {
      var n := |xs| - 1;
      assert xs[..|xs|] == xs;
      RunAt(Before, xs, n);
      StillBefore(xs[..n]);
    }
  }

  lemma {:induction false} NothingAfter(xs: seq<Item>)
    requires Run(After, xs) == After
    ensures Live(xs) == []
  {
    if xs != [] {
      if !xs[0].Nop? {
        BadStays(xs[1..]);
      } else {
        NothingAfter(xs[1..]);
        assert xs == [xs[0]] + xs[1..];
        LiveConcat([xs[0]], xs[1..]);
        assert Live([xs[0]]) == [] by {
          assert [xs[0]][..0] == [];
        }
      }
    }
  }

  // Trees as such.

  datatype Tree = Tree(name: seq<Byte>, props: seq<Item>, kids: seq<Tree>)

  ghost predicate Proper(t: Tree) {
    (forall k :: 0 <= k < |t.props| ==> t.props[k].Prop?) && forall k :: 0 <= k < |t.kids| ==> Proper(t.kids[k])
  }

  function Flat(t: Tree): seq<Item> {
    [Begin(t.name)] + t.props + FlatAll(t.kids) + [EndNode]
  }

  function FlatAll(ts: seq<Tree>): seq<Item> {
    if ts == [] then [] else Flat(ts[0]) + FlatAll(ts[1..])
  }

  lemma {:induction false} PropsStay(d: nat, xs: seq<Item>)
    requires forall k :: 0 <= k < |xs| ==> xs[k].Prop?
    ensures Run(In(d, true), xs) == In(d, true)
  {
    if xs != [] {
      PropsStay(d, xs[1..]);
    }
  }

  lemma {:induction false} FlatRun(t: Tree, s: State)
    requires Proper(t) && (s.Before? || s.In?)
    ensures Run(s, Flat(t)) == if s.Before? then After else In(s.d, false)
    decreases t, 1
  {
    var d := if s.Before? then 0 else s.d + 1;
    var xs, body := [Begin(t.name)], t.props + FlatAll(t.kids);
    assert Flat(t) == xs + (body + [EndNode]);
    assert xs[1..] == [];
    RunConcat(s, xs, body + [EndNode]);
    RunConcat(In(d, true), body, [EndNode]);
    RunConcat(In(d, true), t.props, FlatAll(t.kids));
    PropsStay(d, t.props);
    FlatAllRun(t, t.kids, d, true);
  }

  lemma {:induction false} FlatAllRun(t: Tree, ts: seq<Tree>, d: nat, p: bool)
    requires Proper(t) && |ts| <= |t.kids| && ts == t.kids[|t.kids| - |ts|..]
    ensures Run(In(d, p), FlatAll(ts)).In? && Run(In(d, p), FlatAll(ts)).d == d
    decreases t, 0, |ts|
  {
    if ts != [] {
      assert ts[0] == t.kids[|t.kids| - |ts|];
      RunConcat(In(d, p), Flat(ts[0]), FlatAll(ts[1..]));
      FlatRun(ts[0], In(d, p));
      FlatAllRun(t, ts[1..], d, false);
    }
  }

  ghost predicate NoNops(xs: seq<Item>) {
    forall k :: 0 <= k < |xs| ==> !xs[k].Nop?
  }

  ghost predicate AllProper(ts: seq<Tree>) {
    forall k :: 0 <= k < |ts| ==> Proper(ts[k])
  }

  /** What stands in an open node up to its end. */
  lemma {:induction false} Parse(xs: seq<Item>, d: nat, p: bool)
    returns (props: seq<Item>, kids: seq<Tree>, rest: seq<Item>)
    requires NoNops(xs) && Run(In(d, p), xs) == After
    ensures xs == props + FlatAll(kids) + [EndNode] + rest && AllProper(kids)
    ensures (forall k :: 0 <= k < |props| ==> props[k].Prop?) && (!p ==> props == [])
    ensures NoNops(rest) && Run(if d == 0 then After else In(d - 1, false), rest) == After
    decreases |xs|
  {
    hide Proper, FlatAll;
    assert xs == [xs[0]] + xs[1..];
    match xs[0] {
      case EndNode =>
        props, kids, rest := [], [], xs[1..];
        NoKids();
      case Prop(_, _) =>
        if !p {
          BadStays(xs[1..]);
        }
        props, kids, rest := Parse(xs[1..], d, true);
        props := [xs[0]] + props;
      case Begin(name) =>
        var ps, ks, r := Parse(xs[1..], d + 1, true);
        props, kids, rest := Parse(r, d, false);
        ProperNode(name, ps, ks);
        JoinNode(xs, name, ps, ks, r, kids, rest);
        props, kids := [], [Tree(name, ps, ks)] + kids;
    }
  }

  lemma NoKids()
    ensures FlatAll([]) == []
  {
  }

  lemma ProperNode(name: seq<Byte>, props: seq<Item>, kids: seq<Tree>)
    requires AllProper(kids) && forall k :: 0 <= k < |props| ==> props[k].Prop?
    ensures Proper(Tree(name, props, kids))
  {
  }

  lemma JoinNode(xs: seq<Item>, name: seq<Byte>, ps: seq<Item>, ks: seq<Tree>, r: seq<Item>, kids: seq<Tree>,
                 rest: seq<Item>)
    requires xs == [Begin(name)] + (ps + FlatAll(ks) + [EndNode] + r) && r == [] + FlatAll(kids) + [EndNode] + rest
    ensures xs == [] + FlatAll([Tree(name, ps, ks)] + kids) + [EndNode] + rest
  {
    hide FlatAll;
    var t := Tree(name, ps, ks);
    FlatFirst(t, kids);
    assert xs == Flat(t) + (FlatAll(kids) + [EndNode] + rest);
  }

  lemma FlatFirst(t: Tree, kids: seq<Tree>)
    ensures FlatAll([t] + kids) == Flat(t) + FlatAll(kids)
  {
    assert ([t] + kids)[1..] == kids;
  }

  /** The check from front to back accepts exactly the lists whose live items are a tree laid flat. */
  lemma TreeIff(xs: seq<Item>)
    ensures IsTree(xs) <==> exists t :: Proper(t) && Live(xs) == Flat(t)
  {
    hide Run, Live, Flat, Proper;
    LiveRun(Before, xs);
    if t :| Proper(t) && Live(xs) == Flat(t) {
      FlatRun(t, Before);
    }
    if IsTree(xs) {
      LiveNoNops(xs);
      var t := ParseTree(Live(xs));
    }
  }

  lemma ParseTree(ys: seq<Item>) returns (t: Tree)
    requires NoNops(ys) && Run(Before, ys) == After
    ensures Proper(t) && ys == Flat(t)
  {
    hide Run, Proper;
    FirstBegins(ys);
    var props, kids, rest := Parse(ys[1..], 0, true);
    LiveNone(rest);
    ProperNode(ys[0].name, props, kids);
    t := Tree(ys[0].name, props, kids);
    assert ys == [ys[0]] + ys[1..];
  }

  lemma FirstBegins(ys: seq<Item>)
    requires NoNops(ys) && Run(Before, ys) == After
    ensures ys != [] && ys[0].Begin? && Run(In(0, true), ys[1..]) == After
  {
    if !ys[0].Begin? {
      BadStays(ys[1..]);
    }
  }

  lemma {:induction false} LiveNoNops(xs: seq<Item>)
    ensures NoNops(Live(xs))
  {
    if xs != [] {
      LiveNoNops(xs[..|xs| - 1]);
    }
  }

  lemma LiveNone(rest: seq<Item>)
    requires NoNops(rest) && Run(After, rest) == After
    ensures rest == []
  {
    if rest != [] {
      BadStays(rest[1..]);
    }
  }
}
