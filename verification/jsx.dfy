/**
 * The virtual DOM of jsx.js: descriptors built by createElement and the
 * recursive walk createDOMElement that turns a descriptor into DOM nodes.
 */
module Jsx {
  import opened Dom

  datatype Option<T> = None | Some(value: T)

  /** A props object: its keys with their values, in key order. */
  type Props = seq<Attr>

  /**
   * A descriptor, or a string where a child stands. props is None for a
   * null props argument, which differs from an empty object.
   */
  datatype VNode =
    | Text(text: string)
    | Node(tag: string, props: Option<Props>, children: seq<VNode>)

  /** createElement(tag, props, ...children), the rest parameter passed as a sequence. */
  function CreateElement(tag: string, props: Option<Props>, children: seq<VNode>): (v: VNode)
    ensures v.Node?
    ensures v.tag == tag && v.props == props && v.children == children
  {
    Node(tag, props, children)
  }

  /** Every descriptor node is the value createElement builds from its own fields. */
  lemma CreateElementRebuilds(v: VNode)
    requires v.Node?
    ensures CreateElement(v.tag, v.props, v.children) == v
  {
  }

  /** Two createElement calls give equal descriptors exactly when their arguments are equal. */
  lemma CreateElementInjective(tag: string, props: Option<Props>, children: seq<VNode>,
                               tag': string, props': Option<Props>, children': seq<VNode>)
    ensures CreateElement(tag, props, children) == CreateElement(tag', props', children')
            <==> tag == tag' && props == props' && children == children'
  {
  }

  // ---------------------------------------------------------------------
  // What createDOMElement produces, as a function of the descriptor
  // ---------------------------------------------------------------------

  /**
   * The attributes left on an element after setAttribute was called once per
   * prop, in key order.
   */
  function ApplyProps(ps: Props): seq<Attr>
  {
    if ps == [] then []
    else
      var n := |ps| - 1;
      Upsert(ApplyProps(ps[..n]), ps[n].0, ps[n].1)
  }

  /**
   * After one setAttribute per prop, the names present are exactly the keys
   * and none of them twice, whatever the props.
   */
  lemma {:induction false} ApplyPropsNames(ps: Props)
    ensures DistinctNames(ApplyProps(ps))
    ensures NameSet(ApplyProps(ps)) == NameSet(ps)
    decreases |ps|
  {
    if ps != [] {
      var n := |ps| - 1;
      var before := ApplyProps(ps[..n]);
      ApplyPropsNames(ps[..n]);
      UpsertProperties(before, ps[n].0, ps[n].1);
      assert ps == ps[..n] + [ps[n]];
      assert NameSet(ps) == NameSet(ps[..n]) + {ps[n].0};
    }
  }

  /** With distinct keys, the attributes are the props themselves, in key order. */
  lemma {:induction false} ApplyPropsExact(ps: Props)
    requires DistinctNames(ps)
    ensures ApplyProps(ps) == ps
    decreases |ps|
  {
    if ps != [] {
      var n := |ps| - 1;
      LastNameIsNew(ps);
      ApplyPropsExact(ps[..n]);
      UpsertProperties(ps[..n], ps[n].0, ps[n].1);
      assert ps == ps[..n] + [ps[n]];
    }
  }

  /** In a props list without repeated keys, the prefix has none either and lacks the last key. */
  lemma LastNameIsNew(ps: Props)
    requires ps != [] && DistinctNames(ps)
    ensures DistinctNames(ps[..|ps| - 1])
    ensures ps[|ps| - 1].0 !in NameSet(ps[..|ps| - 1])
  {
    var n := |ps| - 1;
    forall a | a in ps[..n] ensures a.0 != ps[n].0 {
      var k :| 0 <= k < n && ps[..n][k] == a;
      assert ps[k] == a;
    }
  }

  /** One more setAttribute call, for the next prop in key order. */
  lemma ApplyPropsStep(ps: Props, i: nat)
    requires i < |ps|
    ensures ApplyProps(ps[..i + 1]) == Upsert(ApplyProps(ps[..i]), ps[i].0, ps[i].1)
  {
    var q := ps[..i + 1];
    assert q[..i] == ps[..i] && q[i] == ps[i];
  }

  /** The attributes of an element built from props: none when props is null. */
  function Attributes(props: Option<Props>): (attrs: seq<Attr>)
    ensures props.None? ==> attrs == []
    ensures props.Some? ==> NameSet(attrs) == NameSet(props.value)
    ensures DistinctNames(attrs)
  {
    match props
    case None => []
    case Some(ps) => ApplyPropsNames(ps); ApplyProps(ps)
  }

  /** The DOM subtree createDOMElement returns for a descriptor or a string. */
  function Render(v: VNode): (d: DomNode)
    ensures v.Text? <==> d.DText?
    ensures v.Text? ==> d.text == v.text
    ensures v.Node? ==> d.kind == v.tag && |d.children| == |v.children|
  {
    match v
    case Text(s) => DText(s)
    case Node(tag, props, cs) => DElem(tag, Attributes(props), RenderAll(cs))
  }

  /** The children rendered one by one, in order. */
  function RenderAll(cs: seq<VNode>): (ds: seq<DomNode>)
    ensures |ds| == |cs|
    ensures forall i :: 0 <= i < |cs| ==> ds[i] == Render(cs[i])
  {
    if cs == [] then [] else [Render(cs[0])] + RenderAll(cs[1..])
  }

  // ---------------------------------------------------------------------
  // createDOMElement
  // ---------------------------------------------------------------------

  /**
   * createDOMElement(vNode): a string becomes a text node; a descriptor
   * becomes a fresh element of kind tag, which gets one setAttribute per
   * prop and then, once every child has been materialised, one appendChild
   * per child.
   */
  method Materialize(v: VNode) returns (r: DomNode)
    ensures r == Render(v)
    ensures v.Text? ==> r == DText(v.text)
    ensures v.Node? ==> r.DElem? && r.kind == v.tag && r.attrs == Attributes(v.props)
    ensures v.Node? ==> |r.children| == |v.children|
    ensures v.Node? ==> forall i :: 0 <= i < |v.children| ==> r.children[i] == Render(v.children[i])
    decreases v
  {
    match v
    case Text(s) =>
      r := DText(s);
    case Node(tag, props, cs) =>
      var element := new Element(tag);
      if props.Some? {
        var ps := props.value;
        var i := 0;
        while i < |ps|
          invariant 0 <= i <= |ps|
          invariant element.Valid() && element.kind == tag && element.children == []
          invariant element.attrs == ApplyProps(ps[..i])
        {
          element.SetAttribute(ps[i].0, ps[i].1);
          ApplyPropsStep(ps, i);
          i := i + 1;
        }
        assert ps[..|ps|] == ps;
      }
      var rendered: seq<DomNode> := [];
      var j := 0;
      while j < |cs|
        invariant 0 <= j <= |cs|
        invariant element.Valid() && element.kind == tag && element.attrs == Attributes(props)
        invariant element.children == []
        invariant |rendered| == j
        invariant forall k :: 0 <= k < j ==> rendered[k] == Render(cs[k])
      {
        var child := Materialize(cs[j]);
        rendered := rendered + [child];
        j := j + 1;
      }
      var k := 0;
      while k < |rendered|
        invariant 0 <= k <= |rendered|
        invariant element.Valid() && element.kind == tag && element.attrs == Attributes(props)
        invariant element.children == rendered[..k]
      {
        element.AppendChild(rendered[k]);
        assert rendered[..k + 1] == rendered[..k] + [rendered[k]];
        k := k + 1;
      }
      assert rendered[..|rendered|] == rendered == RenderAll(cs);
      r := element.Snapshot();
  }

  // ---------------------------------------------------------------------
  // Properties of the rendered tree
  // ---------------------------------------------------------------------

  /** A null props argument, or an empty props object, leaves the element without attributes. */
  lemma NoPropsNoAttributes(v: VNode)
    requires v.Node? && (v.props.None? || v.props == Some([]))
    ensures Render(v).attrs == []
  {
  }

  /**
   * Each prop becomes an attribute carrying the prop's value, in key order,
   * and no other attribute appears.
   */
  lemma PropsBecomeAttributes(v: VNode)
    requires v.Node? && v.props.Some? && DistinctNames(v.props.value)
    ensures Render(v).attrs == v.props.value
  {
    ApplyPropsExact(v.props.value);
  }

  /** Number of descriptor nodes (non-string nodes) in a tree. */
  function NodeCount(v: VNode): nat
  {
    match v
    case Text(_) => 0
    case Node(_, _, cs) => 1 + NodeCountAll(cs)
  }

  function NodeCountAll(cs: seq<VNode>): nat
  {
    if cs == [] then 0 else NodeCount(cs[0]) + NodeCountAll(cs[1..])
  }

  /** Number of string leaves in a tree. */
  function LeafCount(v: VNode): nat
  {
    match v
    case Text(_) => 1
    case Node(_, _, cs) => LeafCountAll(cs)
  }

  function LeafCountAll(cs: seq<VNode>): nat
  {
    if cs == [] then 0 else LeafCount(cs[0]) + LeafCountAll(cs[1..])
  }

  /**
   * Over a whole tree, one element is produced per descriptor node and one
   * text node per string leaf.
   */
  lemma {:induction false} RenderCounts(v: VNode)
    ensures ElementCount(Render(v)) == NodeCount(v)
    ensures TextCount(Render(v)) == LeafCount(v)
    decreases v, 1
  {
    match v
    case Text(_) =>
    case Node(_, _, cs) =>
      RenderAllCounts(cs);
  }

  lemma {:induction false} RenderAllCounts(cs: seq<VNode>)
    ensures ElementCountAll(RenderAll(cs)) == NodeCountAll(cs)
    ensures TextCountAll(RenderAll(cs)) == LeafCountAll(cs)
    decreases cs, 0
  {
    if cs != [] {
      RenderCounts(cs[0]);
      RenderAllCounts(cs[1..]);
      assert RenderAll(cs)[1..] == RenderAll(cs[1..]);
    }
  }
}
