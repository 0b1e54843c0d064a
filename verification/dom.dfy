/**
 * The host UI surface (a document object model) as the renderer uses it:
 * text nodes, elements of a given kind, and the two mutators the renderer
 * calls on an element, setAttribute and appendChild.
 */
module Dom {

  /** An attribute: its name and its string value. */
  type Attr = (string, string)

  /** The value of a finished DOM subtree. */
  datatype DomNode =
    | DText(text: string)
    | DElem(kind: string, attrs: seq<Attr>, children: seq<DomNode>)

  /** The names that occur in an attribute list. */
  function NameSet(attrs: seq<Attr>): set<string>
  {
    set a | a in attrs :: a.0
  }

  /** No name occurs twice: what a DOM element's attribute list always satisfies. */
  predicate DistinctNames(attrs: seq<Attr>)
  {
    forall i, j :: 0 <= i < j < |attrs| ==> attrs[i].0 != attrs[j].0
  }

  /** Position of the first attribute called name, or |attrs| when there is none. */
  function IndexOf(attrs: seq<Attr>, name: string): (i: nat)
    ensures i <= |attrs|
    ensures i < |attrs| ==> attrs[i].0 == name
    ensures forall j :: 0 <= j < i ==> attrs[j].0 != name
  {
    if attrs == [] then 0
    else if attrs[0].0 == name then 0
    else 1 + IndexOf(attrs[1..], name)
  }

  /**
   * setAttribute on an attribute list: an attribute of that name gets the
   * new value where it stands; otherwise the attribute is added at the end.
   */
  function Upsert(attrs: seq<Attr>, name: string, value: string): seq<Attr>
  {
    var i := IndexOf(attrs, name);
    if i < |attrs| then attrs[i := (name, value)] else attrs + [(name, value)]
  }

  /**
   * After setAttribute the name is present with the new value, every other
   * attribute is still there and nothing else is; a new name goes at the
   * end, an existing one keeps its place, and no name is ever doubled.
   */
  lemma UpsertProperties(attrs: seq<Attr>, name: string, value: string)
    ensures NameSet(Upsert(attrs, name, value)) == NameSet(attrs) + {name}
    ensures (name, value) in Upsert(attrs, name, value)
    ensures forall a :: a in attrs && a.0 != name ==> a in Upsert(attrs, name, value)
    ensures forall a :: a in Upsert(attrs, name, value) && a.0 != name ==> a in attrs
    ensures name !in NameSet(attrs) ==> Upsert(attrs, name, value) == attrs + [(name, value)]
    ensures name in NameSet(attrs) ==> |Upsert(attrs, name, value)| == |attrs|
    ensures name in NameSet(attrs) ==>
              var i := IndexOf(attrs, name);
              i < |attrs| && Upsert(attrs, name, value)[i] == (name, value) &&
              forall k :: 0 <= k < |attrs| && k != i ==> Upsert(attrs, name, value)[k] == attrs[k]
    ensures DistinctNames(attrs) ==> DistinctNames(Upsert(attrs, name, value))
  {
    var i := IndexOf(attrs, name);
    var r := Upsert(attrs, name, value);
    if i < |attrs| {
      assert name in NameSet(attrs);
      assert r[i] == (name, value);
      assert forall k :: 0 <= k < |attrs| && k != i ==> r[k] == attrs[k];
      forall a | a in attrs && a.0 != name ensures a in r {
        var k :| 0 <= k < |attrs| && attrs[k] == a;
        assert r[k] == a;
      }
      forall n | n in NameSet(attrs) ensures n in NameSet(r) {
        var a :| a in attrs && a.0 == n;
        if n != name { assert a in r; } else { assert r[i] in r; }
      }
    } else {
      assert name !in NameSet(attrs);
    }
  }

  /** A DOM element under construction: its kind is fixed, its attributes and children grow. */
  class Element {
    const kind: string
    var attrs: seq<Attr>
    var children: seq<DomNode>

    ghost predicate Valid()
      reads this
    {
      DistinctNames(attrs)
    }

    /** document.createElement(kind): a fresh element with no attributes and no children. */
    constructor (kind: string)
      ensures Valid()
      ensures this.kind == kind && attrs == [] && children == []
    {
      this.kind := kind;
      attrs := [];
      children := [];
    }

    /** element.setAttribute(name, value). */
    method SetAttribute(name: string, value: string)
      requires Valid()
      modifies this
      ensures Valid()
      ensures attrs == Upsert(old(attrs), name, value)
      ensures children == old(children)
    {
      UpsertProperties(attrs, name, value);
      attrs := Upsert(attrs, name, value);
    }

    /** element.appendChild(child): the child goes after every existing child. */
    method AppendChild(child: DomNode)
      requires Valid()
      modifies this
      ensures Valid()
      ensures attrs == old(attrs)
      ensures children == old(children) + [child]
    {
      children := children + [child];
    }

    /** The subtree this element now roots. */
    function Snapshot(): DomNode
      reads this
    {
      DElem(kind, attrs, children)
    }
  }

  /** Number of elements in a DOM subtree. */
  function ElementCount(d: DomNode): nat
  {
    match d
    case DText(_) => 0
    case DElem(_, _, cs) => 1 + ElementCountAll(cs)
  }

  function ElementCountAll(ds: seq<DomNode>): nat
  {
    if ds == [] then 0 else ElementCount(ds[0]) + ElementCountAll(ds[1..])
  }

  /** Number of text nodes in a DOM subtree. */
  function TextCount(d: DomNode): nat
  {
    match d
    case DText(_) => 1
    case DElem(_, _, cs) => TextCountAll(cs)
  }

  function TextCountAll(ds: seq<DomNode>): nat
  {
    if ds == [] then 0 else TextCount(ds[0]) + TextCountAll(ds[1..])
  }
}
