/**
 * The two usage examples at the end of jsx.js: a container with a heading
 * and a paragraph, and a list rendered from an array of items.
 */
module Examples {
  import opened Dom
  import opened Jsx

  /** The shape of myVirtualDOM: a div with an id, holding an h1 and a p, each with one string. */
  function Container(id: string, heading: string, paragraph: string): VNode
  {
    CreateElement("div", Some([("id", id)]), [
      CreateElement("h1", None, [Text(heading)]),
      CreateElement("p", None, [Text(paragraph)])
    ])
  }

  /** The container descriptor myVirtualDOM. */
  function WelcomeTree(): VNode
  {
    Container("main-container", "Welcome to My Custom Renderer!",
              "This is a paragraph in my custom DOM renderer.")
  }

  /**
   * A container of that shape renders as a div whose one attribute is its
   * id and whose two children are the h1 and the p, each holding its string.
   */
  lemma {:induction false} ContainerRendering(id: string, heading: string, paragraph: string)
    ensures Render(Container(id, heading, paragraph)) == DElem("div", [("id", id)], [
              DElem("h1", [], [DText(heading)]),
              DElem("p", [], [DText(paragraph)])
            ])
  {
    var tree := Container(id, heading, paragraph);
    assert RenderAll(tree.children[0].children) == [DText(heading)];
    assert RenderAll(tree.children[1].children) == [DText(paragraph)];
    assert ApplyProps([("id", id)]) == [("id", id)];
    assert RenderAll(tree.children) == [Render(tree.children[0]), Render(tree.children[1])];
  }

  /** A container of that shape renders to three elements and two text nodes. */
  lemma {:induction false} ContainerCounts(id: string, heading: string, paragraph: string)
    ensures ElementCount(Render(Container(id, heading, paragraph))) == 3
    ensures TextCount(Render(Container(id, heading, paragraph))) == 2
  {
    var tree := Container(id, heading, paragraph);
    RenderCounts(tree);
    var cs := tree.children;
    forall leaf: seq<VNode> | |leaf| == 1 && leaf[0].Text?
      ensures NodeCountAll(leaf) == 0 && LeafCountAll(leaf) == 1
    {
      assert leaf[1..] == [];
    }
    assert NodeCount(cs[0]) == 1 && LeafCount(cs[0]) == 1;
    assert NodeCount(cs[1]) == 1 && LeafCount(cs[1]) == 1;
    assert cs[1..] == [cs[1]] && cs[1..][1..] == [];
    assert NodeCountAll(cs[1..]) == 1 && LeafCountAll(cs[1..]) == 1;
    assert NodeCountAll(cs) == 2 && LeafCountAll(cs) == 2;
  }

  /** Materialising myVirtualDOM (before it is attached to the document body). */
  method RenderWelcome() returns (actual: DomNode)
    ensures actual == DElem("div", [("id", "main-container")], [
      DElem("h1", [], [DText("Welcome to My Custom Renderer!")]),
      DElem("p", [], [DText("This is a paragraph in my custom DOM renderer.")])
    ])
    ensures ElementCount(actual) == 3 && TextCount(actual) == 2
  {
    actual := Materialize(WelcomeTree());
    ContainerRendering("main-container", "Welcome to My Custom Renderer!",
                       "This is a paragraph in my custom DOM renderer.");
    ContainerCounts("main-container", "Welcome to My Custom Renderer!",
                    "This is a paragraph in my custom DOM renderer.");
  }

  /** myItems.map(item => createElement('li', null, item)). */
  function ListItems(items: seq<string>): seq<VNode>
  {
    seq(|items|, i requires 0 <= i < |items| => CreateElement("li", None, [Text(items[i])]))
  }

  /** The list descriptor myList built from an array of items. */
  function ItemList(items: seq<string>): VNode
  {
    CreateElement("ul", None, ListItems(items))
  }

  /**
   * For every array of items, the list renders as a ul without attributes
   * whose children are one li per item, in item order, each holding that
   * item as its only text child.
   */
  lemma ItemListRendering(items: seq<string>)
    ensures Render(ItemList(items)).DElem?
    ensures Render(ItemList(items)).kind == "ul" && Render(ItemList(items)).attrs == []
    ensures |Render(ItemList(items)).children| == |items|
    ensures forall i :: 0 <= i < |items| ==>
              Render(ItemList(items)).children[i] == DElem("li", [], [DText(items[i])])
  {
    var lis := ListItems(items);
    forall i | 0 <= i < |items|
      ensures RenderAll(lis)[i] == DElem("li", [], [DText(items[i])])
    {
      assert lis[i] == Node("li", None, [Text(items[i])]);
      assert RenderAll([Text(items[i])]) == [DText(items[i])];
    }
  }

  /** Materialising myList for the items Apple, Banana, Cherry. */
  method RenderFruitList() returns (actual: DomNode)
    ensures actual == DElem("ul", [], [
      DElem("li", [], [DText("Apple")]),
      DElem("li", [], [DText("Banana")]),
      DElem("li", [], [DText("Cherry")])
    ])
  {
    var myItems := ["Apple", "Banana", "Cherry"];
    actual := Materialize(ItemList(myItems));
    ItemListRendering(myItems);
  }
}
