# A verified model of a minimal JSX-style renderer

`jsx.js` is a small virtual-DOM renderer. `createElement(tag, props, ...children)` builds a plain descriptor `{tag, props, children}`. Each child is either a string or another descriptor. `createDOMElement(vNode)` walks such a descriptor tree and builds real DOM nodes:

- a string becomes a text node;
- a descriptor becomes an element of kind `tag`;
- each key of `props` is set on that element with `setAttribute`;
- every child is materialised recursively, and the results are appended with `appendChild`, in order.

The file ends with two usage examples: a `div` holding a heading and a paragraph, and a `ul` built from a list of fruit.

The model has three modules:

- `Dom` (`dom.dfy`) is the host surface as the renderer uses it. `DomNode` is the value of a finished subtree: `DText` or `DElem(kind, attrs, children)`. `Element` is a class for an element under construction. Its `SetAttribute` and `AppendChild` methods update its fields in place. `Upsert` gives `setAttribute`'s effect on an attribute list, for a host that keeps names as written: an existing attribute keeps its place and takes the new value, and a new one is added at the end. The module also has element and text-node counts over a subtree.
- `Jsx` (`jsx.dfy`) holds the descriptor datatype `VNode` (`Text` | `Node`) and `CreateElement`. It also holds the specification of the walk: `Render`, `RenderAll`, `ApplyProps` and `Attributes`. `Materialize` is the walk itself, imperative like the source: it allocates an `Element` and calls `SetAttribute` in a loop over the props. It then materialises every child in a second loop (the source's `map`) and appends them in a third (the source's `forEach`). It is proved to return `Render(v)`. The lemmas give node counts, attribute correspondence and order preservation.
- `Examples` (`examples.dfy`) holds the two usage examples, stated for all strings and all item lists, then materialised with the file's own literals.

`props` is `Option<seq<(string, string)>>`. `None` is the source's `null`, which is distinct from an empty object. Both leave the element without attributes: an empty object passes the `if (props)` test but its loop runs zero times. A JavaScript object cannot repeat a key. The model does not require distinct keys anyway: `setAttribute`'s overwrite behaviour is modelled, and the exact "attributes equal props" result is stated for distinct keys.

The code never checks that `tag` is non-empty, so the model accepts any tag string, the empty one included.

## Model

| member | source | states |
|---|---|---|
| `Jsx.CreateElement` | jsx.js:13-15 | the result is a descriptor node whose tag and props are the arguments and whose children are the rest arguments, in call order |
| `Jsx.CreateElementRebuilds` | jsx.js:13-15 | every descriptor node equals what createElement builds from its own tag, props and children |
| `Jsx.CreateElementInjective` | jsx.js:13-15 | two createElement calls give structurally equal descriptors if and only if their arguments are equal |
| `Dom.UpsertProperties` | jsx.js:31 | setAttribute on an attribute list: afterwards the name is present with the given value, the name set grows by exactly that name, every other attribute is kept and none is invented, a new name is appended at the end, an existing one keeps its position, and distinct names stay distinct |
| `Dom.Element.constructor` | jsx.js:27 | document.createElement(tag) gives an element of that kind with no attributes and no children |
| `Dom.Element.SetAttribute` | jsx.js:31 | the element's attributes become Upsert of the old ones, its children are unchanged, and no name is duplicated |
| `Dom.Element.AppendChild` | jsx.js:37 | the child is added after all existing children and the attributes are unchanged |
| `Jsx.ApplyPropsNames` | jsx.js:29-32 | after one setAttribute per prop in key order, the names present are exactly the props' keys, none of them twice |
| `Jsx.ApplyPropsExact` | jsx.js:29-32 | with distinct keys, the resulting attribute list is the props list itself: every key with its own value, in key order |
| `Jsx.Attributes` | jsx.js:28-33 | null props give no attributes; present props give attributes whose names are exactly the keys, none of them twice |
| `Jsx.Render` | jsx.js:22-40 | a string renders as a text node holding that string, and only a string does; a descriptor renders as an element of kind tag with as many children as the descriptor |
| `Jsx.RenderAll` | jsx.js:35-37 | the rendered children have the descriptor's child count, and the i-th is the rendering of the i-th descriptor child |
| `Jsx.Materialize` | jsx.js:22-40 | the loop-based walk returns Render(v): a string gives a text node with that exact string; a descriptor gives an element of kind tag, with the attributes of its props, and with as many children as the descriptor, each the rendering of the corresponding child in order |
| `Jsx.NoPropsNoAttributes` | jsx.js:28-33 | null props (or an empty props object) leave the element without attributes |
| `Jsx.PropsBecomeAttributes` | jsx.js:29-32 | with props present, each key becomes an attribute with that key's value, in key order, and no other attribute appears |
| `Jsx.RenderCounts` | jsx.js:22-40 | over a whole tree, the number of elements produced equals the number of descriptor nodes, and the number of text nodes equals the number of string leaves |
| `Jsx.RenderAllCounts` | jsx.js:35-37 | the same counts hold for a sequence of children rendered in order |
| `Examples.ContainerRendering` | jsx.js:43-46 | for any id and strings, a div with that id holding an h1 and a p renders as a div whose only attribute is the id, with exactly an h1 child then a p child, each holding only its string |
| `Examples.ContainerCounts` | jsx.js:43-46 | such a container renders to three elements and two text nodes |
| `Examples.RenderWelcome` | jsx.js:43-48 | materialising myVirtualDOM gives a div with id=main-container, an h1 child with the one text "Welcome to My Custom Renderer!", and a p child with the one text "This is a paragraph in my custom DOM renderer."; three elements and two text nodes in all |
| `Examples.ItemListRendering` | jsx.js:52-55 | for any item list, the mapped li list renders as a ul without attributes, with one li per item in item order, each holding its item as its only text child |
| `Examples.RenderFruitList` | jsx.js:52-57 | materialising myList for Apple, Banana, Cherry gives a ul with exactly three li children in that order, each with its one text child |

## Left out

- The ambient `document` global and the attachment of results to `document.body` (jsx.js:49, 57) are host I/O. The model returns the value the materialiser builds.
- A node is appended as the value of its finished subtree. Reference identity of DOM and descriptor objects is not modelled. Nor is the fact that the input is not mutated: in a value model, both hold trivially. The source materialises all children before appending any, so appending snapshots gives the same final tree.
- The host's lowercasing of names is not modelled. In an HTML document, `document.createElement` lowercases the tag and `setAttribute` lowercases the attribute name (ASCII). The model keeps both as written and compares attribute names exactly. So `className` stays `className`, and props `id` and `ID` give two attributes here where the host ends with one. `Dom.Upsert`, `Dom.Element.constructor`, `Jsx.ApplyPropsNames`, `Jsx.PropsBecomeAttributes` and `Jsx.Materialize` describe this case-preserving host.
- Host failures for invalid tag or attribute names (thrown by `document.createElement` or `setAttribute`) are foreign behaviour the code does not handle. Here every name is accepted.
- `setAttribute` turns non-string prop values into strings. Here prop values are strings.
- `Object.keys` lists integer-like keys first. Here the props sequence is the key order.
- Malformed descriptors cannot be built from the datatype. These are a missing `children` field and children that are neither strings nor descriptors.
