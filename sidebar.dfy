/** The sidebar's data (src/Components/layout/Sidebar.jsx): three
    categories of items, each item rendered as a link to
    `/components/<slug>` keyed by its name. */
module Sidebar {
  import opened Slugify

  datatype Item = Item(name: string, isNew: bool)
  datatype Category = Category(title: string, items: seq<Item>)

  /** The `categories` literal, in sidebar order. */
  function Categories(): seq<Category>
  {
    [      Category("Text Animations", [
        Item("Split Text", false),
        Item("Blur Text", false),
        Item("Shiny Text", false),
        Item("Gradient Text", false),
        Item("Decrypted Text", true),
        Item("True Focus", true),
        Item("Variable Proximity", true),
        Item("Count Up", false)]),
      Category("Animations", [
        Item("Animated Content", false),
        Item("Fade Content", false),
        Item("Magnet Lines", false),
        Item("Magnet", false),
        Item("Noise", true),
        Item("Crosshair", false),
        Item("Splash Cursor", false),
        Item("Follow Cursor", false),
        Item("Blob Cursor", false),
        Item("Star Border", false)]),
      Category("Components", [
        Item("Stack", false),
        Item("Dock", true),
        Item("Masonry", false),
        Item("Magnetic Button", true),
        Item("Particle Text", true),
        Item("Liquid Wave", true),
        Item("Glitch Effect", true),
        Item("Morphing SVG", true),
        Item("Shader Gradient", true),
        Item("Blob Gradient", true)])    ]
  }

  /** The link target of an item. */
  function Href(item: Item): string
  {
    "/components/" + Slug(item.name)
  }

  function Names(items: seq<Item>): seq<string>
  {
    seq(|items|, i requires 0 <= i < |items| => items[i].name)
  }

  predicate Distinct(xs: seq<string>)
  {
    forall i, j :: 0 <= i < j < |xs| ==> xs[i] != xs[j]
  }

  /** Item names are distinct within each category, as their use as
      React keys requires. */
  lemma NamesDistinctPerCategory()
    ensures forall k :: 0 <= k < |Categories()| ==> Distinct(Names(Categories()[k].items))
  {
  }

  /** The first item links to "/components/split-text". */
  lemma SplitTextHref()
    ensures Href(Categories()[0].items[0]) == "/components/split-text"
  {
    assert Categories()[0].items[0].name == "Split" + [' '] + "Text";
    SlugTwoWords("Split", "Text");
    assert Lower("Split") == "split" && Lower("Text") == "text";
  }
}
