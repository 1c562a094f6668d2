/** A parsed HTML document as an element tree, and the two ways the
    scrapers query it: `select` (every match, in document order) and
    `select_one` / `find` (the first match). */
module Html {
  import opened Text

  /** One element: its tag name, its attributes (the `class` attribute as
      written), the text `get_text(strip=True)` gives for it, and its
      children in document order. */
  datatype Element = Element(tag: string, attrs: map<string, string>, text: string, children: seq<Element>)

  /** The queries the code issues: a tag name (`'article'`), a class
      substring (`'[class*="story"]'`), a tag with an attribute present
      (`find('a', href=True)`) and a tag with an attribute equal to a value
      (`find('link', type='application/rss+xml')`). */
  datatype Selector =
    | Tag(name: string)
    | ClassContains(part: string)
    | TagWithAttr(tagName: string, attr: string)
    | TagWithAttrValue(tagName: string, key: string, value: string)

  predicate Matches(e: Element, sel: Selector) {
    match sel
    case Tag(n) => e.tag == n
    case ClassContains(p) => "class" in e.attrs && Contains(e.attrs["class"], p)
    case TagWithAttr(n, a) => e.tag == n && a in e.attrs
    case TagWithAttrValue(n, k, v) => e.tag == n && k in e.attrs && e.attrs[k] == v
  }

  /** Every element of the forest `cs`, each before its own descendants and
      before its later siblings (document order). */
  function Flatten(cs: seq<Element>): seq<Element>
    decreases cs
  {
    if cs == [] then []
    else
      assert cs[0] in cs;
      [cs[0]] + Flatten(cs[0].children) + Flatten(cs[1..])
  }

  /** The elements of the forest `cs` matching `sel`, in document order. */
  function SelectIn(cs: seq<Element>, sel: Selector): (r: seq<Element>)
    ensures |r| <= |Flatten(cs)|
    ensures r != [] ==> Matches(r[0], sel)
    decreases cs
  {
    if cs == [] then []
    else
      assert cs[0] in cs;
      (if Matches(cs[0], sel) then [cs[0]] else []) + SelectIn(cs[0].children, sel) + SelectIn(cs[1..], sel)
  }

  /** `e.select(sel)`: the matching descendants of `e`, not `e` itself. */
  function Select(e: Element, sel: Selector): seq<Element> {
    SelectIn(e.children, sel)
  }

  /** `e.select_one(sel)` and `e.find(...)`. */
  function SelectOne(e: Element, sel: Selector): Option<Element> {
    var all := Select(e, sel);
    if |all| > 0 then Some(all[0]) else None
  }

  /** Selection is a filter of document order: an element is selected
      exactly when it is in the forest and matches. */
  lemma {:induction false} SelectInIsFilter(cs: seq<Element>, sel: Selector, x: Element)
    ensures x in SelectIn(cs, sel) <==> x in Flatten(cs) && Matches(x, sel)
    decreases cs
  {
    if cs != [] {
      assert cs[0] in cs;
      SelectInIsFilter(cs[0].children, sel, x);
      SelectInIsFilter(cs[1..], sel, x);
    }
  }

  /** With nothing selected, nothing in the forest matches. */
  lemma NoneSelected(cs: seq<Element>, sel: Selector)
    requires SelectIn(cs, sel) == []
    ensures forall x :: x in Flatten(cs) ==> !Matches(x, sel)
  {
    forall x | x in Flatten(cs)
      ensures !Matches(x, sel)
    {
      SelectInIsFilter(cs, sel, x);
    }
  }

  /** `x` sits at index `k` of `s` and nothing before it matches `sel`. */
  predicate FirstMatchAt(s: seq<Element>, k: int, x: Element, sel: Selector) {
    0 <= k < |s| && s[k] == x && forall j :: 0 <= j < k ==> !Matches(s[j], sel)
  }

  /** A first match keeps its place when more elements follow it. */
  lemma FirstMatchExtend(s: seq<Element>, suffix: seq<Element>, k: int, x: Element, sel: Selector)
    requires FirstMatchAt(s, k, x, sel)
    ensures FirstMatchAt(s + suffix, k, x, sel)
  {
    assert forall j :: 0 <= j <= k ==> (s + suffix)[j] == s[j];
  }

  /** A first match moves back by the length of a prefix none of whose
      elements match. */
  lemma FirstMatchShift(prefix: seq<Element>, s: seq<Element>, k: int, x: Element, sel: Selector)
    requires forall y :: y in prefix ==> !Matches(y, sel)
    requires FirstMatchAt(s, k, x, sel)
    ensures FirstMatchAt(prefix + s, |prefix| + k, x, sel)
  {
    var t := prefix + s;
    forall j | 0 <= j < |prefix| + k
      ensures !Matches(t[j], sel)
    {
      if j < |prefix| {
        assert t[j] == prefix[j];
        assert prefix[j] in prefix;
      } else {
        assert t[j] == s[j - |prefix|];
      }
    }
    assert t[|prefix| + k] == s[k];
  }

  /** The first element selected is the first match in document order:
      every element before it in the forest fails to match. */
  lemma {:induction false} SelectInFirst(cs: seq<Element>, sel: Selector)
    requires SelectIn(cs, sel) != []
    ensures exists k :: FirstMatchAt(Flatten(cs), k, SelectIn(cs, sel)[0], sel)
    decreases cs
  {
    assert cs[0] in cs;
    var c := cs[0];
    var own, rest := Flatten(c.children), Flatten(cs[1..]);
    assert Flatten(cs) == [c] + (own + rest);
    if Matches(c, sel) {
      assert FirstMatchAt(Flatten(cs), 0, c, sel);
    } else if SelectIn(c.children, sel) != [] {
      var x := SelectIn(c.children, sel)[0];
      assert SelectIn(cs, sel)[0] == x;
      SelectInFirst(c.children, sel);
      var k :| FirstMatchAt(own, k, x, sel);
      FirstMatchExtend(own, rest, k, x, sel);
      FirstMatchShift([c], own + rest, k, x, sel);
    } else {
      var x := SelectIn(cs[1..], sel)[0];
      assert SelectIn(cs, sel)[0] == x;
      NoneSelected(c.children, sel);
      SelectInFirst(cs[1..], sel);
      var k :| FirstMatchAt(rest, k, x, sel);
      FirstMatchShift([c] + own, rest, k, x, sel);
      assert ([c] + own) + rest == [c] + (own + rest);
    }
  }

  /** `select_one` finds nothing exactly when no descendant matches, and
      what it finds is the first match in document order. */
  lemma SelectOneSpec(e: Element, sel: Selector)
    ensures SelectOne(e, sel).None? <==> forall x :: x in Flatten(e.children) ==> !Matches(x, sel)
    ensures SelectOne(e, sel).Some? ==> Matches(SelectOne(e, sel).value, sel) && SelectOne(e, sel).value in Flatten(e.children)
    ensures SelectOne(e, sel).Some? ==> exists k :: FirstMatchAt(Flatten(e.children), k, SelectOne(e, sel).value, sel)
  {
    forall x | x in Flatten(e.children)
      ensures Matches(x, sel) ==> x in Select(e, sel)
    {
      SelectInIsFilter(e.children, sel, x);
    }
    if SelectOne(e, sel).Some? {
      SelectInIsFilter(e.children, sel, Select(e, sel)[0]);
      SelectInFirst(e.children, sel);
    }
  }
}
