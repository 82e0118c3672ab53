/**
 * The part of System.Xml that the configuration file relies on, as an abstract
 * element tree: attribute lookup on an element, the `//name` search that locates
 * the configuration node in a document, and an XmlWriter that builds the tree it
 * is asked to write.
 */
module XmlModel {
  import opened Wrappers

  /** One XML element: its local name, its attributes in document order and its child elements. */
  datatype Element = Element(name: string, attrs: seq<(string, string)>, children: seq<Element>)

  /** The attribute names of `attrs`, in order. */
  function Names(attrs: seq<(string, string)>): (r: seq<string>)
    ensures |r| == |attrs|
    ensures forall k :: 0 <= k < |attrs| ==> r[k] == attrs[k].0
  {
    seq(|attrs|, k requires 0 <= k < |attrs| => attrs[k].0)
  }

  /**
   * The value of the first attribute called `name` (`XmlElement.GetAttributeNode`),
   * or None when there is no such attribute, kept apart from the empty value.
   */
  function Lookup(attrs: seq<(string, string)>, name: string): (r: Option<string>)
    ensures r.None? <==> forall k :: 0 <= k < |attrs| ==> attrs[k].0 != name
    ensures r.Some? ==> (name, r.value) in attrs
  {
    if attrs == [] then None
    else if attrs[0].0 == name then Some(attrs[0].1)
    else Lookup(attrs[1..], name)
  }

  /** The attribute that comes first under a name is the one a lookup finds. */
  lemma {:induction false} LookupFirst(attrs: seq<(string, string)>, k: nat)
    requires k < |attrs|
    requires forall j :: 0 <= j < k ==> attrs[j].0 != attrs[k].0
    ensures Lookup(attrs, attrs[k].0) == Some(attrs[k].1)
  {
    if k > 0 {
      assert attrs[1..][k - 1] == attrs[k];
      LookupFirst(attrs[1..], k - 1);
    }
  }

  /** Some element named `name` occurs in the tree rooted at `e` (the root included). */
  ghost predicate Occurs(e: Element, name: string)
    decreases e
  {
    e.name == name || exists i :: 0 <= i < |e.children| && Occurs(e.children[i], name)
  }

  /** `sub` is the element `e` itself or one of its descendants, content included. */
  ghost predicate Within(sub: Element, e: Element)
    decreases e
  {
    sub == e || exists i :: 0 <= i < |e.children| && Within(sub, e.children[i])
  }

  /**
   * `SelectSingleNode("//name")` on a document whose root is `e`: the first
   * element called `name` in document order (pre-order), if there is one.
   */
  function FindFirst(e: Element, name: string): (r: Option<Element>)
    decreases e, 1, 0
    ensures r.Some? <==> Occurs(e, name)
    ensures r.Some? ==> r.value.name == name && Within(r.value, e)
    ensures e.name == name ==> r == Some(e)
  {
    if e.name == name then Some(e) else FindFirstFrom(e, 0, name)
  }

  /** The first element called `name` within the children `e.children[i..]` and their descendants. */
  function FindFirstFrom(e: Element, i: nat, name: string): (r: Option<Element>)
    requires i <= |e.children|
    decreases e, 0, |e.children| - i
    ensures r.Some? <==> exists j :: i <= j < |e.children| && Occurs(e.children[j], name)
    ensures r.Some? ==> r.value.name == name
    ensures r.Some? ==> exists j :: i <= j < |e.children| && Within(r.value, e.children[j])
  {
    if i == |e.children| then None
    else
      match FindFirst(e.children[i], name)
      case Some(found) => Some(found)
      case None => FindFirstFrom(e, i + 1, name)
  }

  /**
   * The search is in document order: when the root does not match, the element
   * found is the one found in the first child whose subtree holds a match.
   */
  lemma FindFirstIsFirst(e: Element, name: string, j: nat)
    requires e.name != name && j < |e.children|
    requires Occurs(e.children[j], name)
    requires forall k :: 0 <= k < j ==> !Occurs(e.children[k], name)
    ensures FindFirst(e, name) == FindFirst(e.children[j], name)
  {
    FindFirstFromSkips(e, 0, j, name);
  }

  lemma {:induction false} FindFirstFromSkips(e: Element, i: nat, j: nat, name: string)
    requires i <= j < |e.children|
    requires Occurs(e.children[j], name)
    requires forall k :: i <= k < j ==> !Occurs(e.children[k], name)
    ensures FindFirstFrom(e, i, name) == FindFirst(e.children[j], name)
    decreases j - i
  {
    if i < j {
      FindFirstFromSkips(e, i + 1, j, name);
    }
  }

  /**
   * An `XmlWriter` building the tree it is asked to write: `open` holds the
   * elements started and not yet ended, outermost first; `roots` holds the
   * completed top-level elements.
   */
  datatype WriterState = WriterState(open: seq<Element>, roots: seq<Element>)

  /** Where a completed element goes: into the innermost open element, else to the top level. */
  function Place(s: WriterState, e: Element): WriterState {
    if s.open == [] then s.(roots := s.roots + [e])
    else
      var top := s.open[|s.open| - 1];
      s.(open := s.open[..|s.open| - 1] + [top.(children := top.children + [e])])
  }

  class Writer {
    var open: seq<Element>
    var roots: seq<Element>

    function State(): WriterState
      reads this
    {
      WriterState(open, roots)
    }

    /** An element is open and no content has been written into it, so attributes may follow. */
    predicate InStartTag()
      reads this
    {
      open != [] && open[|open| - 1].children == []
    }

    constructor ()
      ensures open == [] && roots == []
    {
      open, roots := [], [];
    }

    method WriteStartElement(name: string)
      modifies this
      ensures open == old(open) + [Element(name, [], [])]
      ensures roots == old(roots)
    {
      open := open + [Element(name, [], [])];
    }

    /** A null value is written as an empty attribute; the attribute is never omitted. */
    method WriteAttributeString(name: string, value: Option<string>)
      requires InStartTag()
      modifies this
      ensures |open| == |old(open)| && open[..|open| - 1] == old(open[..|open| - 1])
      ensures open[|open| - 1] == old(open[|open| - 1]).(attrs := old(open[|open| - 1].attrs) + [(name, value.GetOr(""))])
      ensures roots == old(roots)
    {
      var top := open[|open| - 1];
      open := open[..|open| - 1] + [top.(attrs := top.attrs + [(name, value.GetOr(""))])];
    }

    method WriteEndElement()
      requires open != []
      modifies this
      ensures State() == Place(WriterState(old(open[..|open| - 1]), old(roots)), old(open[|open| - 1]))
    {
      var top := open[|open| - 1];
      open := open[..|open| - 1];
      if open == [] {
        roots := roots + [top];
      } else {
        var parent := open[|open| - 1];
        open := open[..|open| - 1] + [parent.(children := parent.children + [top])];
      }
    }

    /** Writes `e` as a start tag, its attributes in order, its children in order and an end tag. */
    method WriteElement(e: Element)
      modifies this
      decreases e
      ensures State() == Place(old(State()), e)
    {
      WriteStartElement(e.name);
      var i := 0;
      while i < |e.attrs|
        invariant 0 <= i <= |e.attrs|
        invariant open == old(open) + [Element(e.name, e.attrs[..i], [])]
        invariant roots == old(roots)
      {
        WriteAttributeString(e.attrs[i].0, Some(e.attrs[i].1));
        assert e.attrs[..i + 1] == e.attrs[..i] + [e.attrs[i]];
        i := i + 1;
      }
      assert e.attrs[..i] == e.attrs;
      var j := 0;
      while j < |e.children|
        invariant 0 <= j <= |e.children|
        invariant open == old(open) + [Element(e.name, e.attrs, e.children[..j])]
        invariant roots == old(roots)
      {
        WriteElement(e.children[j]);
        assert e.children[..j + 1] == e.children[..j] + [e.children[j]];
        j := j + 1;
      }
      assert e.children[..j] == e.children;
      WriteEndElement();
    }
  }
}
