/**
 * The two sub-objects a configuration file owns, kept opaque: the editor
 * information written as a `schema` element, and the file-attribute collection
 * written as a `fileattributes` element holding one `fileattribute` per member.
 * Only the behaviour the configuration file uses is modelled: each writes itself
 * as one element and is rebuilt from one.
 */
module Parts {
  import opened XmlModel

  const SchemaTag := "schema"
  const CollectionTag := "fileattributes"
  const MemberTag := "fileattribute"

  /** Editor information: the content of its `schema` element. */
  datatype Editor = Editor(attrs: seq<(string, string)>, children: seq<Element>)

  /** A stand-in for the default editor, whose content is opaque here. */
  const DefaultEditor := Editor([], [])

  function EditorXml(ed: Editor): (e: Element)
    ensures e.name == SchemaTag
  {
    Element(SchemaTag, ed.attrs, ed.children)
  }

  /** `Editor.CreateFromXml`: a new editor built from a `schema` element. */
  function EditorFromXml(e: Element): (ed: Editor)
    ensures e.name == SchemaTag ==> EditorXml(ed) == e
  {
    Editor(e.attrs, e.children)
  }

  /** One member of the file-attribute collection: the content of its `fileattribute` element. */
  datatype FileAttribute = FileAttribute(attrs: seq<(string, string)>, children: seq<Element>)

  function MemberXml(a: FileAttribute): Element {
    Element(MemberTag, a.attrs, a.children)
  }

  function MembersXml(s: seq<FileAttribute>): (r: seq<Element>)
    ensures |r| == |s|
    ensures forall k :: 0 <= k < |s| ==> r[k] == MemberXml(s[k])
  {
    if s == [] then [] else [MemberXml(s[0])] + MembersXml(s[1..])
  }

  /** `FileAttributeCollection.ToXml`: the wrapping element, written even when the collection is empty. */
  function CollectionXml(s: seq<FileAttribute>): (e: Element)
    ensures e.name == CollectionTag && e.attrs == []
  {
    Element(CollectionTag, [], MembersXml(s))
  }

  /** The members a sequence of child elements yields: one per `fileattribute` element, in order; others skipped. */
  function Members(cs: seq<Element>): (r: seq<FileAttribute>)
    ensures |r| <= |cs|
    ensures forall k :: 0 <= k < |r| ==> MemberXml(r[k]) in cs
    ensures (forall k :: 0 <= k < |cs| ==> cs[k].name != MemberTag) ==> r == []
  {
    if cs == [] then []
    else if cs[0].name == MemberTag then [FileAttribute(cs[0].attrs, cs[0].children)] + Members(cs[1..])
    else Members(cs[1..])
  }

  /** `FileAttributeCollection.FromXml`: the old members are dropped and the collection is rebuilt. */
  function CollectionFromXml(e: Element): (r: seq<FileAttribute>)
    ensures |r| <= |e.children|
    ensures forall k :: 0 <= k < |r| ==> MemberXml(r[k]) in e.children
  {
    Members(e.children)
  }

  /** A `fileattribute` child yields its member, ahead of those of the children after it. */
  lemma MembersKeep(c: Element, cs: seq<Element>)
    requires c.name == MemberTag
    ensures Members([c] + cs) == [FileAttribute(c.attrs, c.children)] + Members(cs)
  {
    assert ([c] + cs)[1..] == cs;
  }

  /** A child with any other tag, wherever it stands, yields nothing and leaves the other members in order. */
  lemma {:induction false} MembersSkip(cs: seq<Element>, k: nat, u: Element)
    requires k <= |cs|
    requires u.name != MemberTag
    ensures Members(cs[..k] + [u] + cs[k..]) == Members(cs)
  {
    var t := cs[..k] + [u] + cs[k..];
    if k == 0 {
      assert t == [u] + cs && t[1..] == cs;
    } else {
      assert t[0] == cs[0];
      assert t[1..] == cs[1..][..k - 1] + [u] + cs[1..][k - 1..];
      MembersSkip(cs[1..], k - 1, u);
    }
  }

  /** Reading back what the collection wrote gives the same members, in the same order. */
  lemma {:induction false} CollectionRoundTrip(s: seq<FileAttribute>)
    ensures CollectionFromXml(CollectionXml(s)) == s
  {
    MembersRoundTrip(s);
  }

  lemma {:induction false} MembersRoundTrip(s: seq<FileAttribute>)
    ensures Members(MembersXml(s)) == s
  {
    if s != [] {
      var cs := MembersXml(s);
      assert cs[1..] == MembersXml(s[1..]);
      MembersRoundTrip(s[1..]);
    }
  }
}
