/**
 * What a configuration file means as XML, stated on values: the element it
 * writes, what reading its attributes does to its fields (including the
 * `silent_install` migration), how its child elements are dispatched, and how
 * a document is located and loaded. The class in InstallerLib is proved to
 * follow these functions; the lemmas here state what they promise.
 */
module ConfigSpec {
  import opened Wrappers
  import opened XmlModel
  import opened AttributeCodec
  import opened Parts

  /** The tag of a configuration file's element. */
  const XmlTag := "configurations"

  const LcidTypeAttr := "lcid_type"
  const NoMatchMessageAttr := "configuration_no_match_message"
  const UILevelAttr := "ui_level"
  const FileVersionAttr := "fileversion"
  const ProductVersionAttr := "productversion"
  /** Deprecated: read for backward compatibility, never written. */
  const SilentInstallAttr := "silent_install"

  /** The attributes a configuration file writes, in the order it writes them. */
  const WrittenAttrs := [LcidTypeAttr, NoMatchMessageAttr, UILevelAttr, FileVersionAttr, ProductVersionAttr]

  datatype Error =
    | FormatError(attribute: string, text: string)  // an attribute value that does not parse
    | NotFound(tag: string)                          // the document holds no configuration element
    | MissingFilename                                // Save without a filename
    | FileNotFound(path: string)                     // Load from a path that holds no document
    | ParseFailure                                   // text that is not an XML document

  /** Everything a configuration file persists; its filename is not part of it. */
  datatype Fields = Fields(
    uiLevel: InstallUILevel,
    fileVersion: Option<string>,
    productVersion: Option<string>,
    noMatchMessage: Option<string>,
    fileAttributes: seq<FileAttribute>,
    lcidType: LcidType,
    editor: Editor)

  /** The field initialisers of a new configuration file. */
  const DefaultFields := Fields(Full, None, None, None, [], UserExe, DefaultEditor)

  /** The fields after a read, and whether the read completed or threw (fields read before the throw stay updated). */
  datatype ReadOutcome = ReadOutcome(fields: Fields, result: Outcome<Error>)

  /** What a field holding `v` holds after being written and read back: null comes back as "". */
  function Normalized(v: Option<string>): Option<string> {
    Some(v.GetOr(""))
  }

  function NormalizedFields(f: Fields): Fields {
    f.(fileVersion := Normalized(f.fileVersion),
       productVersion := Normalized(f.productVersion),
       noMatchMessage := Normalized(f.noMatchMessage))
  }

  /** The attributes written for `f`. Enumerations are written as their names, null strings as "". */
  function WriteAttrs(f: Fields): (r: seq<(string, string)>)
    ensures Names(r) == WrittenAttrs
    ensures SilentInstallAttr !in Names(r)
  {
    [(LcidTypeAttr, LcidTypeName(f.lcidType)),
     (NoMatchMessageAttr, f.noMatchMessage.GetOr("")),
     (UILevelAttr, UILevelName(f.uiLevel)),
     (FileVersionAttr, f.fileVersion.GetOr("")),
     (ProductVersionAttr, f.productVersion.GetOr(""))]
  }

  /**
   * The element a configuration file writes: its tag, the five attributes in a
   * fixed order (never `silent_install`), then the editor's element and the
   * file-attribute collection's element.
   */
  function Render(f: Fields): (e: Element)
    ensures e.name == XmlTag
    ensures Names(e.attrs) == WrittenAttrs
    ensures SilentInstallAttr !in Names(e.attrs)
    ensures |e.children| == 2 && e.children[0].name == SchemaTag && e.children[1].name == CollectionTag
  {
    Element(XmlTag, WriteAttrs(f), [EditorXml(f.editor), CollectionXml(f.fileAttributes)])
  }

  /**
   * Reading a configuration element's own attributes into `f`, in source order;
   * a format error stops the read with the earlier fields already assigned.
   * The editor and the collection are not attributes and are left alone.
   */
  function ReadTag(f: Fields, attrs: seq<(string, string)>): (r: ReadOutcome)
    ensures r.fields.editor == f.editor && r.fields.fileAttributes == f.fileAttributes
    ensures r.result.Fail? ==>
      r.result.error.FormatError? && r.result.error.attribute in {LcidTypeAttr, UILevelAttr, SilentInstallAttr}
  {
    var lcid := ReadLcidType(attrs, LcidTypeAttr);
    if lcid.Malformed? then ReadOutcome(f, Fail(FormatError(LcidTypeAttr, lcid.text)))
    else
      var f1 := f.(lcidType := lcid.Or(f.lcidType));
      var f2 := f1.(noMatchMessage := ReadString(attrs, NoMatchMessageAttr).Into(f1.noMatchMessage));
      var ui := ReadUILevel(attrs, UILevelAttr);
      if ui.Malformed? then ReadOutcome(f2, Fail(FormatError(UILevelAttr, ui.text)))
      else
        var f3 := f2.(uiLevel := ui.Or(f2.uiLevel));
        var silent := ReadBool(attrs, SilentInstallAttr);
        if silent.Malformed? then ReadOutcome(f3, Fail(FormatError(SilentInstallAttr, silent.text)))
        else
          var f4 := if silent == Present(true) then f3.(uiLevel := Silent) else f3;
          var f5 := f4.(fileVersion := ReadString(attrs, FileVersionAttr).Into(f4.fileVersion));
          var f6 := f5.(productVersion := ReadString(attrs, ProductVersionAttr).Into(f5.productVersion));
          ReadOutcome(f6, Pass)
  }

  /** A child element handed to the configuration file, and whether it consumed it. */
  datatype Dispatched = Dispatched(processed: bool, outcome: ReadOutcome)

  /**
   * Reading a whole configuration element into `f`: its attributes, then each
   * child element in document order.
   */
  function Hydrate(f: Fields, e: Element): (r: ReadOutcome)
    decreases e, 1, 0
    ensures r.result.Fail? ==> r.result.error.FormatError?
  {
    var t := ReadTag(f, e.attrs);
    if t.result.Fail? then t else HydrateChildren(t.fields, e, 0)
  }

  /** Dispatching the children `e.children[i..]` in order; the first error stops the read. */
  function HydrateChildren(f: Fields, e: Element, i: nat): (r: ReadOutcome)
    requires i <= |e.children|
    decreases e, 0, |e.children| - i
    ensures r.result.Fail? ==> r.result.error.FormatError?
  {
    if i == |e.children| then ReadOutcome(f, Pass)
    else
      var d := Dispatch(f, e.children[i]);
      if d.outcome.result.Fail? then d.outcome else HydrateChildren(d.outcome.fields, e, i + 1)
  }

  /**
   * The child dispatch of a configuration file, by exact local name: `schema`
   * replaces the editor, `fileattributes` rebuilds the collection, and a nested
   * `configurations` element is read into this same object. Anything else is
   * left to the base class and changes nothing here.
   */
  function Dispatch(f: Fields, c: Element): (r: Dispatched)
    decreases c, 2, 0
    ensures r.processed <==> c.name in {SchemaTag, CollectionTag, XmlTag}
    ensures !r.processed ==> r.outcome == ReadOutcome(f, Pass)
    ensures r.outcome.result.Fail? ==> c.name == XmlTag && r.outcome.result.error.FormatError?
  {
    if c.name == SchemaTag then Dispatched(true, ReadOutcome(f.(editor := EditorFromXml(c)), Pass))
    else if c.name == CollectionTag then Dispatched(true, ReadOutcome(f.(fileAttributes := CollectionFromXml(c)), Pass))
    else if c.name == XmlTag then Dispatched(true, Hydrate(f, c))
    else Dispatched(false, ReadOutcome(f, Pass))
  }

  /** Loading a document: locate the first `configurations` element, then read it into `f`. */
  function LoadDocument(f: Fields, doc: Element): (r: ReadOutcome)
    ensures r.result == Fail(NotFound(XmlTag)) <==> !Occurs(doc, XmlTag)
    ensures r.result.Fail? ==> r.result.error.NotFound? || r.result.error.FormatError?
  {
    match FindFirst(doc, XmlTag)
    case None => ReadOutcome(f, Fail(NotFound(XmlTag)))
    case Some(node) => Hydrate(f, node)
  }

  // ---------------------------------------------------------------------------
  // Writing

  /** Each written attribute carries its field's value: enumerations by name, null strings as "". */
  lemma RenderValues(f: Fields)
    ensures Lookup(WriteAttrs(f), LcidTypeAttr) == Some(LcidTypeName(f.lcidType))
    ensures Lookup(WriteAttrs(f), NoMatchMessageAttr) == Some(f.noMatchMessage.GetOr(""))
    ensures Lookup(WriteAttrs(f), UILevelAttr) == Some(UILevelName(f.uiLevel))
    ensures Lookup(WriteAttrs(f), FileVersionAttr) == Some(f.fileVersion.GetOr(""))
    ensures Lookup(WriteAttrs(f), ProductVersionAttr) == Some(f.productVersion.GetOr(""))
    ensures Lookup(WriteAttrs(f), SilentInstallAttr) == None
  {
    var attrs := WriteAttrs(f);
    LookupFirst(attrs, 0);
    LookupFirst(attrs, 1);
    LookupFirst(attrs, 2);
    LookupFirst(attrs, 3);
    LookupFirst(attrs, 4);
  }

  /** Writing a file that was read back from its own output gives the same element again. */
  lemma RenderNormalized(f: Fields)
    ensures Render(NormalizedFields(f)) == Render(f)
  {
  }

  // ---------------------------------------------------------------------------
  // Reading attributes

  /** Reading the attributes a file wrote restores its attribute fields; nothing else is touched. */
  lemma ReadTagRoundTrip(g: Fields, f: Fields)
    ensures ReadTag(g, Render(f).attrs) ==
      ReadOutcome(g.(lcidType := f.lcidType, uiLevel := f.uiLevel,
                     noMatchMessage := Normalized(f.noMatchMessage),
                     fileVersion := Normalized(f.fileVersion),
                     productVersion := Normalized(f.productVersion)), Pass)
  {
    RenderValues(f);
    UILevelRoundTrip(f.uiLevel);
    LcidTypeRoundTrip(f.lcidType);
  }

  /**
   * The migration: a present, true `silent_install` makes the UI level silent
   * whatever `ui_level` said; absent or false, the UI level is what the
   * `ui_level` read produced.
   */
  lemma Migration(f: Fields, attrs: seq<(string, string)>)
    requires ReadTag(f, attrs).result.Pass?
    ensures ReadBool(attrs, SilentInstallAttr) == Present(true) ==> ReadTag(f, attrs).fields.uiLevel == Silent
    ensures ReadBool(attrs, SilentInstallAttr) != Present(true) ==>
      ReadTag(f, attrs).fields.uiLevel == ReadUILevel(attrs, UILevelAttr).Or(f.uiLevel)
  {
  }

  /**
   * After a successful read, each string or locale field holds what its own
   * attribute gave: the attribute's value when present, the old value when
   * absent, whatever the other attributes were.
   */
  lemma ReadTagFields(f: Fields, attrs: seq<(string, string)>)
    requires ReadTag(f, attrs).result.Pass?
    ensures ReadTag(f, attrs).fields.lcidType == ReadLcidType(attrs, LcidTypeAttr).Or(f.lcidType)
    ensures ReadTag(f, attrs).fields.noMatchMessage == ReadString(attrs, NoMatchMessageAttr).Into(f.noMatchMessage)
    ensures ReadTag(f, attrs).fields.fileVersion == ReadString(attrs, FileVersionAttr).Into(f.fileVersion)
    ensures ReadTag(f, attrs).fields.productVersion == ReadString(attrs, ProductVersionAttr).Into(f.productVersion)
  {
  }

  /**
   * A read fails exactly when one of the typed attributes does not parse, and
   * the error names the first such attribute and its text.
   */
  lemma ReadTagErrors(f: Fields, attrs: seq<(string, string)>)
    ensures ReadTag(f, attrs).result.Fail? <==>
      ReadLcidType(attrs, LcidTypeAttr).Malformed? || ReadUILevel(attrs, UILevelAttr).Malformed? ||
      ReadBool(attrs, SilentInstallAttr).Malformed?
    ensures ReadLcidType(attrs, LcidTypeAttr).Malformed? ==>
      ReadTag(f, attrs) == ReadOutcome(f, Fail(FormatError(LcidTypeAttr, ReadLcidType(attrs, LcidTypeAttr).text)))
    ensures !ReadLcidType(attrs, LcidTypeAttr).Malformed? && ReadUILevel(attrs, UILevelAttr).Malformed? ==>
      ReadTag(f, attrs).result == Fail(FormatError(UILevelAttr, ReadUILevel(attrs, UILevelAttr).text))
    ensures !ReadLcidType(attrs, LcidTypeAttr).Malformed? && !ReadUILevel(attrs, UILevelAttr).Malformed? &&
            ReadBool(attrs, SilentInstallAttr).Malformed? ==>
      ReadTag(f, attrs).result == Fail(FormatError(SilentInstallAttr, ReadBool(attrs, SilentInstallAttr).text))
  {
  }

  /**
   * A failed read keeps what was assigned before the error and touches nothing
   * after it: a bad `ui_level` leaves the locale policy and message read, a bad
   * `silent_install` also the UI level; neither version is ever reached.
   */
  lemma ReadTagErrorFields(f: Fields, attrs: seq<(string, string)>)
    ensures !ReadLcidType(attrs, LcidTypeAttr).Malformed? && ReadUILevel(attrs, UILevelAttr).Malformed? ==>
      ReadTag(f, attrs).fields ==
        f.(lcidType := ReadLcidType(attrs, LcidTypeAttr).Or(f.lcidType),
           noMatchMessage := ReadString(attrs, NoMatchMessageAttr).Into(f.noMatchMessage))
    ensures !ReadLcidType(attrs, LcidTypeAttr).Malformed? && !ReadUILevel(attrs, UILevelAttr).Malformed? &&
            ReadBool(attrs, SilentInstallAttr).Malformed? ==>
      ReadTag(f, attrs).fields ==
        f.(lcidType := ReadLcidType(attrs, LcidTypeAttr).Or(f.lcidType),
           noMatchMessage := ReadString(attrs, NoMatchMessageAttr).Into(f.noMatchMessage),
           uiLevel := ReadUILevel(attrs, UILevelAttr).Or(f.uiLevel))
  {
  }

  /** An element carrying none of the known attributes leaves every field as it was. */
  lemma ReadTagAbsentKeeps(f: Fields, attrs: seq<(string, string)>)
    requires forall n :: n in WrittenAttrs + [SilentInstallAttr] ==> Lookup(attrs, n).None?
    ensures ReadTag(f, attrs) == ReadOutcome(f, Pass)
  {
    assert LcidTypeAttr in WrittenAttrs + [SilentInstallAttr];
    assert NoMatchMessageAttr in WrittenAttrs + [SilentInstallAttr];
    assert UILevelAttr in WrittenAttrs + [SilentInstallAttr];
    assert FileVersionAttr in WrittenAttrs + [SilentInstallAttr];
    assert ProductVersionAttr in WrittenAttrs + [SilentInstallAttr];
    assert SilentInstallAttr in WrittenAttrs + [SilentInstallAttr];
  }

  // ---------------------------------------------------------------------------
  // Child dispatch

  /**
   * Dispatch consumes exactly `schema`, `fileattributes` and `configurations`;
   * each does what its case says and nothing else, and any other child changes
   * nothing.
   */
  lemma DispatchCases(f: Fields, c: Element)
    ensures Dispatch(f, c).processed <==> c.name in {SchemaTag, CollectionTag, XmlTag}
    ensures c.name == SchemaTag ==> Dispatch(f, c).outcome == ReadOutcome(f.(editor := EditorFromXml(c)), Pass)
    ensures c.name == CollectionTag ==>
      Dispatch(f, c).outcome == ReadOutcome(f.(fileAttributes := CollectionFromXml(c)), Pass)
    ensures c.name == XmlTag ==> Dispatch(f, c).outcome == Hydrate(f, c)
    ensures !Dispatch(f, c).processed ==> Dispatch(f, c).outcome == ReadOutcome(f, Pass)
  {
  }

  /** Dispatching children depends only on the children still to come. */
  lemma {:induction false} HydrateChildrenSuffix(f: Fields, e: Element, i: nat, e': Element, i': nat)
    requires i <= |e.children| && i' <= |e'.children|
    requires e.children[i..] == e'.children[i'..]
    ensures HydrateChildren(f, e, i) == HydrateChildren(f, e', i')
    decreases |e.children| - i
  {
    if i < |e.children| {
      assert e.children[i] == e.children[i..][0] == e'.children[i'];
      var d := Dispatch(f, e.children[i]);
      assert e.children[i + 1..] == e.children[i..][1..];
      assert e'.children[i' + 1..] == e'.children[i'..][1..];
      HydrateChildrenSuffix(d.outcome.fields, e, i + 1, e', i' + 1);
    }
  }

  /** An unknown child element, wherever it stands, does not change what a read produces. */
  lemma UnknownChildIgnored(f: Fields, e: Element, k: nat, u: Element)
    requires k <= |e.children|
    requires u.name !in {SchemaTag, CollectionTag, XmlTag}
    ensures Hydrate(f, e.(children := e.children[..k] + [u] + e.children[k..])) == Hydrate(f, e)
  {
    var e' := e.(children := e.children[..k] + [u] + e.children[k..]);
    var t := ReadTag(f, e.attrs);
    if t.result.Pass? {
      forall g: Fields ensures HydrateChildren(g, e', k) == HydrateChildren(g, e, k) {
        assert e'.children[k] == u;
        assert e'.children[k + 1..] == e.children[k..];
        HydrateChildrenSuffix(g, e', k + 1, e, k);
      }
      PrefixAgrees(t.fields, e, e', k);
    }
  }

  /** Two elements whose children agree before `k` read the same, given they agree from `k` on. */
  lemma {:induction false} PrefixAgrees(f: Fields, e: Element, e': Element, k: nat)
    requires k <= |e.children| && k <= |e'.children|
    requires e.children[..k] == e'.children[..k]
    requires forall g: Fields :: HydrateChildren(g, e', k) == HydrateChildren(g, e, k)
    ensures HydrateChildren(f, e', 0) == HydrateChildren(f, e, 0)
  {
    PrefixAgreesFrom(f, e, e', k, 0);
  }

  lemma {:induction false} PrefixAgreesFrom(f: Fields, e: Element, e': Element, k: nat, i: nat)
    requires i <= k <= |e.children| && k <= |e'.children|
    requires e.children[..k] == e'.children[..k]
    requires forall g: Fields :: HydrateChildren(g, e', k) == HydrateChildren(g, e, k)
    ensures HydrateChildren(f, e', i) == HydrateChildren(f, e, i)
    decreases k - i
  {
    if i < k {
      assert e.children[i] == e.children[..k][i] == e'.children[i];
      var d := Dispatch(f, e.children[i]);
      PrefixAgreesFrom(d.outcome.fields, e, e', k, i + 1);
    }
  }

  // ---------------------------------------------------------------------------
  // Whole-file round trip

  /** Reading back the element a file writes restores every field, null strings as "". */
  lemma HydrateRoundTrip(g: Fields, f: Fields)
    ensures Hydrate(g, Render(f)) == ReadOutcome(NormalizedFields(f), Pass)
  {
    var e := Render(f);
    ReadTagRoundTrip(g, f);
    var t := ReadTag(g, e.attrs).fields;
    var t' := t.(editor := f.editor);
    assert Dispatch(t, e.children[0]).outcome == ReadOutcome(t', Pass);
    CollectionRoundTrip(f.fileAttributes);
    assert Dispatch(t', e.children[1]).outcome == ReadOutcome(NormalizedFields(f), Pass);
    assert HydrateChildren(NormalizedFields(f), e, 2) == ReadOutcome(NormalizedFields(f), Pass);
    assert HydrateChildren(t', e, 1) == ReadOutcome(NormalizedFields(f), Pass);
  }

  /** Loading a document a file saved gives back that file's fields; saving again gives the same document. */
  lemma LoadRoundTrip(g: Fields, f: Fields)
    ensures LoadDocument(g, Render(f)) == ReadOutcome(NormalizedFields(f), Pass)
    ensures Render(LoadDocument(g, Render(f)).fields) == Render(f)
  {
    HydrateRoundTrip(g, f);
    RenderNormalized(f);
  }
}
