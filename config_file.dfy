/**
 * The configuration file object: its fields, which its operations update in
 * place, writing itself through an XmlWriter, reading itself from an element
 * (attributes, migration, child dispatch) and the filename bookkeeping of
 * Create, Load, Save and SaveAs. Each operation is proved to follow the
 * functions of ConfigSpec.
 */
module InstallerLib {
  import opened Wrappers
  import opened XmlModel
  import opened AttributeCodec
  import opened Parts
  import opened ConfigSpec

  /** The file system as the configuration file sees it: the document stored at each path. */
  class Storage {
    var files: map<string, Element>

    constructor ()
      ensures files == map[]
    {
      files := map[];
    }
  }

  class ConfigFile {
    var filename: Option<string>
    var uiLevel: InstallUILevel
    var fileVersion: Option<string>
    var productVersion: Option<string>
    var noMatchMessage: Option<string>
    var fileAttributes: seq<FileAttribute>
    var lcidType: LcidType
    var editor: Editor

    /** The persisted fields as one value. */
    function State(): Fields
      reads this
    {
      Fields(uiLevel, fileVersion, productVersion, noMatchMessage, fileAttributes, lcidType, editor)
    }

    /** A filename is set: neither null nor empty. */
    predicate HasFilename()
      reads this
    {
      filename.Some? && filename.value != ""
    }

    /** A new configuration file: no filename, full UI, the user.exe locale, a new editor and no file attributes. */
    constructor ()
      ensures filename == None
      ensures State() == DefaultFields
    {
      filename := None;
      uiLevel := Full;
      fileVersion := None;
      productVersion := None;
      noMatchMessage := None;
      fileAttributes := [];
      lcidType := UserExe;
      editor := DefaultEditor;
    }

    /** Associates a filename without touching storage or any other field. */
    method Create(path: Option<string>)
      modifies this
      ensures filename == path
      ensures State() == old(State())
    {
      filename := path;
    }

    // -------------------------------------------------------------------------
    // Writing

    /** The configuration element itself: start tag, own attributes and children, end tag. */
    method ToXml(w: Writer)
      modifies w
      ensures w.State() == Place(old(w.State()), Render(State()))
    {
      w.WriteStartElement(XmlTag);
      OnXmlWriteTag(w);
      assert [] + WriteAttrs(State()) == WriteAttrs(State());
      assert w.open[|w.open| - 1] == Render(State());
      assert w.open == w.open[..|w.open| - 1] + [w.open[|w.open| - 1]];
      w.WriteEndElement();
    }

    /**
     * Writes the five attributes in their fixed order, then asks the editor and
     * the file-attribute collection to write themselves into the open element.
     */
    method OnXmlWriteTag(w: Writer)
      requires w.InStartTag()
      modifies w
      ensures w.roots == old(w.roots)
      ensures |w.open| == |old(w.open)| && w.open[..|w.open| - 1] == old(w.open[..|w.open| - 1])
      ensures w.open[|w.open| - 1] ==
        old(w.open[|w.open| - 1]).(attrs := old(w.open[|w.open| - 1].attrs) + WriteAttrs(State()),
                                   children := [EditorXml(editor), CollectionXml(fileAttributes)])
    {
      w.WriteAttributeString(LcidTypeAttr, Some(LcidTypeName(lcidType)));
      w.WriteAttributeString(NoMatchMessageAttr, noMatchMessage);
      w.WriteAttributeString(UILevelAttr, Some(UILevelName(uiLevel)));
      w.WriteAttributeString(FileVersionAttr, fileVersion);
      w.WriteAttributeString(ProductVersionAttr, productVersion);
      w.WriteElement(EditorXml(editor));
      w.WriteElement(CollectionXml(fileAttributes));
    }

    /** The rendered document of the current fields; nothing is changed, so two renderings are equal. */
    method Xml() returns (doc: Element)
      ensures doc == Render(State())
    {
      var w := new Writer();
      ToXml(w);
      doc := w.roots[0];
    }

    // -------------------------------------------------------------------------
    // Reading

    /** Reads the attributes of this object's element into its fields, the legacy `silent_install` included. */
    method OnXmlReadTag(attrs: seq<(string, string)>) returns (r: Outcome<Error>)
      modifies this
      ensures ReadOutcome(State(), r) == ReadTag(old(State()), attrs)
      ensures filename == old(filename)
    {
      var lcid := ReadLcidType(attrs, LcidTypeAttr);
      if lcid.Malformed? {
        return Fail(FormatError(LcidTypeAttr, lcid.text));
      }
      lcidType := lcid.Or(lcidType);
      noMatchMessage := ReadString(attrs, NoMatchMessageAttr).Into(noMatchMessage);
      var ui := ReadUILevel(attrs, UILevelAttr);
      if ui.Malformed? {
        return Fail(FormatError(UILevelAttr, ui.text));
      }
      uiLevel := ui.Or(uiLevel);
      var silentInstall := ReadBool(attrs, SilentInstallAttr);
      if silentInstall.Malformed? {
        return Fail(FormatError(SilentInstallAttr, silentInstall.text));
      }
      if silentInstall == Present(true) {
        uiLevel := Silent;
      }
      fileVersion := ReadString(attrs, FileVersionAttr).Into(fileVersion);
      productVersion := ReadString(attrs, ProductVersionAttr).Into(productVersion);
      r := Pass;
    }

    /** Reads an element into this object: its attributes, then each child in document order. */
    method FromXml(e: Element) returns (r: Outcome<Error>)
      modifies this
      decreases e, 1, 0
      ensures ReadOutcome(State(), r) == Hydrate(old(State()), e)
      ensures filename == old(filename)
    {
      r := OnXmlReadTag(e.attrs);
      if r.Fail? {
        return;
      }
      var i := 0;
      while i < |e.children|
        invariant 0 <= i <= |e.children|
        invariant HydrateChildren(State(), e, i) == Hydrate(old(State()), e)
        invariant r == Pass
        invariant filename == old(filename)
      {
        var processed;
        processed, r := OnXmlChild(e.children[i]);
        if r.Fail? {
          return;
        }
        i := i + 1;
      }
    }

    /** Handles one child element by its exact local name and says whether it consumed it. */
    method OnXmlChild(child: Element) returns (processed: bool, r: Outcome<Error>)
      modifies this
      decreases child, 2, 0
      ensures Dispatched(processed, ReadOutcome(State(), r)) == Dispatch(old(State()), child)
      ensures filename == old(filename)
    {
      processed, r := false, Pass;
      if child.name == SchemaTag {
        editor := EditorFromXml(child);
        processed := true;
      } else if child.name == CollectionTag {
        fileAttributes := CollectionFromXml(child);
        processed := true;
      } else if child.name == XmlTag {
        r := FromXml(child);
        processed := true;
      }
    }

    /** Reads the first `configurations` element of a document; the filename is left alone. */
    method LoadXml(doc: Element) returns (r: Outcome<Error>)
      modifies this
      ensures ReadOutcome(State(), r) == LoadDocument(old(State()), doc)
      ensures filename == old(filename)
    {
      var node := FindFirst(doc, XmlTag);
      if node.None? {
        return Fail(NotFound(XmlTag));
      }
      r := FromXml(node.value);
    }

    /** Parses XML text with `parse` (None: not a document), then loads it; the filename is left alone. */
    method LoadXmlText(xml: string, parse: string -> Option<Element>) returns (r: Outcome<Error>)
      modifies this
      ensures parse(xml).None? ==> r == Fail(ParseFailure) && State() == old(State())
      ensures parse(xml).Some? ==> ReadOutcome(State(), r) == LoadDocument(old(State()), parse(xml).value)
      ensures filename == old(filename)
    {
      var doc := parse(xml);
      if doc.None? {
        return Fail(ParseFailure);
      }
      r := LoadXml(doc.value);
    }

    /** Loads the document stored at `path`; once it has loaded, `path` is the filename. */
    method Load(path: string, storage: Storage) returns (r: Outcome<Error>)
      modifies this
      ensures path !in storage.files ==>
        r == Fail(FileNotFound(path)) && State() == old(State()) && filename == old(filename)
      ensures path in storage.files ==>
        ReadOutcome(State(), r) == LoadDocument(old(State()), storage.files[path]) &&
        filename == (if r.Pass? then Some(path) else old(filename))
    {
      if path !in storage.files {
        return Fail(FileNotFound(path));
      }
      r := LoadXml(storage.files[path]);
      if r.Pass? {
        filename := Some(path);
      }
    }

    // -------------------------------------------------------------------------
    // Saving

    /** Stores the rendered document at `path`, which becomes the filename; no field changes. */
    method SaveAs(path: string, storage: Storage)
      modifies this, storage
      ensures storage.files == old(storage.files)[path := Render(old(State()))]
      ensures filename == Some(path)
      ensures State() == old(State())
    {
      var doc := Xml();
      storage.files := storage.files[path := doc];
      filename := Some(path);
    }

    /** Saves to the filename, which must be set; without one it fails and changes nothing. */
    method Save(storage: Storage) returns (r: Outcome<Error>)
      modifies this, storage
      ensures !old(HasFilename()) ==>
        r == Fail(MissingFilename) && storage.files == old(storage.files) && filename == old(filename)
      ensures old(HasFilename()) ==>
        r == Pass && storage.files == old(storage.files)[old(filename.value) := Render(old(State()))] &&
        filename == old(filename)
      ensures State() == old(State())
    {
      if !HasFilename() {
        return Fail(MissingFilename);
      }
      SaveAs(filename.value, storage);
      r := Pass;
    }
  }

  /**
   * Saving a configuration file under a path and loading that path into a new
   * object gives the same fields (null strings come back as ""), and the new
   * object's filename is that path.
   */
  method SaveAsThenLoad(c: ConfigFile, path: string, storage: Storage) returns (d: ConfigFile, r: Outcome<Error>)
    modifies c, storage
    ensures fresh(d)
    ensures r == Pass
    ensures d.State() == NormalizedFields(old(c.State()))
    ensures d.filename == Some(path) && c.filename == Some(path)
  {
    c.SaveAs(path, storage);
    d := new ConfigFile();
    LoadRoundTrip(DefaultFields, c.State());
    r := d.Load(path, storage);
  }
}
