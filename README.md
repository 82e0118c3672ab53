# ConfigFile: the installer configuration root and its XML mapping

This project models `ConfigFile`, the root object of an installer
configuration, and how it maps to and from its XML element `configurations`.
It is written in Dafny.

- **Fields and defaults.** The object holds a filename, a UI level (`full`,
  `basic` or `silent`), a file version, a product version, a message for an
  OS/locale mismatch, a locale policy (`LcidType`), an editor (`schema`) and
  a collection of file attributes. A new object has no filename, UI level
  `full`, locale policy `UserExe`, a new editor and no file attributes.
- **Writing.** `OnXmlWriteTag` writes five attributes in a fixed order:
  `lcid_type`, `configuration_no_match_message`, `ui_level`, `fileversion`,
  `productversion`. Enumerations are written as their symbolic names, and a
  null string is written as an empty attribute. It then writes the editor's
  element and the file-attribute collection's element. The XmlWriter is
  modelled as a writer that builds the element tree it is asked to write
  (`XmlModel.Writer`). `ConfigSpec.Render` is that tree as a function of the
  fields.
- **Reading attributes.** `OnXmlReadTag` reads the same attributes. An
  absent attribute leaves its field unchanged. An unknown enumeration symbol
  or a non-boolean `silent_install` is a format error, and fields read before
  the error stay updated. A present, true `silent_install` (deprecated) forces
  the UI level to `silent`. It is never written back.
- **Child dispatch.** `OnXmlChild` matches the child's exact name:
  - `schema` replaces the editor;
  - `fileattributes` rebuilds the collection;
  - `configurations` is read into this same object, recursively.

  Every other child changes nothing here.
- **Files.** `Create`, `Load`, `LoadXml`, `Save` and `SaveAs` keep the
  filename. Storage is a map from path to document (`InstallerLib.Storage`).
  `Save` without a filename (null or empty) fails with `MissingFilename` and
  changes nothing.

`Create(p)` only records the filename (InstallerLib/ConfigFile.cs:220-223); it
does not reset the other fields to their defaults. The null-to-empty rule of
the writer means a write followed by a read restores every field, except that
a null string comes back as `""` (`ConfigSpec.NormalizedFields`). Saving again
then produces the identical document (`ConfigSpec.LoadRoundTrip`).

The files:

- `wrappers.dfy`: `Option` (null) and `Outcome` (exception).
- `xml_model.dfy`: the element tree, attribute lookup, the `//name` search and
  the writer.
- `attribute_codec.dfy`: the enumerations and the typed attribute reads.
- `parts.dfy`: the editor and the file-attribute collection, as opaque values.
- `config_spec.dfy`: the meaning of writing, reading, dispatch and loading, as
  functions, with the lemmas about them.
- `config_file.dfy`: the `ConfigFile` class, proved to follow those functions.

## Model

| member | source | states |
|---|---|---|
| XmlModel.Lookup | InstallerLib/ConfigFile.cs:180-193 | An attribute read sees no value exactly when the element has no attribute of that name. Otherwise the value it sees belongs to an attribute of that name. |
| XmlModel.LookupFirst | InstallerLib/ConfigFile.cs:180-193 | A read finds the value of the first attribute with the name it asks for. |
| XmlModel.FindFirst | InstallerLib/ConfigFile.cs:242 | `//configurations` finds an element exactly when one occurs in the document. What it finds has that name and lies within the document (the root or a descendant). When the root has that name, the root is found. |
| XmlModel.FindFirstFrom | InstallerLib/ConfigFile.cs:242 | The search of the later children finds an element exactly when one of those subtrees holds an element of that name, and what it finds lies within one of them. |
| XmlModel.FindFirstIsFirst | InstallerLib/ConfigFile.cs:242 | The search is in document order: when the root does not match, the element found is the one found in the first child whose subtree holds a match. Earlier children are passed over. |
| XmlModel.FindFirstFromSkips | InstallerLib/ConfigFile.cs:242 | Searching the children from position i finds what the first matching child at or after i yields. |
| XmlModel.Writer.constructor | InstallerLib/ConfigFile.cs:141-144 | A new writer has no open element and no output. |
| XmlModel.Writer.WriteStartElement | InstallerLib/ConfigFile.cs:145 | Opens a new empty element inside the current one. |
| XmlModel.Writer.WriteAttributeString | InstallerLib/ConfigFile.cs:162-169 | Appends one attribute to the open element and changes nothing else. A null value is written as `""`, never omitted. |
| XmlModel.Writer.WriteEndElement | InstallerLib/ConfigFile.cs:145 | Closes the open element and places it as the last child of its parent, or as a top-level element. |
| XmlModel.Writer.WriteElement | InstallerLib/ConfigFile.cs:171-173 | Writing an element step by step puts exactly that element, unchanged, where a completed element goes. |
| AttributeCodec.UILevelName | InstallerLib/ConfigFile.cs:166 | A UI level is written as one of `full`, `basic`, `silent`; `UILevelRoundTrip` shows each parses back to itself. |
| AttributeCodec.LcidTypeName | InstallerLib/ConfigFile.cs:162 | A locale policy is written as one of its three symbolic names; `LcidTypeRoundTrip` shows each parses back to itself. |
| AttributeCodec.ParseUILevel | InstallerLib/ConfigFile.cs:14-28 | A parsed UI level is the one whose name is the text. No level has a name that fails to parse. |
| AttributeCodec.ParseLcidType | InstallerLib/ConfigFile.cs:180 | A parsed locale policy is the one whose name is the text. No policy has a name that fails to parse. |
| AttributeCodec.ParseBool | InstallerLib/ConfigFile.cs:186-187 | `true`/`True` read as true and `false`/`False` read as false. Both directions hold. |
| AttributeCodec.ReadString | InstallerLib/ConfigFile.cs:182 | A string read is absent exactly when the attribute is absent. It never fails, and when present it is the attribute's text. |
| AttributeCodec.ReadUILevel | InstallerLib/ConfigFile.cs:184 | The `ui_level` read is absent exactly when the attribute is absent. When present, the attribute is the level's name. When malformed, the text is no level's name. |
| AttributeCodec.ReadLcidType | InstallerLib/ConfigFile.cs:180 | The same for `lcid_type` and the locale policy. |
| AttributeCodec.ReadBool | InstallerLib/ConfigFile.cs:186-187 | The `silent_install` read is absent exactly when the attribute is absent. It is true exactly when the text is `true`/`True`, false exactly when the text is `false`/`False`, and otherwise malformed with the offending text. |
| AttributeCodec.UILevelRoundTrip | InstallerLib/ConfigFile.cs:166 | Every UI level travels as its symbolic name and parses back to itself. |
| AttributeCodec.LcidTypeRoundTrip | InstallerLib/ConfigFile.cs:162 | Every locale policy travels as its symbolic name and parses back to itself. |
| Parts.EditorXml | InstallerLib/ConfigFile.cs:171 | The editor always writes itself as a `schema` element. |
| Parts.EditorFromXml | InstallerLib/ConfigFile.cs:202-205 | An editor built from a `schema` element writes back that same element. |
| Parts.MembersXml | InstallerLib/ConfigFile.cs:173 | The collection writes one member element per entry, in order. |
| Parts.CollectionXml | InstallerLib/ConfigFile.cs:173 | The collection writes a `fileattributes` element with no attributes, even when it is empty. |
| Parts.Members | InstallerLib/ConfigFile.cs:206-209 | Rebuilding yields at most one member per child element, each the content of one of the children. It yields none when no child is a `fileattribute`. |
| Parts.MembersKeep | InstallerLib/ConfigFile.cs:206-209 | A leading `fileattribute` child yields its member, ahead of the members of the children after it. |
| Parts.MembersSkip | InstallerLib/ConfigFile.cs:206-209 | A child with any other tag, inserted anywhere, yields nothing and leaves the other members in their order. |
| Parts.CollectionFromXml | InstallerLib/ConfigFile.cs:206-209 | The collection read from an element has at most one member per child, each the content of a child; `CollectionRoundTrip`, `MembersKeep` and `MembersSkip` pin down which. |
| Parts.CollectionRoundTrip | InstallerLib/ConfigFile.cs:206-209 | Reading back the collection's own element restores the same members in the same order. An empty collection reads back empty. |
| Parts.MembersRoundTrip | InstallerLib/ConfigFile.cs:206-209 | The same, for the member elements. |
| ConfigSpec.WriteAttrs | InstallerLib/ConfigFile.cs:162-169 | The written attributes are exactly the five names in their fixed order and never `silent_install`; `RenderValues` states each one's value. |
| ConfigSpec.Render | InstallerLib/ConfigFile.cs:159-175 | The written element is tagged `configurations`. Its attributes are exactly the five names in their fixed order, never `silent_install`. Its children are the `schema` element and then the `fileattributes` element. |
| ConfigSpec.ReadTag | InstallerLib/ConfigFile.cs:177-195 | Reading attributes never touches the editor or the file-attribute collection; `ReadTagFields` and `Migration` state each other field after a successful read. A failed read is a format error naming `lcid_type`, `ui_level` or `silent_install`; `ReadTagErrors` states when each arises and `ReadTagErrorFields` the fields it leaves. |
| ConfigSpec.Hydrate | InstallerLib/ConfigFile.cs:177-218 | Reading a whole element can only fail with a format error; `HydrateRoundTrip` and `UnknownChildIgnored` state what it produces. |
| ConfigSpec.HydrateChildren | InstallerLib/ConfigFile.cs:197-218 | Reading the remaining children can only fail with a format error; `HydrateChildrenSuffix` and `PrefixAgrees` state what it depends on. |
| ConfigSpec.Dispatch | InstallerLib/ConfigFile.cs:197-218 | A child is consumed exactly when its name is `schema`, `fileattributes` or `configurations`. An unconsumed child changes nothing. Only a nested `configurations` child can fail, with a format error. |
| ConfigSpec.LoadDocument | InstallerLib/ConfigFile.cs:240-243 | Loading fails with a not-found error exactly when no `configurations` element occurs in the document; any other failure is a format error. `LoadRoundTrip` states what a saved document loads as. |
| ConfigSpec.RenderValues | InstallerLib/ConfigFile.cs:162-169 | Each written attribute carries its field's value. Enumerations are written by name and null strings as `""`. There is no `silent_install`. |
| ConfigSpec.RenderNormalized | InstallerLib/ConfigFile.cs:159-175 | Writing a file whose null strings were replaced by `""` gives the identical element. |
| ConfigSpec.ReadTagRoundTrip | InstallerLib/ConfigFile.cs:177-195 | Reading the written attributes restores the locale policy, message, UI level and both versions, without error, and changes no other field. |
| ConfigSpec.Migration | InstallerLib/ConfigFile.cs:184-190 | After a successful read, a present, true `silent_install` means the UI level is `silent`, whatever `ui_level` said. Otherwise the UI level is what the `ui_level` read produced. |
| ConfigSpec.ReadTagFields | InstallerLib/ConfigFile.cs:180-193 | After a successful read, the locale policy, the message and both versions each hold their own attribute's value when it is present and their old value when it is absent, whichever other attributes are present. |
| ConfigSpec.ReadTagErrors | InstallerLib/ConfigFile.cs:177-195 | A read fails exactly when `lcid_type`, `ui_level` or `silent_install` does not parse. The error names the first such attribute and its text. A bad `lcid_type` changes no field. |
| ConfigSpec.ReadTagErrorFields | InstallerLib/ConfigFile.cs:180-193 | A failed read keeps the assignments made before the error and makes none after it. A bad `ui_level` leaves only the locale policy and the message read. A bad `silent_install` also leaves the UI level read. Neither version field is touched. |
| ConfigSpec.ReadTagAbsentKeeps | InstallerLib/ConfigFile.cs:177-195 | An element with none of the six attributes leaves every field as it was. |
| ConfigSpec.DispatchCases | InstallerLib/ConfigFile.cs:197-218 | A child is consumed exactly when its name is `schema`, `fileattributes` or `configurations`. `schema` replaces only the editor. `fileattributes` rebuilds only the collection. `configurations` re-reads into the same fields. Any other child changes nothing. |
| ConfigSpec.HydrateChildrenSuffix | InstallerLib/ConfigFile.cs:197-218 | Dispatching the remaining children depends only on those children. |
| ConfigSpec.UnknownChildIgnored | InstallerLib/ConfigFile.cs:214-217 | Inserting a child with any other name anywhere among the children does not change the result of a read. |
| ConfigSpec.PrefixAgrees | InstallerLib/ConfigFile.cs:197-218 | Children that agree up to a point, and read the same from there, read the same overall. |
| ConfigSpec.PrefixAgreesFrom | InstallerLib/ConfigFile.cs:197-218 | The same, from any earlier position. |
| ConfigSpec.HydrateRoundTrip | InstallerLib/ConfigFile.cs:159-218 | Reading the element a file writes restores every field without error, whatever the fields were before. A null string comes back as `""`. |
| ConfigSpec.LoadRoundTrip | InstallerLib/ConfigFile.cs:240-243 | Loading a saved document restores its fields. Saving the loaded fields again gives the identical document. |
| InstallerLib.ConfigFile.constructor | InstallerLib/ConfigFile.cs:37-111 | A new object has no filename, UI level `full`, no versions or message, no file attributes, locale policy `UserExe` and a new editor. |
| InstallerLib.ConfigFile.Create | InstallerLib/ConfigFile.cs:220-223 | Sets the filename to the given path, null included, and changes no other field. |
| InstallerLib.ConfigFile.ToXml | InstallerLib/ConfigFile.cs:145 | Writing the object places exactly its rendered element in the writer. |
| InstallerLib.ConfigFile.OnXmlWriteTag | InstallerLib/ConfigFile.cs:159-175 | Adds the five attributes in order to the open element, then the editor's and the collection's elements. Nothing else in the writer changes. |
| InstallerLib.ConfigFile.Xml | InstallerLib/ConfigFile.cs:137-152 | The document is the rendered element of the current fields. Nothing changes, so rendering twice gives equal documents. |
| InstallerLib.ConfigFile.OnXmlReadTag | InstallerLib/ConfigFile.cs:177-195 | The new fields and the outcome are those of reading the attributes into the old fields (`ConfigSpec.ReadTag`), so on success each field is assigned from its attribute when present and kept when absent (`ReadTagFields`, `Migration`). The filename is untouched. |
| InstallerLib.ConfigFile.FromXml | InstallerLib/ConfigFile.cs:211 | Reading an element sets the fields and outcome to those of its attributes and then each child in order. The filename is untouched. |
| InstallerLib.ConfigFile.OnXmlChild | InstallerLib/ConfigFile.cs:197-218 | The returned flag, the new fields and the outcome are those of the dispatch rule. The filename is untouched. |
| InstallerLib.ConfigFile.LoadXml | InstallerLib/ConfigFile.cs:240-243 | Reads the first `configurations` element of the document, or fails with a not-found error when there is none. The filename is untouched. |
| InstallerLib.ConfigFile.LoadXmlText | InstallerLib/ConfigFile.cs:233-238 | Text that does not parse fails and changes nothing. Text that parses loads like the document. The filename is untouched. |
| InstallerLib.ConfigFile.Load | InstallerLib/ConfigFile.cs:225-231 | A missing path fails and changes nothing. Otherwise the document at the path is loaded, and on success the filename becomes the path. |
| InstallerLib.ConfigFile.SaveAs | InstallerLib/ConfigFile.cs:127-131 | Stores the rendered document at the path and sets the filename to the path. No other field and no other path changes. |
| InstallerLib.ConfigFile.Save | InstallerLib/ConfigFile.cs:113-121 | With a null or empty filename, fails with `MissingFilename` and changes neither storage nor the object. Otherwise stores the rendered document at the filename, which is unchanged. |
| InstallerLib.SaveAsThenLoad | InstallerLib/ConfigFile.cs:225-231 | Saving under a path and loading that path into a new object succeeds. The new object has the saved fields (null strings as `""`) and the path as its filename. |

## Left out

- XML text is not modelled: no parsing, no serialisation, no UTF-8 encoding
  and no indentation (InstallerLib/ConfigFile.cs:141-149, 227-228, 235-236).
  A document is an element tree. `LoadXmlText` takes the parser as a
  parameter, and `Storage` maps a path straight to its parsed document.
- Namespaces are not modelled. Element names are compared as local names,
  also for the `//configurations` search, which in .NET matches only a
  `configurations` element in no namespace; the model also finds namespaced
  ones.
- The base class `XmlClassImpl` is not part of this model. The model assumes
  its `ToXml` writes the start tag, calls `OnXmlWriteTag` and writes the end
  tag. It assumes its `FromXml` calls `OnXmlReadTag` and then `OnXmlChild` for
  each child in order, and that the first exception stops the read.
- The `XmlChild` registrations for `WebConfiguration` and
  `SetupConfiguration` (lines 33-34) are left out, and so is the list of
  nested configurations the base class fills from them. Children that
  `OnXmlChild` does not consume change nothing in this model. Both types are
  not part of this model.
- `Editor` and `FileAttributeCollection` are not part of this model. An
  editor is the content of its `schema` element. A file attribute is the
  content of a `fileattribute` element. The collection's own read keeps its
  `fileattribute` children in order and skips the rest. Format errors inside
  either of them are not modelled.
- `LcidType` is not part of this model. Only its symbol `UserExe` appears in
  the source (InstallerLib/ConfigFile.cs:96). The other two symbols,
  `UserDefault` and `SystemDefault`, are guesses from the description at
  line 97. A document that uses the enumeration's real names for those two
  would read as a format error in this model.
- InstallerLib.ConfigFile.HasFilename has no contract of its own: it is the
  null-or-empty test of line 115, and its meaning is stated by the contract
  of `Save`.
- Enum reads accept only the exact symbolic names. .NET's numeric and
  comma-separated forms are not accepted. Boolean reads accept
  `true`/`True`/`false`/`False` only; case-insensitive spellings and
  surrounding whitespace are not accepted.
- InstallerLib.ConfigFile.SaveAs: I/O failures (a null or empty path, no
  permission) are not modelled, so every path can be written. Paths passed to
  `SaveAs` and `Load` are never null.
- InstallerLib.ConfigFile.LoadXml: when the document has no `configurations`
  element, the source passes null to the base class. The model reports this
  as a not-found error.
- The `fileattributes` collection is a shared object with a public setter.
  Here it is a value field, so aliasing between two holders is not captured.
- The property getters and setters (lines 43-111) are plain field access and
  are not modelled separately. The property-grid attributes are display-only.
- UnitTests/InstallerEditorUnitTests/UITemplateUnitTests.cs drives the GUI
  and is not part of this model. dotNetInstallerLib/ExtractComponent.cpp
  (resource lookup and CAB extraction on a worker thread) is not part of this
  model either.
