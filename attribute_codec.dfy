/**
 * Typed attribute values of the configuration file: the two enumerations, which
 * travel as their symbolic names, the deprecated boolean flag, and the generic
 * `ReadAttributeValue` that reads one attribute into a typed field.
 */
module AttributeCodec {
  import opened Wrappers
  import opened XmlModel

  /** The install-time UI level. */
  datatype InstallUILevel = Full | Basic | Silent

  /** How the runtime picks its locale: from user.exe, GetUserDefaultLCID or GetSystemDefaultLCID. */
  datatype LcidType = UserExe | UserDefault | SystemDefault

  /** The symbolic name an enumeration value is written as (`Enum.ToString`). */
  function UILevelName(u: InstallUILevel): (r: string)
    ensures r in {"full", "basic", "silent"}
  {
    match u
    case Full => "full"
    case Basic => "basic"
    case Silent => "silent"
  }

  /** Reads an enumeration value back from its symbolic name; any other text is not a value. */
  function ParseUILevel(s: string): (r: Option<InstallUILevel>)
    ensures r.Some? ==> UILevelName(r.value) == s
    ensures r.None? ==> forall u :: UILevelName(u) != s
  {
    if s == "full" then Some(Full)
    else if s == "basic" then Some(Basic)
    else if s == "silent" then Some(Silent)
    else None
  }

  function LcidTypeName(t: LcidType): (r: string)
    ensures r in {"UserExe", "UserDefault", "SystemDefault"}
  {
    match t
    case UserExe => "UserExe"
    case UserDefault => "UserDefault"
    case SystemDefault => "SystemDefault"
  }

  function ParseLcidType(s: string): (r: Option<LcidType>)
    ensures r.Some? ==> LcidTypeName(r.value) == s
    ensures r.None? ==> forall t :: LcidTypeName(t) != s
  {
    if s == "UserExe" then Some(UserExe)
    else if s == "UserDefault" then Some(UserDefault)
    else if s == "SystemDefault" then Some(SystemDefault)
    else None
  }

  /** The textual booleans `Boolean.Parse` accepts in the spellings .NET writes and XML uses. */
  function ParseBool(s: string): (r: Option<bool>)
    ensures r == Some(true) <==> s in {"true", "True"}
    ensures r == Some(false) <==> s in {"false", "False"}
  {
    if s == "true" || s == "True" then Some(true)
    else if s == "false" || s == "False" then Some(false)
    else None
  }

  /**
   * What reading one attribute into a field yields: the attribute is absent and
   * the field keeps its value, it is present and parses, or it is present and
   * does not parse (a format error naming the offending text).
   */
  datatype AttrRead<T> = Absent | Present(value: T) | Malformed(text: string) {
    /** The field's value after the read, given its value before. */
    function Or(current: T): T
      requires !Malformed?
    {
      if Present? then value else current
    }

    /** The same, for a field that may hold null. */
    function Into(current: Option<T>): Option<T>
      requires !Malformed?
    {
      if Present? then Some(value) else current
    }
  }

  /** `ReadAttributeValue` into a string field: present means assigned, verbatim. */
  function ReadString(attrs: seq<(string, string)>, name: string): (r: AttrRead<string>)
    ensures !r.Malformed?
    ensures r.Absent? <==> Lookup(attrs, name).None?
    ensures r.Present? ==> Lookup(attrs, name) == Some(r.value)
  {
    match Lookup(attrs, name)
    case None => Absent
    case Some(text) => Present(text)
  }

  /** `ReadAttributeValue<InstallUILevel>`: an unknown symbol is a format error. */
  function ReadUILevel(attrs: seq<(string, string)>, name: string): (r: AttrRead<InstallUILevel>)
    ensures r.Absent? <==> Lookup(attrs, name).None?
    ensures r.Present? ==> Lookup(attrs, name) == Some(UILevelName(r.value))
    ensures r.Malformed? ==> Lookup(attrs, name) == Some(r.text) && ParseUILevel(r.text).None?
  {
    match Lookup(attrs, name)
    case None => Absent
    case Some(text) =>
      match ParseUILevel(text)
      case Some(u) => Present(u)
      case None => Malformed(text)
  }

  /** `ReadAttributeValue<LcidType>`: an unknown symbol is a format error. */
  function ReadLcidType(attrs: seq<(string, string)>, name: string): (r: AttrRead<LcidType>)
    ensures r.Absent? <==> Lookup(attrs, name).None?
    ensures r.Present? ==> Lookup(attrs, name) == Some(LcidTypeName(r.value))
    ensures r.Malformed? ==> Lookup(attrs, name) == Some(r.text) && ParseLcidType(r.text).None?
  {
    match Lookup(attrs, name)
    case None => Absent
    case Some(text) =>
      match ParseLcidType(text)
      case Some(t) => Present(t)
      case None => Malformed(text)
  }

  /** `ReadAttributeValue<bool>`: text that is not a boolean is a format error. */
  function ReadBool(attrs: seq<(string, string)>, name: string): (r: AttrRead<bool>)
    ensures r.Absent? <==> Lookup(attrs, name).None?
    ensures r == Present(true) <==> Lookup(attrs, name) in {Some("true"), Some("True")}
    ensures r == Present(false) <==> Lookup(attrs, name) in {Some("false"), Some("False")}
    ensures r.Malformed? ==> Lookup(attrs, name) == Some(r.text) && ParseBool(r.text).None?
  {
    match Lookup(attrs, name)
    case None => Absent
    case Some(text) =>
      match ParseBool(text)
      case Some(b) => Present(b)
      case None => Malformed(text)
  }

  /** Every UI level travels as its name and comes back as itself. */
  lemma UILevelRoundTrip(u: InstallUILevel)
    ensures ParseUILevel(UILevelName(u)) == Some(u)
  {
  }

  lemma LcidTypeRoundTrip(t: LcidType)
    ensures ParseLcidType(LcidTypeName(t)) == Some(t)
  {
  }
}
