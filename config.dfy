/** `Property`, `Configuration` and `CtxBinding` of the server: configuration
    keys and context binding ids derived from enum constant names, default
    values, and the lookup of a property in the loaded user properties. */
module Config {
  import opened Lang
  import opened Decimal
  import Assert

  // ------------------------------------------------------------------------
  // Keys from enum names
  // ------------------------------------------------------------------------

  /** One character of `name().toLowerCase().replace('_', '.')`. */
  function KeyChar(c: char): char
  {
    if c == '_' then '.' else if 'A' <= c <= 'Z' then (c as int + 32) as char else c
  }

  /** `name.toLowerCase().replace('_', '.')` on an ASCII enum constant name. */
  function KeyOf(name: string): (k: string)
    ensures |k| == |name|
  {
    seq(|name|, i requires 0 <= i < |name| => KeyChar(name[i]))
  }

  /** A key has no underscores and no upper-case letters; its dots stand where
      the name had an underscore or a dot. */
  lemma KeyShape(name: string)
    ensures forall i :: 0 <= i < |name| ==> KeyOf(name)[i] != '_' && !('A' <= KeyOf(name)[i] <= 'Z')
    ensures forall i :: 0 <= i < |name| ==> (KeyOf(name)[i] == '.' <==> name[i] == '_' || name[i] == '.')
  {
  }

  /** An enum constant name written in one case, without dots. */
  predicate SingleCase(name: string, upper: bool)
  {
    forall i :: 0 <= i < |name| ==>
      name[i] != '.' && (if upper then !('a' <= name[i] <= 'z') else !('A' <= name[i] <= 'Z'))
  }

  /** Constant names of one case map to distinct keys. */
  lemma KeyOfInjective(a: string, b: string, upper: bool)
    requires SingleCase(a, upper) && SingleCase(b, upper) && KeyOf(a) == KeyOf(b)
    ensures a == b
  {
    assert |a| == |b|;
    forall i | 0 <= i < |a| ensures a[i] == b[i] {
      assert KeyOf(a)[i] == KeyOf(b)[i];
    }
  }

  // ------------------------------------------------------------------------
  // Properties
  // ------------------------------------------------------------------------

  /** `Servant.Property` / `Server.Property`. */
  datatype Property = LOG_LEVEL | DB_SERVER_PORT | DB_IMAGE_ROOT | DB_CACHE_BLOCK_SIZE

  /** `name()` of each constant. */
  function Name(p: Property): string
  {
    match p
    case LOG_LEVEL => "LOG_LEVEL"
    case DB_SERVER_PORT => "DB_SERVER_PORT"
    case DB_IMAGE_ROOT => "DB_IMAGE_ROOT"
    case DB_CACHE_BLOCK_SIZE => "DB_CACHE_BLOCK_SIZE"
  }

  /** `key()`: the constant's name, lower-cased, with `.` for `_`. */
  function Key(p: Property): (k: string)
    ensures |k| == |Name(p)|
    ensures forall i :: 0 <= i < |k| ==> k[i] != '_' && !('A' <= k[i] <= 'Z')
    ensures forall i :: 0 <= i < |k| ==> (k[i] == '.' <==> Name(p)[i] == '_')
  {
    KeyShape(Name(p));
    KeyOf(Name(p))
  }

  /** `defval()`: never empty; the port and the block size are decimal numerals. */
  function Default(p: Property): (d: string)
    ensures |d| > 0
    ensures p == DB_SERVER_PORT || p == DB_CACHE_BLOCK_SIZE ==> forall i :: 0 <= i < |d| ==> '0' <= d[i] <= '9'
  {
    match p
    case LOG_LEVEL => "FINE"
    case DB_SERVER_PORT => "7727"
    case DB_IMAGE_ROOT => "db/image"
    case DB_CACHE_BLOCK_SIZE => "4096"
  }

  /** The key of the log level property, as a configuration file spells it. */
  lemma LogLevelKey()
    ensures Key(LOG_LEVEL) == "log.level"
  {
  }

  /** Distinct properties have distinct keys. */
  lemma KeysDistinct(p: Property, q: Property)
    requires Key(p) == Key(q)
    ensures p == q
  {
    NameSingleCase(p);
    NameSingleCase(q);
    KeyOfInjective(Name(p), Name(q), true);
  }

  lemma NameSingleCase(p: Property)
    ensures SingleCase(Name(p), true)
  {
  }

  /** The default port and block size are decimal ints that `parseInt` accepts. */
  lemma NumericDefaults()
    ensures ParseInt(Default(DB_SERVER_PORT)) == Ok(7727)
    ensures ParseInt(Default(DB_CACHE_BLOCK_SIZE)) == Ok(4096)
  {
    assert "7727"[..3] == "772" && "772"[..2] == "77" && "77"[..1] == "7" && "7"[..0] == [];
    assert DigitsValue("7727") == 7727;
    assert "4096"[..3] == "409" && "409"[..2] == "40" && "40"[..1] == "4" && "4"[..0] == [];
    assert DigitsValue("4096") == 4096;
  }

  // ------------------------------------------------------------------------
  // Configuration
  // ------------------------------------------------------------------------

  /** `Configuration`: the user properties loaded from the configuration file. */
  datatype Configuration = Configuration(userprops: map<string, string>)
  {
    /** `get(prop)`: the user's value for the property's key, else its default.
        A null property fails the `notNull` check on "key". */
    function Get(prop: Option<Property>): (r: Result<string>)
      ensures prop.None? ==> r == Throws(Thrown(IllegalArgument, "null reference:{" + "key" + "}"))
      ensures prop.Some? && Key(prop.value) in userprops ==> r == Ok(userprops[Key(prop.value)])
      ensures prop.Some? && Key(prop.value) !in userprops ==> r == Ok(Default(prop.value))
    {
      var checked := Assert.NotNullInfo(prop, "key", IllegalArgument);
      if checked.Throws? then Throws(checked.error)
      else
        var p := checked.value;
        Ok(if Key(p) in userprops then userprops[Key(p)] else Default(p))
    }
  }

  /** `Configuration.Load(path)`: the properties of the file at path, `files`
      standing for the file system and `Properties.load`; a missing file
      fails with an `Exception` (its message, which names the absolute path,
      is not modelled). */
  function Load(files: map<string, map<string, string>>, path: string): (r: Result<Configuration>)
    ensures r.Ok? <==> path in files
    ensures r.Ok? ==> forall p :: r.value.Get(Some(p)) == Ok(if Key(p) in files[path] then files[path][Key(p)] else Default(p))
    ensures r.Throws? ==> r.error.kind == Exception
  {
    if path in files then Ok(Configuration(files[path])) else Throws(Jdk(Exception))
  }

  /** A property's value depends only on the user entry under its own key. */
  lemma GetIsolated(c: Configuration, d: Configuration, p: Property)
    requires (Key(p) in c.userprops) == (Key(p) in d.userprops)
    requires Key(p) in c.userprops ==> c.userprops[Key(p)] == d.userprops[Key(p)]
    ensures c.Get(Some(p)) == d.Get(Some(p))
  {
  }

  /** Setting one property's key in the user properties changes no other property. */
  lemma SetOneProperty(c: Configuration, p: Property, v: string)
    ensures Configuration(c.userprops[Key(p) := v]).Get(Some(p)) == Ok(v)
    ensures forall q :: q != p ==> Configuration(c.userprops[Key(p) := v]).Get(Some(q)) == c.Get(Some(q))
  {
    forall q | q != p ensures Key(q) != Key(p) {
      if Key(q) == Key(p) {
        KeysDistinct(q, p);
      }
    }
  }

  /** With no user properties every property has its default. */
  lemma EmptyConfiguration(p: Property)
    ensures Configuration(map[]).Get(Some(p)) == Ok(Default(p))
  {
  }

  // ------------------------------------------------------------------------
  // Context binding ids
  // ------------------------------------------------------------------------

  /** `Servant.CtxBinding` / `Server.CtxBinding` and `NetworkInterface.CtxBinding`. */
  datatype CtxBinding =
    | NetworkInterface
    | NetworkInterfaceExecutor
    | ServerSocketChan
    | AcceptHandler
    | RequestHandler
    | ResponseHandler
    | AcceptSelector
    | ReadSelector
    | WriteSelector

  /** `name()` of each binding constant. */
  function BindingName(b: CtxBinding): string
  {
    match b
    case NetworkInterface => "network_interface"
    case NetworkInterfaceExecutor => "network_interface_executor"
    case ServerSocketChan => "server_socket_chan"
    case AcceptHandler => "accept_handler"
    case RequestHandler => "request_handler"
    case ResponseHandler => "response_handler"
    case AcceptSelector => "accept_selector"
    case ReadSelector => "read_selector"
    case WriteSelector => "write_selector"
  }

  /** `id()`: the name with `_` read as `.`. */
  function Id(b: CtxBinding): (id: string)
    ensures |id| == |BindingName(b)|
    ensures forall i :: 0 <= i < |id| ==> id[i] != '_'
    ensures forall i :: 0 <= i < |id| ==> (id[i] == '.' <==> BindingName(b)[i] == '_' || BindingName(b)[i] == '.')
  {
    KeyShape(BindingName(b));
    KeyOf(BindingName(b))
  }

  /** Distinct bindings have distinct ids, so no binding overwrites another. */
  lemma IdsDistinct(b: CtxBinding, c: CtxBinding)
    requires Id(b) == Id(c)
    ensures b == c
  {
    IdShape(b);
    IdShape(c);
    NamesByLengthAndInitial(b, c);
  }

  /** Binding names of one length start with different letters. */
  lemma NamesByLengthAndInitial(b: CtxBinding, c: CtxBinding)
    requires |BindingName(b)| == |BindingName(c)| && BindingName(b)[0] == BindingName(c)[0]
    ensures b == c
  {
  }

  /** An id is as long as its name and starts with the same (lower-case) letter. */
  lemma IdShape(b: CtxBinding)
    ensures |BindingName(b)| > 0 && |Id(b)| == |BindingName(b)| && Id(b)[0] == BindingName(b)[0]
  {
    var x := BindingName(b);
    assert |x| > 0 && x[0] != '_' && !('A' <= x[0] <= 'Z') by {
      match b
      case NetworkInterface =>
      case NetworkInterfaceExecutor =>
      case ServerSocketChan =>
      case AcceptHandler =>
      case RequestHandler =>
      case ResponseHandler =>
      case AcceptSelector =>
      case ReadSelector =>
      case WriteSelector =>
    }
  }
}
