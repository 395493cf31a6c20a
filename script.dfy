/** The configuration as the Lua configuration script sees it (src/script.rs):
    components cross into Lua as tables, the logo as a tagged list of
    strings, and the script assigns both fields of the configuration object. */
module Script {
  import opened Wrappers
  import opened ConfigTypes

  /** A Lua value as the conversions look at it: a table, abstracted as a map
      from key to string, or a value of some other Lua type, known by the
      type name it reports. */
  datatype LuaValue = Table(fields: map<string, string>) | NonTable(typeName: string)

  /** Why a Lua value could not become a component. */
  datatype LuaError =
    | ConversionError(from: string, to: string, message: string)  // not a table
    | FieldError(key: string)                                     // a field could not be read

  /** The keys a component table carries. */
  const ComponentKeys: set<string> := {"name", "icon", "content"}

  /** `to_lua`: a table with the three fields; an absent icon becomes "". */
  function ToLua(c: Component): (v: LuaValue)
    ensures v.Table? && v.fields.Keys == ComponentKeys
    ensures v.fields["name"] == c.name && v.fields["content"] == c.content
    ensures v.fields["icon"] == (if c.icon.Some? then c.icon.value else "")
  {
    Table(map["name" := c.name, "icon" := c.icon.GetOr(""), "content" := c.content])
  }

  /** `from_lua`: read name, icon and content, in that order, from a table;
      an empty icon string means no icon. Anything but a table is refused. */
  function FromLua(v: LuaValue): (r: Result<Component, LuaError>)
    ensures r.Ok? <==> v.Table? && ComponentKeys <= v.fields.Keys
    ensures v.NonTable? ==> r == Err(ConversionError(v.typeName, "Vec", "expected table"))
    ensures r.Ok? ==> r.value.name == v.fields["name"] && r.value.content == v.fields["content"]
    ensures r.Ok? ==> (r.value.icon == None <==> v.fields["icon"] == "")
    ensures r.Ok? && r.value.icon.Some? ==> r.value.icon.value == v.fields["icon"]
  {
    match v
    case NonTable(typeName) => Err(ConversionError(typeName, "Vec", "expected table"))
    case Table(t) =>
      if "name" !in t then Err(FieldError("name"))
      else if "icon" !in t then Err(FieldError("icon"))
      else if "content" !in t then Err(FieldError("content"))
      else
        var icon := if t["icon"] == "" then None else Some(t["icon"]);
        Ok(Component(t["name"], icon, t["content"]))
  }

  /** A component as it comes back from Lua: an empty icon reads as none. */
  function NormalIcon(c: Component): Component {
    if c.icon == Some("") then c.(icon := None) else c
  }

  /** Encoding a component and decoding it again gives the component back,
      except that an empty icon comes back as no icon. */
  lemma FromLuaToLua(c: Component)
    ensures FromLua(ToLua(c)) == Ok(NormalIcon(c))
    ensures c.icon != Some("") ==> FromLua(ToLua(c)) == Ok(c)
  {
  }

  /** Decoding a table and encoding the component again gives back the
      table's three component fields; other keys are dropped. */
  lemma ToLuaFromLua(v: LuaValue)
    requires FromLua(v).Ok?
    ensures ToLua(FromLua(v).value).fields.Keys == ComponentKeys
    ensures forall k :: k in ComponentKeys ==> ToLua(FromLua(v).value).fields[k] == v.fields[k]
  {
  }

  /** The `logo` getter: a tag followed, for a custom logo, by its rows. */
  function EncodeLogo(logo: Logo): (val: seq<string>)
    ensures |val| >= 1
  {
    match logo
    case Os => ["Os"]
    case Custom(lines) => ["Custom"] + lines
    case Disabled => ["Disabled"]
  }

  /** What the `logo` setter assigns for a tagged list; None for an unknown
      tag, which the setter ignores. Rows after an "Os" or "Disabled" tag are
      ignored. */
  function DecodeLogo(val: seq<string>): (r: Option<Logo>)
    requires |val| > 0
    ensures r.Some? <==> val[0] == "Os" || val[0] == "Custom" || val[0] == "Disabled"
    ensures r.Some? ==> EncodeLogo(r.value)[0] == val[0]
    ensures r.Some? && r.value.Custom? ==> r.value.lines == val[1..]
  {
    if val[0] == "Os" then Some(Os)
    else if val[0] == "Custom" then Some(Custom(val[1..]))
    else if val[0] == "Disabled" then Some(Disabled)
    else None
  }

  /** Setting the logo to what the getter returned restores it. */
  lemma LogoRoundTrip(logo: Logo)
    ensures DecodeLogo(EncodeLogo(logo)) == Some(logo)
  {
  }

  /** Conversely, a list the setter accepts is what the getter then returns,
      unless it carries rows after an "Os" or "Disabled" tag. */
  lemma EncodeDecodeLogo(val: seq<string>)
    requires |val| > 0 && DecodeLogo(val).Some?
    ensures val[0] == "Custom" || |val| == 1 <==> EncodeLogo(DecodeLogo(val).value) == val
  {
  }

  /** The getter never maps two logos to the same list. */
  lemma EncodeLogoInjective(a: Logo, b: Logo)
    requires EncodeLogo(a) == EncodeLogo(b)
    ensures a == b
  {
    LogoRoundTrip(a);
    LogoRoundTrip(b);
  }

  /** The configuration object the script assigns fields of. */
  class LuaConfig {
    var logo: Logo
    var components: seq<Component>

    constructor (cfg: Config)
      ensures logo == cfg.logo && components == cfg.components
    {
      logo := cfg.logo;
      components := cfg.components;
    }

    /** The configuration value the object holds. */
    function Value(): Config
      reads this
    {
      Config(logo, components)
    }

    /** The `logo` getter on the object. */
    function GetLogo(): (val: seq<string>)
      reads this
      ensures |val| >= 1 && DecodeLogo(val) == Some(logo)
    {
      LogoRoundTrip(logo);
      EncodeLogo(logo)
    }

    /** The `logo` setter. It reads the tag at index 0, so the list must not
        be empty; an unknown tag leaves the logo as it was. */
    method SetLogo(val: seq<string>)
      requires |val| > 0
      modifies this
      ensures DecodeLogo(val).Some? ==> logo == DecodeLogo(val).value
      ensures DecodeLogo(val).None? ==> logo == old(logo)
      ensures components == old(components)
    {
      var tag := val[0];
      if tag == "Os" {
        logo := Os;
      } else if tag == "Custom" {
        logo := Custom(val[1..|val|]);
      } else if tag == "Disabled" {
        logo := Disabled;
      }
    }

    /** The `components` setter: replaces the list, nothing else. */
    method SetComponents(val: seq<Component>)
      modifies this
      ensures components == val && logo == old(logo)
    {
      components := val;
    }

    /** Assigning the getter's own output back to `logo` changes nothing. */
    method ReassignLogo()
      modifies this
      ensures Value() == old(Value())
    {
      var val := GetLogo();
      SetLogo(val);
    }
  }
}
