/** Rendering a configuration into terminal rows (src/render.rs): the logo
    rows on the left, the components text merged onto them row by row. */
module Render {
  import opened Wrappers
  import opened ConfigTypes

  function Max(a: nat, b: nat): nat {
    if a < b then b else a
  }

  /** The logo rows `render` starts from. The premade `Os` logo is not
      implemented: the source panics there, so callers must not select it. */
  function LogoLines(logo: Logo): (rows: seq<string>)
    requires !logo.Os?
    ensures logo.Custom? ==> rows == logo.lines
    ensures logo.Disabled? ==> rows == []
  {
    if logo.Custom? then logo.lines else []
  }

  /** Header row of a component: its icon (an absent icon is the empty
      string), its name and a colon. */
  function Header(c: Component): string {
    c.icon.GetOr("") + c.name + ":"
  }

  /** The block a component contributes: header, content, empty separator. */
  function Block(c: Component): seq<string> {
    [Header(c), c.content, ""]
  }

  /** The components text: every component's block, in configuration order. */
  function ComponentsText(cs: seq<Component>): (text: seq<string>)
    ensures |text| == 3 * |cs|
  {
    if cs == [] then [] else ComponentsText(cs[..|cs| - 1]) + Block(cs[|cs| - 1])
  }

  /** Row 3k + j of the components text is row j of component k's block. */
  lemma {:induction false} ComponentsTextRows(cs: seq<Component>, k: nat)
    requires k < |cs|
    ensures ComponentsText(cs)[3 * k] == cs[k].icon.GetOr("") + cs[k].name + ":"
    ensures ComponentsText(cs)[3 * k + 1] == cs[k].content
    ensures ComponentsText(cs)[3 * k + 2] == ""
  {
    var init := cs[..|cs| - 1];
    if k < |cs| - 1 {
      ComponentsTextRows(init, k);
      assert init[k] == cs[k];
    }
  }

  /** Reference definition of the merge: where both a logo row and a text row
      exist they are joined by one space; whichever sequence is longer then
      continues on its own. */
  function Overlay(logo: seq<string>, text: seq<string>): (rows: seq<string>)
    ensures |rows| == Max(|logo|, |text|)
  {
    if logo == [] then text
    else if text == [] then logo
    else [logo[0] + " " + text[0]] + Overlay(logo[1..], text[1..])
  }

  lemma {:induction false} OverlayRow(logo: seq<string>, text: seq<string>, i: nat)
    requires i < Max(|logo|, |text|)
    ensures i < |logo| && i < |text| ==> Overlay(logo, text)[i] == logo[i] + " " + text[i]
    ensures |logo| <= i ==> Overlay(logo, text)[i] == text[i]
    ensures |text| <= i ==> Overlay(logo, text)[i] == logo[i]
  {
    if logo != [] && text != [] && i > 0 {
      OverlayRow(logo[1..], text[1..], i - 1);
    }
  }

  /** What `render` returns for `cfg`. */
  function Rendered(cfg: Config): seq<string>
    requires !cfg.logo.Os?
  {
    Overlay(LogoLines(cfg.logo), ComponentsText(cfg.components))
  }

  /** `render`: pick the logo rows, build the components text, then merge the
      text into the logo rows in place, appending rows past the logo's end. */
  method Render(cfg: Config) returns (output: seq<string>)
    requires !cfg.logo.Os?
    ensures output == Rendered(cfg)
  {
    var logo: seq<string> := [];
    match cfg.logo {
      case Custom(provided) => logo := provided;
      case Disabled =>
    }

    var text: seq<string> := [];
    if |cfg.components| != 0 {
      var cs := cfg.components;
      for i := 0 to |cs|
        invariant text == ComponentsText(cs[..i])
      {
        var c := cs[i];
        text := text + [c.icon.GetOr("") + c.name + ":"];
        text := text + [c.content];
        text := text + [""];
        assert cs[..i + 1][..i] == cs[..i];
      }
      assert cs[..|cs|] == cs;
    }

    output := logo;
    for pos := 0 to |text|
      invariant |output| == Max(|logo|, pos)
      invariant forall j :: 0 <= j < pos && j < |logo| ==> output[j] == logo[j] + " " + text[j]
      invariant forall j :: |logo| <= j < pos ==> output[j] == text[j]
      invariant forall j :: pos <= j < |logo| ==> output[j] == logo[j]
    {
      var item := text[pos];
      if pos >= |output| {
        output := output + [item];
      } else {
        output := output[pos := output[pos] + " " + item];
      }
    }

    forall i | 0 <= i < |output|
      ensures output[i] == Overlay(logo, text)[i]
    {
      OverlayRow(logo, text, i);
    }
  }

  /** Every output row in terms of the configuration: the row where component
      k's block lands carries the logo row (if any) and one space before the
      block's row; logo rows below the components stay unchanged. */
  lemma RenderedRows(cfg: Config, i: nat)
    requires !cfg.logo.Os?
    requires i < |Rendered(cfg)|
    ensures |Rendered(cfg)| == Max(|LogoLines(cfg.logo)|, 3 * |cfg.components|)
    ensures i < 3 * |cfg.components| ==>
      Rendered(cfg)[i] ==
        (if i < |LogoLines(cfg.logo)| then LogoLines(cfg.logo)[i] + " " else "")
        + Block(cfg.components[i / 3])[i % 3]
    ensures 3 * |cfg.components| <= i ==> Rendered(cfg)[i] == LogoLines(cfg.logo)[i]
  {
    var logo, text := LogoLines(cfg.logo), ComponentsText(cfg.components);
    OverlayRow(logo, text, i);
    if i < 3 * |cfg.components| {
      ComponentsTextRows(cfg.components, i / 3);
    }
  }

  /** With no logo and no components nothing is printed. */
  lemma DisabledWithoutComponentsIsEmpty(cfg: Config)
    requires cfg.logo == Disabled && cfg.components == []
    ensures Rendered(cfg) == []
  {
  }

  /** The fixture's configuration: a three-row logo and two components, the
      second without an icon. */
  const FixtureLogo: seq<string> := ["S O M E    ", "C U S T O M", "L O G O    "]
  const FixtureComponents: seq<Component> :=
    [ Component("Component with an icon", Some("* "), "Some component text"),
      Component("Component without an icon", None, "Some component text") ]

  lemma FixtureText()
    ensures ComponentsText(FixtureComponents)
         == [ "* Component with an icon:", "Some component text", "",
              "Component without an icon:", "Some component text", "" ]
  {
    var cs := FixtureComponents;
    assert cs[..1] == [cs[0]] && [cs[0]][..0] == [];
    assert ComponentsText(cs[..1]) == Block(cs[0]);
    FixtureHeaders();
    calc {
      ComponentsText(cs);
      Block(cs[0]) + Block(cs[1]);
      ["* Component with an icon:", "Some component text", ""] + ["Component without an icon:", "Some component text", ""];
    }
  }

  lemma FixtureHeaders()
    ensures Header(FixtureComponents[0]) == "* Component with an icon:"
    ensures Header(FixtureComponents[1]) == "Component without an icon:"
  {
  }

  /** The fixture renders to exactly the six expected rows; the third keeps
      the space written before the empty separator. */
  lemma FixtureRendered()
    ensures Rendered(Config(Custom(FixtureLogo), FixtureComponents))
         == [ "S O M E     * Component with an icon:",
              "C U S T O M Some component text",
              "L O G O     ",
              "Component without an icon:",
              "Some component text",
              "" ]
  {
    FixtureText();
    var logo, text := FixtureLogo, ComponentsText(FixtureComponents);
    OverlayThreeRows(logo, text);
    FixtureJoinedRows();
  }

  lemma OverlayThreeRows(logo: seq<string>, text: seq<string>)
    requires |logo| == 3 && |text| > 3
    ensures Overlay(logo, text)
         == [logo[0] + " " + text[0], logo[1] + " " + text[1], logo[2] + " " + text[2]] + text[3..]
  {
    assert Overlay(logo[3..], text[3..]) == text[3..];
    assert Overlay(logo[2..], text[2..]) == [logo[2] + " " + text[2]] + text[3..];
    assert Overlay(logo[1..], text[1..]) == [logo[1] + " " + text[1]] + Overlay(logo[2..], text[2..]);
  }

  lemma FixtureJoinedRows()
    ensures "S O M E    " + " " + "* Component with an icon:" == "S O M E     * Component with an icon:"
    ensures "C U S T O M" + " " + "Some component text" == "C U S T O M Some component text"
    ensures "L O G O    " + " " + "" == "L O G O     "
  {
  }

  /** Standard output, seen as the sequence of lines written to it. */
  class Terminal {
    var lines: seq<string>

    constructor ()
      ensures lines == []
    {
      lines := [];
    }

    /** `println!`: write one line. */
    method PrintLine(line: string)
      modifies this
      ensures lines == old(lines) + [line]
    {
      lines := lines + [line];
    }
  }

  /** `display`: render and print every row, in order. */
  method Display(cfg: Config, out: Terminal)
    requires !cfg.logo.Os?
    modifies out
    ensures out.lines == old(out.lines) + Rendered(cfg)
  {
    var text := Render(cfg);
    for i := 0 to |text|
      invariant out.lines == old(out.lines) + text[..i]
    {
      out.PrintLine(text[i]);
      assert text[..i + 1] == text[..i] + [text[i]];
    }
    assert text[..|text|] == text;
  }
}
