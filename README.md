# oxidfetch rendering core, modelled in Dafny

oxidfetch prints a fetch-style summary: a logo on the left, and beside it a
list of named components (icon, name, content). This project models three
parts of it:

- **render** (`render.dfy`, module `Render`): choosing the logo rows, building
  the components text (three rows per component: `icon + name + ":"`, the
  content, an empty separator) and merging that text into the logo rows,
  joining rows with one space and appending rows past the logo's end without
  indentation. `Render.Render` is the imperative procedure (two loops over
  local sequences, the merge overwriting or appending rows); it is proved
  equal to `Rendered`, which is defined by an independent recursive
  zip-longest, `Overlay`. `Display` writes the rendered rows, in order, to a
  `Terminal` object that stands for standard output.
- **the Lua-facing configuration** (`script.dfy`, module `Script`): a
  component's conversion to and from a Lua table, the tagged string list the
  `logo` field is read and written as, and the configuration object whose
  `logo` and `components` fields the configuration script assigns (class
  `LuaConfig`). A Lua table is abstracted as a map from key to string.
- **uptime formatting** (`module.dfy`, module `Module`): `convert_seconds`
  over whole seconds, printing `"<d>d <h>h <m>m "` with zero parts omitted. It
  is paired with a strict reader, `ParseUptime`, proved to read back the
  exact day, hour and minute counts and to accept nothing but texts of that
  form.

`config.dfy` transcribes the configuration datatypes (`Logo`, `Component`,
`Config`); `wrappers.dfy` holds `Option` and `Result`.

The code has no colour markup, no `{placeholder}` substitution, and no
configurable spacing, blank-row or one-line layout. `render` always joins with
exactly one space (src/render.rs:54), always emits the blank separator row
(src/render.rs:44) and does not indent rows past the logo. The model follows
the code. The configuration record (src/config.rs:11-14) has only `logo` and
`components`, so the `newline`, `spacing` and `oneline` field accessors in
src/script.rs:76-95 have no field to act on and are not modelled.

## Model

| member | source | states |
|---|---|---|
| `Render.LogoLines` | src/render.rs:17-28 | the definition is the model of the logo selection: a custom logo gives its rows, a disabled one none; requires a logo other than `Os`, which panics |
| `Render.ComponentsText` | src/render.rs:34-46 | the components text has exactly three rows per component |
| `Render.ComponentsTextRows` | src/render.rs:37-45 | rows 3k, 3k+1, 3k+2 are component k's `icon-or-"" + name + ":"`, its content, and `""`, so configuration order is kept |
| `Render.Overlay` | src/render.rs:48-58 | the merged output has max(logo rows, text rows) rows |
| `Render.OverlayRow` | src/render.rs:49-56 | a row present in both is `logo + " " + text`; past the logo it is the text row unindented; past the text it is the logo row unchanged |
| `Render.Render` | src/render.rs:15-59 | the loop-based render (logo selection, components text built by appending, merge by overwrite-or-append) returns exactly `Rendered(cfg)`; requires a logo other than `Os`, which panics |
| `Render.RenderedRows` | src/render.rs:15-59 | output length is max(logo rows, 3 × components); each row in terms of the logo row and component k's block row; logo rows below the components are unchanged |
| `Render.DisabledWithoutComponentsIsEmpty` | src/render.rs:17-58 | a disabled logo with no components renders nothing |
| `Render.FixtureText` | src/render.rs:84-95 | the fixture's two components give the six expected text rows, an absent icon printing as nothing |
| `Render.FixtureHeaders` | src/render.rs:38-42 | the fixture's header rows are `"* Component with an icon:"` and `"Component without an icon:"` |
| `Render.FixtureRendered` | src/render.rs:77-107 | the fixture configuration renders to exactly the six expected rows |
| `Render.Display` | src/render.rs:64-70 | the lines written are the rendered rows, in order, after whatever was written before |
| `Script.ToLua` | src/script.rs:9-18 | the table has exactly the keys name, icon, content; an absent icon is written as `""` |
| `Script.FromLua` | src/script.rs:20-43 | succeeds exactly on tables holding all three keys; a non-table is a conversion error naming its type; an empty icon string reads as no icon, a non-empty one as that icon |
| `Script.FromLuaToLua` | src/script.rs:9-43 | decoding an encoded component returns it, with an empty icon normalised to none; so the round trip is exact when the icon is not `Some("")` |
| `Script.ToLuaFromLua` | src/script.rs:9-43 | re-encoding a decoded table reproduces its three component fields |
| `Script.EncodeLogo` | src/script.rs:47-57 | the getter's list always holds the tag, so the setter can read index 0 |
| `Script.DecodeLogo` | src/script.rs:58-64 | the definition is the model of the setter's tag match: a value exactly for the tags "Os", "Custom" and "Disabled", keeping the tag, and a custom logo takes the rows after the tag; requires a non-empty list |
| `Script.LogoRoundTrip` | src/script.rs:47-67 | setting the logo to the getter's output restores every variant, including `Custom([])` from `["Custom"]` |
| `Script.EncodeDecodeLogo` | src/script.rs:47-67 | a list the setter accepts is returned unchanged by the getter exactly when it is a `Custom` list or a lone tag (rows after `Os`/`Disabled` are dropped) |
| `Script.EncodeLogoInjective` | src/script.rs:47-57 | different logos give different lists |
| `Script.LuaConfig.GetLogo` | src/script.rs:47-57 | the object's getter returns a non-empty list the setter decodes to the current logo |
| `Script.LuaConfig.SetLogo` | src/script.rs:58-67 | a known tag sets `Os`, `Custom(val[1..])` or `Disabled`; an unknown tag leaves the logo; components are untouched; requires a non-empty list |
| `Script.LuaConfig.SetComponents` | src/script.rs:70-74 | the components are replaced and the logo is untouched |
| `Script.LuaConfig.ReassignLogo` | src/script.rs:47-67 | writing the logo field back with what it reads leaves the configuration unchanged |
| `Module.UptimeFields` | src/module.rs:57-63 | hours < 24, minutes < 60, and 86400·d + 3600·h + 60·m ≤ s < that + 60 |
| `Module.DecimalString` | src/module.rs:71 | a whole number prints as a non-empty run of digits with no leading zero |
| `Module.DecimalRoundTrip` | src/module.rs:71 | the printed digits denote the number printed |
| `Module.ConvertSeconds` | src/module.rs:57-89 | the definition is the model of `convert_seconds`; its contract: the text is empty exactly when the uptime is under 60 seconds, and otherwise ends in one space |
| `Module.UnitPresentIffNonZero` | src/module.rs:67-87 | the letter d, h or m appears exactly when that count is non-zero |
| `Module.ParseUptimeInverse` | src/module.rs:65-88 | the reader accepts only texts of the form `convert_seconds` writes (non-zero parts without leading zeros, in order, each with one trailing space) and returns the counts they print |
| `Module.ConvertSecondsReadsBack` | src/module.rs:57-89 | reading the uptime text back gives exactly (days, hours, minutes): each part present is non-zero, written once, in the order d, h, m, with one trailing space |

## Left out

- `Render.Render`, `Render.Display`, `Render.LogoLines`: the `Os` logo is a precondition, because the source stops with `unimplemented!` (src/render.rs:21-23) rather than returning an error.
- `Script.LuaConfig.SetLogo`: an empty list is a precondition, because the source indexes `val[0]` and panics (src/script.rs:59).
- `Script.FromLua`: a Lua table is a map from key to string. Lua's coercion of numbers to strings and mlua's exact error for an unreadable field are not modelled; a missing key is reported as `FieldError(key)`, checked in the source's order (name, icon, content).
- `Script.ToLua`: failures of `lua.create_table` and `table.set` inside mlua are not modelled; the conversion always succeeds.
- The `components` getter (src/script.rs:69) returns a clone that mlua converts element by element with `ToLua`; that list conversion belongs to mlua and is not modelled.
- `Script.LuaConfig.SetComponents`: takes components already decoded. In the source (src/script.rs:70) mlua builds the `Vec<Component>` by running `from_lua` on every element and rejects the whole assignment when one element fails; that list conversion belongs to mlua and is not modelled (`FromLua` models the per-element step).
- The `newline`, `spacing` and `oneline` accessors (src/script.rs:76-95) act on fields the configuration record does not have.
- `extract_config` (src/script.rs:99-130): reads a file under the home directory and runs it in a Lua interpreter; file I/O and a foreign interpreter.
- `Config::new()` (src/script.rs:121) is not part of this model; `LuaConfig` is built from a given configuration value instead.
- msgpack conversion (src/config.rs:48-97): a wrapper over `rmp_serde`, whose encoding is not part of this model.
- `convert_kilobytes` (src/module.rs:39-55): floating-point logarithms, powers and rounding through a string.
- The host, os, uptime and memory fetchers (src/module.rs:1-35, src/module/host.rs, src/module/uptime.rs): queries of the running system and environment.
- `main` (src/main.rs:11-21): entry glue around the cache and the script.
- `Module.ConvertSecondsReadsBack`: seconds are a natural number. The source converts the uptime to `f64`, so for uptimes above 2^53 seconds its arithmetic would round; below that `floor(x / k)` and `%` on whole floats agree with `/` and `%` on naturals.
- `Render.Display`: standard output is the `lines` field of a `Terminal` object; the newline `println!` adds after each line is implicit in the line structure.
