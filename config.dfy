/** The configuration record that the renderer consumes (src/config.rs). */
module ConfigTypes {
  import opened Wrappers

  /** Which logo to draw beside the components. */
  datatype Logo =
    | Os                          // premade OS logo (not implemented by the renderer)
    | Custom(lines: seq<string>)  // logo supplied by the user, one string per row
    | Disabled                    // no logo

  /** One named item of the fetch output. */
  datatype Component = Component(name: string, icon: Option<string>, content: string)

  /** The whole configuration: a logo and the components in display order. */
  datatype Config = Config(logo: Logo, components: seq<Component>)
}
