/** The libraries the core calls into and the model leaves uninterpreted:
    YAML.parse, Handlebars and the Markdown renderer. */
module Foreign {
  import opened Wrappers
  import opened JsValues

  /** A template helper, as returned by `require(path)(Handlebars, ...)`: the
      model only sees the module it was loaded from. */
  datatype Helper = Helper(modulePath: string)

  /** What Handlebars' registerPartial stores: a template source, or a function. */
  datatype Partial = Source(text: string) | HelperFn(fn: Helper)

  /** The registries of one Handlebars.create() environment. */
  datatype Bars = Bars(partials: map<string, Partial>, helpers: map<string, Helper>)

  const EmptyBars: Bars := Bars(map[], map[])

  /** YAML.parse: a value, or the message of the exception it throws. */
  type YamlParser = string -> Result<Value, string>

  /** The collaborators of the compiler. */
  datatype Libraries = Libraries(
    yaml: YamlParser,
    // bars.compile(template)(context), resolved against the environment's
    // partials and helpers: the text, or the message of the exception
    // Handlebars throws (a syntax error, a missing partial, a throwing helper)
    expand: (Bars, string, Value) -> Result<string, string>,
    // md.render of the compiler's Remarkable instance
    markdown: string -> string)
}
