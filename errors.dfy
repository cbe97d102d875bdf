/** The errors the build raises, each with the message the source throws. */
module Errors {

  datatype Error =
    | NoYamlHeader             // front matter delimiters not found
    | InvalidYamlHeader        // the header parsed to null
    | LayoutPropertyMissing    // the header has no string `layout`
    | LayoutNotFound           // no compiled layout under the requested name
    | YamlSyntax(reason: string)  // the YAML parser threw
    | ReadFailed(path: string)    // readFileSync threw (missing file, or a directory)
    | ContentsUndefined           // `.contents` read on the placeholder content item
    | TemplateFailed(reason: string)   // Handlebars threw while compiling or running a template
    | LayoutNotTemplate(name: string)  // the layout name is an inherited method that yields no page text

  function Message(e: Error): string {
    match e
    case NoYamlHeader => "Could not find yaml header"
    case InvalidYamlHeader => "Invalid yaml header"
    case LayoutPropertyMissing => "Layout property missing from yaml header"
    case LayoutNotFound => "Layout not found"
    case YamlSyntax(reason) => reason
    case ReadFailed(path) => "ENOENT: no such file or directory, open '" + path + "'"
    case ContentsUndefined => "Cannot read properties of undefined (reading 'forEach')"
    case TemplateFailed(reason) => reason
    case LayoutNotTemplate(name) => "The \"data\" argument must be of type string or an instance of Buffer, TypedArray, or DataView"
  }
}
