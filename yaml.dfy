/** The decoded YAML values the core handles. `Any` stands for a Go
    `interface{}` filled by the YAML decoder; `Node` for a `*yaml.Node`. */
module Yaml {
  import opened Strings

  /** A decoded scalar or composite. `Composite` carries the text `%v` prints
      for a list, a map or a float; the model does not look inside it. */
  datatype Any = Str(s: string) | Int(i: int) | Bool(b: bool) | Nil | Composite(rendered: string)

  /** fmt.Sprintf("%v", a). */
  function Format(a: Any): string
  {
    match a
    case Str(s) => s
    case Int(i) => IntToString(i)
    case Bool(b) => if b then "true" else "false"
    case Nil => "<nil>"
    case Composite(text) => text
  }

  /** Renders every value of an argument map with `%v`. */
  function FormatAll(m: map<string, Any>): (r: map<string, string>)
    ensures r.Keys == m.Keys
    ensures forall k :: k in m ==> r[k] == Format(m[k])
  {
    map k | k in m :: Format(m[k])
  }

  datatype Kind = DocumentNode | SequenceNode | MappingNode | ScalarNode | AliasNode

  /** A YAML node: its kind, its scalar text (empty for collections) and its
      children; a mapping lists key and value nodes alternately. */
  datatype Node = Node(kind: Kind, value: string, content: seq<Node>)
}
