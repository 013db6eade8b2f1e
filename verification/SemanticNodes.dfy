/** The semantic tree's nodes, shared by the redactor and the matcher. */
module SemanticNodes {
  import opened Options

  type Attributes = map<string, string>

  datatype Node = Node(
    role: string,
    caption: Option<string>,
    children: seq<Node>,
    attributes: Option<Attributes>,
    stableKey: Option<string>,
    ambiguous: bool,
    alias: Option<string>,
    backendNodeId: int,
    securityFlags: seq<string>
  )
}
