/** The strategy graph a user draws, and the block catalogue it refers to. */
module StrategyDsl {
  type Id = string

  datatype Edge = Edge(source: Id, sourcePort: string, target: Id, targetPort: string)

  datatype Node = Node(id: Id, blockType: string, params: map<string, string>)

  datatype Strategy = Strategy(nodes: seq<Node>, edges: seq<Edge>)

  /** An input port or a parameter of a block. */
  datatype Slot = Slot(name: string, required: bool, hasDefault: bool)

  datatype Block = Block(category: string, inputs: seq<Slot>, params: seq<Slot>)

  type Catalogue = map<string, Block>

  function NodeIds(nodes: seq<Node>): (ids: set<Id>) {
    set n | n in nodes :: n.id
  }
}
