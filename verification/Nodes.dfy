/** Node kinds, node states and the events that tell an indenter about them. */
module Nodes {

  datatype NodeState = StateOpen | StateOpened | StateEnded

  datatype NodeKind =
    | NoNode
    | AttrNode
    | CDataNode
    | CDataContentNode
    | CommentNode
    | CommentContentNode
    | DTDNode
    | DTDAttListNode
    | DTDAttrNode
    | DTDElemNode
    | DTDEntityNode
    | DocNode
    | ElemNode
    | NotationNode
    | PINode
    | RawNode
    | TextNode

  datatype Event = Event(state: NodeState, kind: NodeKind, children: nat)

  /** The same event, whatever the number of children. */
  predicate Like(a: Event, b: Event) {
    a.state == b.state && a.kind == b.kind
  }

  /** The kinds whose nesting an indenter counts. */
  predicate Indenting(k: NodeKind) {
    k == ElemNode || k == DTDNode || k == DTDAttListNode
  }
}
