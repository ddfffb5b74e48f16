/** The node that the linked structures are made of. */
module Nodes {
  class Node<T> {
    var next: Node?<T>
    var data: T

    constructor (data: T, next: Node?<T>)
      ensures this.data == data && this.next == next
    {
      this.data, this.next := data, next;
    }
  }

  /** The node at a position, if there is one. */
  function Nth<T>(nodes: seq<Node<T>>, i: int): Node?<T> {
    if 0 <= i < |nodes| then nodes[i] else null
  }
}
