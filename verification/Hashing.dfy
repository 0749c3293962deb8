/** The digests of both audit logs: a stored hash is empty, the digest of an event chained to a
    previous hash, or some other text. As a free datatype, the digest is injective and acyclic. */
module Hashing {
  /** The canonical JSON text of an event body. */
  type Body = string

  datatype Hash = Empty | H(prev: Hash, body: Body) | Raw(text: string)

  function Depth(h: Hash): nat {
    match h
    case Empty => 0
    case Raw(_) => 0
    case H(prev, _) => Depth(prev) + 1
  }
}
