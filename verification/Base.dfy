/** Vocabulary shared by every module. */
module Base {

  datatype Option<+T> = None | Some(value: T)

  /** One octet of an output buffer. */
  type Byte = x: int | 0 <= x < 0x100

  /** What a reader of bytes returns: a value and the bytes it has not consumed. */
  datatype Parsed<+T> = Fail | Ok(value: T, rest: seq<Byte>)

  lemma Assoc(a: seq<Byte>, b: seq<Byte>, c: seq<Byte>)
    ensures a + b + c == a + (b + c)
  {
  }
}

/** Identifiers, up to equality. */
module Ids {

  /** The text of an envelope id: one that uuid.Parse accepts, or any other. */
  datatype MsgId = Uuid(n: nat) | NotUuid(n: nat)

  /** The empty text, where an id or a parameter is a number. */
  const EMPTY: nat := 0

  /**
   The byte order of id texts: `n` is a text's place among those of its kind.  Every stored id is a Uuid, so how the two
   kinds interleave never shows.
   */
  predicate Before(a: MsgId, b: MsgId) {
    a.n < b.n || (a.n == b.n && a.Uuid? && b.NotUuid?)
  }
}
