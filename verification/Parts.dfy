/** Messages as they come out of a pipe, part by part. */
module Parts {
  import opened Bytes

  /** One part of a message. */
  datatype Part = Part(data: seq<Byte>, more: bool)

  /** Whole messages only: the last part is not followed by another. */
  predicate Whole(s: seq<Part>) {
    s == [] || !s[|s| - 1].more
  }
}
