/**
 * The role bitmask of an identity (`int8` in the source, eight bits here)
 * and the labels the JSON report gives the masks.
 */
module Roles {

  type Role = bv8

  const Author: Role := 1
  const Committer: Role := 2
  /** Both roles: `Author | Committer`. */
  const Both: Role := 3

  const AuthorLabel := "Author"
  const CommitterLabel := "Committer"
  const BothLabel := "Author+Committer"

  /**
   * `role_reference[role]`: the label of a mask, or the empty string (the
   * map's zero value) for a mask that has no label.
   */
  function Label(role: Role): (l: string)
    ensures role == Author <==> l == AuthorLabel
    ensures role == Committer <==> l == CommitterLabel
    ensures role == Both <==> l == BothLabel
    ensures role != Author && role != Committer && role != Both <==> l == ""
  {
    if role == Author then AuthorLabel
    else if role == Committer then CommitterLabel
    else if role == Both then BothLabel
    else ""
  }

  lemma BothIsUnion()
    ensures Both == Author | Committer
  {
  }
}
