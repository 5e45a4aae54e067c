/** The conversation history the chat window keeps: a list of
    `{'role': ..., 'parts': [text]}` entries, here one `Turn` each. */
module Transcript {

  datatype Role = User | Model

  /** One history entry; `send_message` and `handle_response` always store exactly one part per turn. */
  datatype Turn = Turn(role: Role, text: string)

  /** The role expected at position `i` of a well-formed conversation. */
  function ExpectedRole(i: nat): (r: Role)
  {
    if i % 2 == 0 then User else Model
  }

  /** Turns alternate user, model, user, model, ..., starting with the user. */
  ghost predicate Alternating(h: seq<Turn>)
  {
    forall i :: 0 <= i < |h| ==> h[i].role == ExpectedRole(i)
  }

  /** A finished exchange: alternating and ending with a model turn (or empty). */
  ghost predicate Settled(h: seq<Turn>)
  {
    Alternating(h) && |h| % 2 == 0
  }

  /** A settled history followed by one user turn is still alternating. */
  lemma AppendUser(h: seq<Turn>, text: string)
    requires Settled(h)
    ensures Alternating(h + [Turn(User, text)])
    ensures |h + [Turn(User, text)]| % 2 == 1
  {
  }

  /** An alternating history of odd length ends with the user; a model turn settles it. */
  lemma AppendModel(h: seq<Turn>, text: string)
    requires Alternating(h) && |h| % 2 == 1
    ensures h[|h| - 1].role == User
    ensures Settled(h + [Turn(Model, text)])
  {
  }

  /** Dropping the pending user turn settles the history again. */
  lemma DropLast(h: seq<Turn>)
    requires Alternating(h) && |h| % 2 == 1
    ensures Settled(h[..|h| - 1])
  {
  }
}
