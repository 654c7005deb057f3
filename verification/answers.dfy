/** The answer values the form collects and the handler receives. */
module Answers {
  import opened Text

  /**
    One collected answer: the trimmed text of a text, radio or select field,
    or the ordered checked values of a checkbox group.
  */
  datatype Answer = Str(text: string) | List(items: seq<string>)

  /** The client's `formDataCollected`: field name to answer. */
  type AnswerMap = map<string, Answer>

  /** Separator used when an array answer is turned into one string. */
  const ListSeparator: string := ", "

  /** `Array.isArray(v) ? v.join(', ') : v`. */
  function Flatten(a: Answer): string {
    match a
    case Str(s) => s
    case List(items) => Join(items, ListSeparator)
  }
}
