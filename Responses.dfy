/** What the relay's `/analyze` and `/chat` endpoints hand back, and how the page reads the
    reply text out of it. Network calls are not modelled: each call's result is an input. */
module Responses {

  datatype Option<T> = None | Some(value: T)

  /** One element of the provider's `choices` array; `content` is
      `choices[i].message.content`, None when `message` or `content` is absent or null. */
  datatype Choice = Choice(content: Option<string>)

  /** The outcome of `await fetch(...)` followed by `await response.json()`: either a parsed
      body, whose `choices` field may be missing (the relay's `{ error }` body on a non-2xx
      status has none; `fetch` does not throw for it), or an exception with its message. */
  datatype Response = Body(choices: Option<seq<Choice>>) | Thrown(message: string)

  /** The result of one chat turn: the assistant's reply, or the message of what was thrown. */
  datatype ChatOutcome = Replied(text: string) | Failed(error: string)

  const NoResponse: string := "No response."
  const NoAnalysis: string := "No analysis available."
  const ErrorPrefix: string := "Error: "
  /** The message of the TypeError that `data.choices[0]` throws when `choices` is missing
      (the V8 wording; other engines word it differently). */
  const MissingChoicesError: string := "Cannot read properties of undefined (reading '0')"

  /** `x || fallback` for a value that is a string or undefined: an absent or empty string
      is falsy and yields the fallback. */
  function OrElse(x: Option<string>, fallback: string): (r: string)
    ensures x.Some? && x.value != "" ==> r == x.value
    ensures (x.None? || x.value == "") ==> r == fallback
  {
    if x.Some? && x.value != "" then x.value else fallback
  }

  /** `choices[0]?.message?.content` on an array that exists. */
  function FirstContent(choices: seq<Choice>): (r: Option<string>)
    ensures r.Some? ==> |choices| > 0 && choices[0].content == r
    ensures |choices| > 0 && choices[0].content.Some? ==> r.Some?
  {
    if |choices| == 0 then None else choices[0].content
  }

  /** `data.choices?.[0]?.message?.content || "No analysis available."` inside the `try`
      of the screen analysis: None when the call threw, otherwise a non-empty analysis,
      which is the first choice's content whenever that is a non-empty string. */
  function AnalysisText(resp: Response): (a: Option<string>)
    ensures a.None? <==> resp.Thrown?
    ensures a.Some? ==> a.value != ""
    ensures resp.Body? && resp.choices.Some? && FirstContent(resp.choices.value).Some? &&
            FirstContent(resp.choices.value).value != ""
            ==> a == FirstContent(resp.choices.value)
    ensures a.Some? && a.value != NoAnalysis ==>
              resp.choices.Some? && FirstContent(resp.choices.value) == Some(a.value)
    ensures resp.Body? && (resp.choices.None? || FirstContent(resp.choices.value) in {None, Some("")})
            ==> a == Some(NoAnalysis)
  {
    match resp
    case Thrown(_) => None
    case Body(choices) =>
      Some(OrElse(if choices.Some? then FirstContent(choices.value) else None, NoAnalysis))
  }

  /** `data.choices[0]?.message?.content || "No response."` inside the `try` of a chat turn.
      Without optional chaining on `choices`, a body that lacks it throws a TypeError and the
      turn fails exactly as a failed `fetch` does; a present (even empty) `choices` array
      always yields a non-empty reply. */
  function ChatReply(resp: Response): (o: ChatOutcome)
    ensures o.Failed? <==> (resp.Thrown? || resp.choices.None?)
    ensures resp.Thrown? ==> o == Failed(resp.message)
    ensures resp.Body? && resp.choices.None? ==> o == Failed(MissingChoicesError)
    ensures o.Replied? ==> o.text != ""
    ensures o.Replied? && o.text != NoResponse ==>
              resp.choices.Some? && FirstContent(resp.choices.value) == Some(o.text)
    ensures resp.Body? && resp.choices.Some? ==>
              var c := FirstContent(resp.choices.value);
              o == Replied(if c.Some? && c.value != "" then c.value else NoResponse)
  {
    match resp
    case Thrown(message) => Failed(message)
    case Body(None) => Failed(MissingChoicesError)
    case Body(Some(choices)) => Replied(OrElse(FirstContent(choices), NoResponse))
  }

  /** The text the chat log shows for the assistant's side of a turn: the reply, or
      `"Error: " + error.message`. */
  function Rendered(o: ChatOutcome): (t: string)
    ensures o.Replied? ==> t == o.text
    ensures o.Failed? ==> |t| >= |ErrorPrefix| && t[..|ErrorPrefix|] == ErrorPrefix
                          && t[|ErrorPrefix|..] == o.error
  {
    match o
    case Replied(text) => text
    case Failed(error) => ErrorPrefix + error
  }
}
