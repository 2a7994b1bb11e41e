/**
 * The shapes exchanged between the client and the relay endpoint: the four
 * notification types, the payload a client sends, and the JSON body the
 * endpoint reads, in which any field may be missing.
 */
module NotifyTypes {
  import opened Wrappers

  datatype NotifyType = Info | Success | Warning | Error

  /** The wire name of a type. */
  function TypeName(t: NotifyType): string {
    match t
    case Info => "info"
    case Success => "success"
    case Warning => "warning"
    case Error => "error"
  }

  /**
   * The endpoint's type check: a missing or empty type, or a name outside
   * the four, is not recognised.
   */
  function ParseType(s: Option<string>): (r: Option<NotifyType>)
    ensures r.Some? <==> s.Some? && s.value in ["info", "success", "warning", "error"]
  {
    if s == Some("info") then Some(Info)
    else if s == Some("success") then Some(Success)
    else if s == Some("warning") then Some(Warning)
    else if s == Some("error") then Some(Error)
    else None
  }

  /** Parsing is the exact inverse of the wire name, in both directions. */
  lemma ParseTypeInverse(s: Option<string>, t: NotifyType)
    ensures ParseType(s) == Some(t) <==> s == Some(TypeName(t))
  {
  }

  /** What a client hands to the sending composable (strings only; chat ids as strings). */
  datatype NotifyPayload = NotifyPayload(
    title: string,
    description: Option<string>,
    tags: Option<seq<string>>,
    url: Option<string>,
    stack: Option<string>,
    chatId: Option<string>,
    threadId: Option<int>)

  /** The JSON body as the endpoint reads it. */
  datatype RequestBody = RequestBody(
    kind: Option<string>,
    title: Option<string>,
    description: Option<string>,
    tags: Option<seq<string>>,
    url: Option<string>,
    stack: Option<string>,
    chatId: Option<string>,
    threadId: Option<int>)

  /** The composable's stack normalisation for a string stack: an empty stack is dropped. */
  function NormalizeStack(stack: Option<string>): (r: Option<string>)
    ensures r.Some? <==> stack.Some? && stack.value != ""
    ensures r.Some? ==> r == stack
  {
    match stack
    case Some(s) => if s == "" then None else Some(s)
    case None => None
  }

  /** The body the composable posts for a payload sent with a given type. */
  function Encode(t: NotifyType, p: NotifyPayload): (b: RequestBody)
    ensures ParseType(b.kind) == Some(t)
    ensures b.title == Some(p.title)
    ensures b.stack == NormalizeStack(p.stack)
    ensures b.description == p.description && b.tags == p.tags && b.url == p.url
    ensures b.chatId == p.chatId && b.threadId == p.threadId
  {
    RequestBody(Some(TypeName(t)), Some(p.title), p.description, p.tags, p.url,
                NormalizeStack(p.stack), p.chatId, p.threadId)
  }

  /** The payload a request body carries, as the endpoint reads it back. */
  function PayloadOf(b: RequestBody): NotifyPayload
    requires b.title.Some?
  {
    NotifyPayload(b.title.value, b.description, b.tags, b.url, b.stack, b.chatId, b.threadId)
  }

  /**
   * The endpoint reads back the type and the payload the composable was
   * given; only an empty stack is lost, turned into an absent one.
   */
  lemma EncodeRoundTrip(t: NotifyType, p: NotifyPayload)
    ensures ParseType(Encode(t, p).kind) == Some(t)
    ensures p.stack != Some("") ==> PayloadOf(Encode(t, p)) == p
    ensures p.stack == Some("") ==> PayloadOf(Encode(t, p)) == p.(stack := None)
  {
  }
}
