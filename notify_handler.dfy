/**
 * The relay endpoint: credential check, per-address rate limit, body
 * validation, assembly of the HTML message, destination check and one call
 * to Telegram's sendMessage, in that order.
 */
module NotifyHandler {
  import opened Wrappers
  import opened JsString
  import opened NotifyTypes
  import opened Format
  import opened RateLimit

  /**
   * The two server secrets and the runtime options the endpoint reads.
   * `dedupeWindowSec` is configurable but the endpoint never reads it.
   */
  datatype ServerConfig = ServerConfig(
    botToken: string,
    chatId: string,
    rateLimitWindowSec: int,
    rateLimitPerIp: int,
    dedupeWindowSec: int,
    threadId: Option<int>)

  datatype Failure =
    | Misconfigured
    | RateLimited(retryAfter: int)
    | InvalidType
    | MissingTitle
    | MissingChatId
    | TelegramApiError(detail: string)

  /** The HTTP status each failure is reported with. */
  function StatusCode(f: Failure): (code: int)
    ensures code == 500 <==> f.Misconfigured?
    ensures code == 429 <==> f.RateLimited?
    ensures code == 400 <==> f.InvalidType? || f.MissingTitle? || f.MissingChatId?
    ensures code == 502 <==> f.TelegramApiError?
  {
    match f
    case Misconfigured => 500
    case RateLimited(_) => 429
    case InvalidType => 400
    case MissingTitle => 400
    case MissingChatId => 400
    case TelegramApiError(_) => 502
  }

  /** The `X-RateLimit-Limit`, `-Remaining` and `-Reset` headers (the last in whole seconds). */
  datatype RateHeaders = RateHeaders(limit: int, remaining: int, reset: int)

  /** The body of the outbound sendMessage call. */
  datatype SendMessage = SendMessage(
    chatId: string,
    text: string,
    parseMode: string,
    disableWebPagePreview: bool,
    messageThreadId: Option<int>)

  /** What the outbound call yields: Telegram's answer, or the error's `data.description` and `message` ("" when absent). */
  datatype ApiReply = ApiOk(telegram: string) | ApiFailed(description: string, message: string)

  datatype Result = Ok(telegram: string) | Failed(failure: Failure)

  /** The headers set, the outcome, and the sendMessage call made, if any. */
  datatype Response = Response(headers: Option<RateHeaders>, result: Result, sent: Option<SendMessage>)

  /** A JavaScript truthiness test on an optional string. */
  predicate Truthy(s: Option<string>) {
    s.Some? && s.value != ""
  }

  /** The rate-limit key: the client address, or the shared `"unknown"` bucket when there is none. */
  function SourceKey(ip: Option<string>): (k: string)
    ensures Truthy(ip) ==> k == ip.value
    ensures !Truthy(ip) ==> k == "unknown"
  {
    if Truthy(ip) then ip.value else "unknown"
  }

  /**
   * `Retry-After`: the whole seconds, rounded up, until the window end, and
   * never negative: the least non-negative `r` with `r * 1000 >= resetAt - now`.
   */
  function RetryAfter(resetAt: int, now: int): (r: int)
    ensures r >= 0
    ensures r * 1000 >= resetAt - now
    ensures r > 0 ==> (r - 1) * 1000 < resetAt - now
  {
    var ceil := -((now - resetAt) / 1000);
    if ceil > 0 then ceil else 0
  }

  /** The tags line before escaping: each tag normalised, space-separated; empty without tags. */
  function TagsLine(tags: Option<seq<string>>): (r: string)
    ensures r != "" <==> tags.Some? && |tags.value| > 0
  {
    if tags.Some? && |tags.value| > 0 then
      var sanitized := SanitizedTags(tags.value);
      assert |sanitized[0]| >= 1;
      JoinNonEmpty(sanitized, " ");
      Join(sanitized, " ")
    else ""
  }

  /** `tags.map(sanitizeHashtag)` */
  function SanitizedTags(tags: seq<string>): (r: seq<string>)
    ensures |r| == |tags|
    ensures forall i :: 0 <= i < |tags| ==> r[i] == SanitizeHashtag(tags[i])
  {
    seq(|tags|, i requires 0 <= i < |tags| => SanitizeHashtag(tags[i]))
  }

  /**
   * The tags line splits at spaces back into the sanitized tags, one per
   * tag, in order: a sanitized tag never holds a space.
   */
  lemma TagsLineSplits(tags: seq<string>)
    requires |tags| > 0
    ensures Split(TagsLine(Some(tags)), ' ') == SanitizedTags(tags)
  {
    var sanitized := SanitizedTags(tags);
    forall i | 0 <= i < |sanitized|
      ensures ' ' !in sanitized[i]
    {
      assert NoWhitespace(sanitized[i]);
      assert IsWhitespace(' ');
    }
    assert " " == [' '];
    SplitJoin(sanitized, ' ');
  }

  lemma {:induction false} JoinNonEmpty(parts: seq<string>, sep: string)
    requires |parts| >= 1 && parts[0] != ""
    ensures Join(parts, sep) != ""
  {
    if |parts| > 1 {
      assert Join(parts, sep)[0] == parts[0][0];
    }
  }

  /** `<b>emoji title</b>`, the title escaped. */
  function TitleLine(t: NotifyType, title: string): string {
    "<b>" + Emoji(t) + " " + EscapeHtml(title) + "</b>"
  }

  /** `<b>Url: url</b>`, the url escaped. */
  function UrlLine(url: string): string {
    "<b>Url: " + EscapeHtml(url) + "</b>"
  }

  /** A bold `stack` caption, a line break and the stack lines, escaped, in a code block. */
  function StackBlock(stackPart: string): string {
    "<b>stack</b>\n<pre><code>" + EscapeHtml(stackPart) + "</code></pre>"
  }

  /**
   * The title line is `<b>`, the emoji and a space, then the title, then
   * `</b>`; the title sits escaped, with no raw `<` or `>`, and unescapes
   * back to the title.
   */
  lemma TitleLineReadsBack(t: NotifyType, title: string)
    ensures var r, k := TitleLine(t, title), 3 + |Emoji(t)| + 1;
            && |r| >= k + 4
            && r[..k] == "<b>" + Emoji(t) + " " && r[|r| - 4..] == "</b>"
            && '<' !in r[k..|r| - 4] && '>' !in r[k..|r| - 4] && UnescapeHtml(r[k..|r| - 4]) == title
  {
    Wrapped("<b>" + Emoji(t) + " ", EscapeHtml(title), "</b>", title);
  }

  /** The url line is `<b>Url: `, the url escaped, and `</b>`; the url reads back. */
  lemma UrlLineReadsBack(url: string)
    ensures var r := UrlLine(url);
            && |r| >= 8 + 4
            && r[..8] == "<b>Url: " && r[|r| - 4..] == "</b>"
            && '<' !in r[8..|r| - 4] && '>' !in r[8..|r| - 4] && UnescapeHtml(r[8..|r| - 4]) == url
  {
    Wrapped("<b>Url: ", EscapeHtml(url), "</b>", url);
  }

  /** The stack block is the caption and `<pre><code>`, the lines escaped, and `</code></pre>`; the lines read back. */
  lemma StackBlockReadsBack(stackPart: string)
    ensures var r := StackBlock(stackPart);
            && |r| >= 24 + 13
            && r[..24] == "<b>stack</b>\n<pre><code>" && r[|r| - 13..] == "</code></pre>"
            && '<' !in r[24..|r| - 13] && '>' !in r[24..|r| - 13] && UnescapeHtml(r[24..|r| - 13]) == stackPart
  {
    Wrapped("<b>stack</b>\n<pre><code>", EscapeHtml(stackPart), "</code></pre>", stackPart);
  }

  /** An escaped text between an opening and a closing piece can be cut out and read back. */
  lemma Wrapped(open: string, inner: string, close: string, text: string)
    requires inner == EscapeHtml(text)
    ensures var r := open + inner + close;
            && r[..|open|] == open && r[|r| - |close|..] == close
            && r[|open|..|r| - |close|] == inner
            && '<' !in inner && '>' !in inner && UnescapeHtml(inner) == text
  {
    var r := open + inner + close;
    MiddleSlice(open, inner, close);
    assert r[..|open|] == open;
    assert r[|r| - |close|..] == close;
    EscapeHtmlRoundTrip(text);
  }

  /** `firstLines(String(stack), 3)` for a truthy stack, else nothing: empty exactly when no stack line is non-empty. */
  function StackPart(stack: Option<string>): (r: string)
    ensures !Truthy(stack) ==> r == ""
    ensures Truthy(stack) ==> r == FirstLines(stack.value, 3)
    ensures r == "" <==> !Truthy(stack) || NonEmptyLines(SplitLines(stack.value)) == []
  {
    if Truthy(stack) then FirstLines(stack.value, 3) else ""
  }

  /** The parts of the message in their fixed order: tags, title, description, url, stack. */
  function MessageParts(t: NotifyType, title: string, body: RequestBody): (parts: seq<string>)
    ensures |parts| == 1 + (if TagsLine(body.tags) != "" then 1 else 0) + (if Truthy(body.description) then 1 else 0)
                         + (if Truthy(body.url) then 1 else 0) + (if StackPart(body.stack) != "" then 1 else 0)
    ensures TagsLine(body.tags) != "" ==> parts[0] == EscapeHtml(TagsLine(body.tags))
    ensures parts[if TagsLine(body.tags) != "" then 1 else 0] == TitleLine(t, title)
    ensures StackPart(body.stack) != "" ==> parts[|parts| - 1] == StackBlock(StackPart(body.stack))
  {
    var front := TagsSeg(body.tags) + [TitleLine(t, title)];
    var k := |TagsSeg(body.tags)|;
    IndexInFront(front + OptionalSeg(body.description, EscapeHtml) + OptionalSeg(body.url, UrlLine), StackSeg(body.stack), k);
    IndexInFront(front + OptionalSeg(body.description, EscapeHtml), OptionalSeg(body.url, UrlLine), k);
    IndexInFront(front, OptionalSeg(body.description, EscapeHtml), k);
    IndexInFront(TagsSeg(body.tags), [TitleLine(t, title)], 0);
    front + OptionalSeg(body.description, EscapeHtml) + OptionalSeg(body.url, UrlLine) + StackSeg(body.stack)
  }

  /** The escaped hashtag line, when there is one. */
  function TagsSeg(tags: Option<seq<string>>): (r: seq<string>)
    ensures |r| == if TagsLine(tags) != "" then 1 else 0
    ensures TagsLine(tags) != "" ==> r == [EscapeHtml(TagsLine(tags))]
  {
    if TagsLine(tags) != "" then [EscapeHtml(TagsLine(tags))] else []
  }

  /** A rendered optional field, present only when the field is truthy. */
  function OptionalSeg(field: Option<string>, render: string -> string): (r: seq<string>)
    ensures |r| == if Truthy(field) then 1 else 0
    ensures Truthy(field) ==> r == [render(field.value)]
  {
    if Truthy(field) then [render(field.value)] else []
  }

  /** The stack block, present only when some stack line survives. */
  function StackSeg(stack: Option<string>): (r: seq<string>)
    ensures |r| == if StackPart(stack) != "" then 1 else 0
    ensures StackPart(stack) != "" ==> r == [StackBlock(StackPart(stack))]
  {
    if StackPart(stack) != "" then [StackBlock(StackPart(stack))] else []
  }

  /**
   * The middle of the message: right after the title comes the escaped
   * description when it is truthy, and after that the url line when the url
   * is truthy.
   */
  lemma MessagePartsMiddle(t: NotifyType, title: string, body: RequestBody)
    ensures var parts, i := MessageParts(t, title, body), if TagsLine(body.tags) != "" then 2 else 1;
            Truthy(body.description) ==> parts[i] == EscapeHtml(body.description.value)
    ensures var parts := MessageParts(t, title, body);
            var i := (if TagsLine(body.tags) != "" then 2 else 1) + (if Truthy(body.description) then 1 else 0);
            Truthy(body.url) ==> parts[i] == UrlLine(body.url.value)
  {
    var front := TagsSeg(body.tags) + [TitleLine(t, title)];
    var d, u := OptionalSeg(body.description, EscapeHtml), OptionalSeg(body.url, UrlLine);
    var st := StackSeg(body.stack);
    var k := |front|;
    IndexInFront(front + d + u, st, k);
    IndexInFront(front + d + u, st, k + |d|);
    IndexInFront(front + d, u, k);
    IndexInFront(front + d, u, k + |d|);
    IndexInFront(front, d, k);
  }

  /** Indexing a concatenation: the front part first, then the back part. */
  lemma IndexInFront<T>(a: seq<T>, b: seq<T>, i: nat)
    ensures i < |a| ==> (a + b)[i] == a[i]
    ensures |a| <= i < |a| + |b| ==> (a + b)[i] == b[i - |a|]
  {
  }

  /** The message text: the parts separated by blank lines, clipped at Telegram's limit. */
  function MessageText(t: NotifyType, title: string, body: RequestBody): (text: string)
    ensures |text| <= MaxLen + 1
    ensures |Join(MessageParts(t, title, body), "\n\n")| <= MaxLen ==> text == Join(MessageParts(t, title, body), "\n\n")
    ensures var j := Join(MessageParts(t, title, body), "\n\n");
            |j| > MaxLen ==> text == j[..MaxLen] + [Ellipsis]
  {
    Clip(Join(MessageParts(t, title, body), "\n\n"), MaxLen)
  }

  /** The forum topic: the body's `threadId` when it is given at all, else the configured one; a zero id is left out. */
  function ThreadId(cfg: ServerConfig, body: RequestBody): (r: Option<int>)
    ensures body.threadId.Some? && body.threadId.value != 0 ==> r == body.threadId
    ensures body.threadId.None? && cfg.threadId.Some? && cfg.threadId.value != 0 ==> r == cfg.threadId
    ensures r.Some? ==> r.value != 0
    ensures r.Some? ==> r == (if body.threadId.Some? then body.threadId else cfg.threadId)
    ensures body.threadId == Some(0) ==> r.None?
  {
    var chosen := if body.threadId.Some? then body.threadId else cfg.threadId;
    if chosen.Some? && chosen.value != 0 then chosen else None
  }

  /** The failure detail: Telegram's description, else the error message, else "unknown". */
  function ErrorDetail(description: string, message: string): (r: string)
    ensures r != ""
    ensures description != "" ==> r == description
    ensures description == "" && message != "" ==> r == message
    ensures description == "" && message == "" ==> r == "unknown"
  {
    if description != "" then description else if message != "" then message else "unknown"
  }

  /**
   * Everything after admission: the type check, the title check, the
   * destination check, and one outbound call whose reply decides the
   * result. The destination is always the configured chat.
   */
  function Deliver(cfg: ServerConfig, body: RequestBody, api: ApiReply): (r: (Result, Option<SendMessage>))
    ensures ParseType(body.kind).None? <==> r.0 == Failed(InvalidType)
    ensures r.0 == Failed(MissingTitle) <==> ParseType(body.kind).Some? && !Truthy(body.title)
    ensures r.1.Some? <==> ParseType(body.kind).Some? && Truthy(body.title) && cfg.chatId != ""
    ensures r.1.Some? ==>
      && r.1.value.chatId == cfg.chatId
      && r.1.value.parseMode == "HTML"
      && r.1.value.disableWebPagePreview
      && r.1.value.text == MessageText(ParseType(body.kind).value, body.title.value, body)
      && r.1.value.messageThreadId == ThreadId(cfg, body)
    ensures r.0.Ok? <==> r.1.Some? && api.ApiOk?
    ensures ParseType(body.kind).Some? && Truthy(body.title) && cfg.chatId == "" ==> r.0 == Failed(MissingChatId)
    ensures r.1.Some? && api.ApiOk? ==> r.0 == Ok(api.telegram)
    ensures r.1.Some? && api.ApiFailed? ==> r.0 == Failed(TelegramApiError(ErrorDetail(api.description, api.message)))
  {
    match ParseType(body.kind)
    case None => (Failed(InvalidType), None)
    case Some(t) =>
      if !Truthy(body.title) then (Failed(MissingTitle), None)
      else if cfg.chatId == "" then (Failed(MissingChatId), None)
      else
        var msg := SendMessage(cfg.chatId, MessageText(t, body.title.value, body), "HTML", true, ThreadId(cfg, body));
        match api
        case ApiOk(res) => (Ok(res), Some(msg))
        case ApiFailed(d, m) => (Failed(TelegramApiError(ErrorDetail(d, m))), Some(msg))
  }

  /** The message built as the handler does: the parts pushed one by one, joined by blank lines, clipped. */
  method AssembleText(t: NotifyType, title: string, body: RequestBody) returns (text: string)
    ensures text == MessageText(t, title, body)
  {
    var tags := TagsLine(body.tags);
    var stackPart := StackPart(body.stack);
    ghost var tagsPart := TagsSeg(body.tags);
    ghost var descPart := OptionalSeg(body.description, EscapeHtml);
    ghost var urlPart := OptionalSeg(body.url, UrlLine);
    ghost var stackBlock := StackSeg(body.stack);

    var parts: seq<string> := [];
    if tags != "" {
      parts := parts + [EscapeHtml(tags)];
    }
    assert parts == tagsPart;
    parts := parts + [TitleLine(t, title)];
    ghost var front := parts;
    if Truthy(body.description) {
      parts := parts + [EscapeHtml(body.description.value)];
    }
    assert parts == front + descPart;
    ghost var withDesc := parts;
    if Truthy(body.url) {
      parts := parts + [UrlLine(body.url.value)];
    }
    assert parts == withDesc + urlPart;
    ghost var withUrl := parts;
    if stackPart != "" {
      parts := parts + [StackBlock(stackPart)];
    }
    assert parts == withUrl + stackBlock;
    assert parts == MessageParts(t, title, body);

    text := Join(parts, "\n\n");
    text := Clip(text, MaxLen);
  }

  /**
   * The endpoint. `nowTake` is the clock read inside the limiter and
   * `nowRetry` the later read for `Retry-After`; `api` is what the outbound
   * call yields.
   */
  method Handle(limiter: RateLimiter, cfg: ServerConfig, ip: Option<string>, nowTake: int, nowRetry: int,
                body: RequestBody, api: ApiReply) returns (resp: Response)
    requires cfg.rateLimitWindowSec > 0
    modifies limiter
    ensures cfg.botToken == "" ==>
      resp == Response(None, Failed(Misconfigured), None) && limiter.buckets == old(limiter.buckets)
    ensures cfg.botToken != "" ==>
      var (d, m) := Admit(old(limiter.buckets), SourceKey(ip), cfg.rateLimitWindowSec, cfg.rateLimitPerIp, nowTake);
      && limiter.buckets == m
      && resp.headers == Some(RateHeaders(cfg.rateLimitPerIp, d.remaining, d.resetAt / 1000))
      && (!d.allowed ==> resp.result == Failed(RateLimited(RetryAfter(d.resetAt, nowRetry))) && resp.sent == None)
      && (d.allowed ==> (resp.result, resp.sent) == Deliver(cfg, body, api))
  {
    if cfg.botToken == "" {
      return Response(None, Failed(Misconfigured), None);
    }
    var decision := limiter.TakeToken(SourceKey(ip), cfg.rateLimitWindowSec, cfg.rateLimitPerIp, nowTake);
    var retryAfter := RetryAfter(decision.resetAt, nowRetry);
    var headers := Some(RateHeaders(cfg.rateLimitPerIp, decision.remaining, decision.resetAt / 1000));
    if !decision.allowed {
      return Response(headers, Failed(RateLimited(retryAfter)), None);
    }

    var kind := ParseType(body.kind);
    if kind.None? {
      return Response(headers, Failed(InvalidType), None);
    }
    if !Truthy(body.title) {
      return Response(headers, Failed(MissingTitle), None);
    }
    var text := AssembleText(kind.value, body.title.value, body);

    if cfg.chatId == "" {
      return Response(headers, Failed(MissingChatId), None);
    }
    var msg := SendMessage(cfg.chatId, text, "HTML", true, ThreadId(cfg, body));
    match api
    case ApiOk(res) =>
      resp := Response(headers, Ok(res), Some(msg));
    case ApiFailed(description, message) =>
      resp := Response(headers, Failed(TelegramApiError(ErrorDetail(description, message))), Some(msg));
  }

  // ------------------------------------------------------------------ lemmas

  lemma {:induction false} EscapeHtmlLonger(s: string)
    ensures |EscapeHtml(s)| >= |s|
  {
    EscapeHtmlIsCharwise(s);
    CharwiseLonger(s);
  }

  lemma {:induction false} CharwiseLonger(s: string)
    ensures |EscapeHtmlChars(s)| >= |s|
  {
    if s != [] {
      CharwiseLonger(s[1..]);
    }
  }

  lemma {:induction false} JoinHoldsPart(parts: seq<string>, sep: string, i: nat)
    requires i < |parts|
    ensures |Join(parts, sep)| >= |parts[i]|
  {
    if |parts| > 1 && i > 0 {
      JoinHoldsPart(parts[1..], sep, i - 1);
    }
  }

  /**
   * The final clip uses Telegram's own limit as the cut point, so a
   * long enough title yields a 4097-character text, one over the limit;
   * no message is ever longer than that.
   */
  lemma MessageTextLength(t: NotifyType, title: string, body: RequestBody)
    ensures |MessageText(t, title, body)| <= MaxLen + 1
    ensures |title| >= MaxLen ==> |MessageText(t, title, body)| == MaxLen + 1
  {
    var parts := MessageParts(t, title, body);
    var i := if TagsLine(body.tags) != "" then 1 else 0;
    assert parts[i] == TitleLine(t, title);
    JoinHoldsPart(parts, "\n\n", i);
    EscapeHtmlLonger(title);
  }

  lemma PartsOfTitleAndStack(t: NotifyType, title: string, body: RequestBody)
    requires body.tags.None? && body.description.None? && body.url.None?
    requires StackPart(body.stack) != ""
    ensures MessageParts(t, title, body) == [TitleLine(t, title), StackBlock(StackPart(body.stack))]
  {
    assert TagsLine(body.tags) == "";
    var expected := [TitleLine(t, title), StackBlock(StackPart(body.stack))];
    assert [] + [TitleLine(t, title)] + [] + [] + [StackBlock(StackPart(body.stack))] == expected;
  }

  lemma StackPartOfLines(lines: seq<string>, stack: Option<string>)
    requires |lines| >= 3
    requires forall i :: 0 <= i < |lines| ==> lines[i] != "" && EndsCleanly(lines[i])
    requires stack == Some(Join(lines, "\n"))
    ensures StackPart(stack) == Join(lines[..3], "\n") != ""
  {
    FirstLinesOfJoinedLines(lines, 3);
    assert |lines| == 3 ==> lines[..3] == lines;
    JoinNonEmpty(lines, "\n");
    JoinNonEmpty(lines[..3], "\n");
  }

  /**
   * A body with a type, a title and a stack of at least three non-empty
   * lines, and nothing else, gives exactly two parts: the title line and a
   * code block of the stack's first three lines.
   */
  lemma StackCutToThreeLines(t: NotifyType, title: string, lines: seq<string>, body: RequestBody)
    requires |lines| >= 3
    requires forall i :: 0 <= i < |lines| ==> lines[i] != "" && EndsCleanly(lines[i])
    requires body.tags.None? && body.description.None? && body.url.None?
    requires body.stack == Some(Join(lines, "\n"))
    ensures MessageParts(t, title, body) == [TitleLine(t, title), StackBlock(Join(lines[..3], "\n"))]
  {
    StackPartOfLines(lines, body.stack);
    PartsOfTitleAndStack(t, title, body);
  }


}
