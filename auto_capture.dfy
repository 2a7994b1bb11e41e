/**
 * The client plugin that turns runtime errors into notifications: a key
 * from the error's title and head, the ignore check (configured patterns and
 * self-suppression by the endpoint path), a time-windowed dedupe map,
 * sampling, and the error payload handed to the sending composable.
 */
module AutoCapture {
  import opened Wrappers
  import opened JsString
  import opened NotifyTypes
  import NotifyHandler

  /** A thrown or rejected JavaScript value, as far as the plugin inspects it. */
  datatype ErrValue =
      /** `undefined`, `null`, `false`, `0` or `NaN`, with `String(e)`. */
    | Falsy(str: string)
      /** A string, the empty one included. */
    | Text(s: string)
      /** An `Error`; `stack` or `message` is "" when missing. `str` is `String(e)`. */
    | ErrorObject(stack: string, message: string, str: string)
      /** Any other truthy value: its JSON text (or `String(e)` when serialising throws), its `message` ("" when missing) and `String(e)`. */
    | OtherValue(json: string, message: string, str: string)

  predicate IsTruthy(e: ErrValue) {
    match e
    case Falsy(_) => false
    case Text(s) => s != ""
    case _ => true
  }

  /** `toStack`: "" for a falsy value, a string as it is, an error's stack (else its message), else the JSON text. */
  function ToStack(e: ErrValue): (r: string)
    ensures !IsTruthy(e) ==> r == ""
    ensures e.Text? ==> r == e.s
    ensures e.ErrorObject? ==> r == (if e.stack != "" then e.stack else e.message)
    ensures e.OtherValue? ==> r == e.json
  {
    match e
    case Falsy(_) => ""
    case Text(s) => s
    case ErrorObject(stack, message, _) => if stack != "" then stack else message
    case OtherValue(json, _, _) => json
  }

  /** `(err as any)?.message`: only errors and other objects may carry one. */
  function Message(e: ErrValue): string {
    match e
    case ErrorObject(_, message, _) => message
    case OtherValue(_, message, _) => message
    case _ => ""
  }

  /** `String(err)` */
  function Str(e: ErrValue): string {
    match e
    case Falsy(str) => str
    case Text(s) => s
    case ErrorObject(_, _, str) => str
    case OtherValue(_, _, str) => str
  }

  lemma TrimOneChar(c: char)
    ensures Trim([c]) == if IsWhitespace(c) then [] else [c]
  {
    if IsWhitespace(c) {
      TrimPadded([c], [], []);
      assert [c] + [] + [] == [c];
    } else {
      TrimPadded([], [c], []);
      assert [] + [c] + [] == [c];
    }
  }

  /**
   * `firstLine`: `split('')` cuts the text into single characters, so this
   * is the first character, trimmed, not the first line.
   */
  function FirstLine(s: string): (r: string)
    ensures |r| <= 1
    ensures r == [] <==> s == [] || IsWhitespace(s[0])
    ensures r != [] ==> r == s[..1]
  {
    if s == [] then []
    else
      TrimOneChar(s[0]);
      Trim([s[0]])
  }

  /** Unlike its name, `firstLine` keeps one character where the first line has more. */
  lemma FirstLineIsOneCharacter(s: string)
    requires |s| >= 2 && !IsWhitespace(s[0]) && s[1] != '\n'
    ensures |FirstLine(s)| == 1 < |Split(s, '\n')[0]|
  {
    assert Split(s, '\n')[0] == [s[0]] + Split(s[1..], '\n')[0];
    assert Split(s[1..], '\n')[0] == [s[1]] + Split(s[2..], '\n')[0];
  }

  /** The head of an event: the first non-empty of `firstLine(stack)`, the error's message, `String(err)`. */
  function Head(e: ErrValue): (r: string)
    ensures FirstLine(ToStack(e)) != "" ==> r == FirstLine(ToStack(e))
    ensures FirstLine(ToStack(e)) == "" && Message(e) != "" ==> r == Message(e)
    ensures FirstLine(ToStack(e)) == "" && Message(e) == "" ==> r == Str(e)
    ensures r == FirstLine(ToStack(e)) || r == Message(e) || r == Str(e)
    ensures r == "" ==> FirstLine(ToStack(e)) == "" && Message(e) == "" && Str(e) == ""
  {
    var first := FirstLine(ToStack(e));
    if first != "" then first else if Message(e) != "" then Message(e) else Str(e)
  }

  /** The dedupe and ignore key: `${title}:${head}` cut to its first 200 characters. */
  function MsgKey(title: string, head: string): (k: string)
    ensures |k| <= 200
    ensures k != ""
    ensures |k| <= |title + ":" + head| && k == (title + ":" + head)[..|k|]
    ensures |title + ":" + head| <= 200 ==> k == title + ":" + head
    ensures |title + ":" + head| > 200 ==> k == (title + ":" + head)[..200]
  {
    var full := title + ":" + head;
    if |full| <= 200 then full else full[..200]
  }

  /** Two errors whose stacks open with the same visible character get the same key, whatever else differs. */
  lemma ErrorsWithSameFirstCharShareKey(title: string, a: ErrValue, b: ErrValue)
    requires a.ErrorObject? && b.ErrorObject?
    requires a.stack != "" && b.stack != "" && a.stack[0] == b.stack[0] && !IsWhitespace(a.stack[0])
    ensures MsgKey(title, Head(a)) == MsgKey(title, Head(b))
  {
  }

  // -------------------------------------------------------------- ignoring

  /** A configured pattern after compilation: a case-insensitive expression, or `^$` when the source does not compile. */
  datatype Pattern = Compiled(source: string) | Unmatchable

  /** The host's regular expressions: whether a source compiles, and whether a compiled one matches a text. */
  datatype RegexEngine = RegexEngine(compiles: string -> bool, test: (string, string) -> bool)

  function CompilePattern(engine: RegexEngine, p: string): (pat: Pattern)
    ensures pat.Unmatchable? <==> !engine.compiles(p)
  {
    if engine.compiles(p) then Compiled(p) else Unmatchable
  }

  /** `re.test(msg)`; `^$` matches the empty text only. */
  predicate PatternTest(engine: RegexEngine, pat: Pattern, msg: string) {
    match pat
    case Compiled(source) => engine.test(source, msg)
    case Unmatchable => msg == ""
  }

  /** `patterns.some(re => re.test(msg))` over the compiled patterns. */
  predicate AnyPatternMatches(engine: RegexEngine, patterns: seq<string>, msg: string) {
    patterns != [] &&
    (PatternTest(engine, CompilePattern(engine, patterns[0]), msg) || AnyPatternMatches(engine, patterns[1..], msg))
  }

  /** `matchesIgnore`: a pattern matches, or the text contains the endpoint path. */
  predicate MatchesIgnore(engine: RegexEngine, patterns: seq<string>, apiUrl: string, msg: string)
    ensures Contains(msg, apiUrl) ==> MatchesIgnore(engine, patterns, apiUrl, msg)
    ensures patterns == [] ==> (MatchesIgnore(engine, patterns, apiUrl, msg) <==> Contains(msg, apiUrl))
  {
    AnyPatternMatches(engine, patterns, msg) || Contains(msg, apiUrl)
  }

  lemma {:induction false} AnyPatternMatchesIff(engine: RegexEngine, patterns: seq<string>, msg: string)
    ensures AnyPatternMatches(engine, patterns, msg) <==>
      exists i :: 0 <= i < |patterns| && PatternTest(engine, CompilePattern(engine, patterns[i]), msg)
  {
    if patterns != [] {
      AnyPatternMatchesIff(engine, patterns[1..], msg);
      assert forall i :: 1 <= i < |patterns| ==> patterns[i] == patterns[1..][i - 1];
      if exists i :: 0 <= i < |patterns| && PatternTest(engine, CompilePattern(engine, patterns[i]), msg) {
        var i :| 0 <= i < |patterns| && PatternTest(engine, CompilePattern(engine, patterns[i]), msg);
        if i > 0 {
          assert PatternTest(engine, CompilePattern(engine, patterns[1..][i - 1]), msg);
        }
      }
    }
  }

  /**
   * On a non-empty text (every key is one) a pattern that failed to compile
   * never matches: the text is ignored exactly when a compiled pattern
   * matches it or it contains the endpoint path, which alone suffices.
   */
  lemma MatchesIgnoreIff(engine: RegexEngine, patterns: seq<string>, apiUrl: string, msg: string)
    requires msg != ""
    ensures MatchesIgnore(engine, patterns, apiUrl, msg) <==>
      (exists i :: 0 <= i < |patterns| && engine.compiles(patterns[i]) && engine.test(patterns[i], msg))
      || Contains(msg, apiUrl)
    ensures Contains(msg, apiUrl) ==> MatchesIgnore(engine, patterns, apiUrl, msg)
  {
    AnyPatternMatchesIff(engine, patterns, msg);
    if exists i :: 0 <= i < |patterns| && engine.compiles(patterns[i]) && engine.test(patterns[i], msg) {
      var i :| 0 <= i < |patterns| && engine.compiles(patterns[i]) && engine.test(patterns[i], msg);
      assert PatternTest(engine, CompilePattern(engine, patterns[i]), msg);
    }
  }

  // ------------------------------------------------------------- the filter

  /** The capture options the filter reads; an absent rate or window takes its default. */
  datatype CaptureOptions = CaptureOptions(
    sampleRate: Option<real>,
    dedupeWindowMs: Option<int>,
    ignorePatterns: seq<string>)

  /** `dedupeWindowMs ?? 5000`: the configured window, else five seconds. */
  function DedupeWindow(options: CaptureOptions): (w: int)
    ensures options.dedupeWindowMs.None? ==> w == 5000
    ensures options.dedupeWindowMs.Some? ==> w == options.dedupeWindowMs.value
  {
    if options.dedupeWindowMs.Some? then options.dedupeWindowMs.value else 5000
  }

  /** The sample rate clamped to [0, 1]; 1 when not configured. */
  function SampleRate(options: CaptureOptions): (r: real)
    ensures 0.0 <= r <= 1.0
    ensures options.sampleRate.None? ==> r == 1.0
    ensures options.sampleRate.Some? && 0.0 <= options.sampleRate.value <= 1.0 ==> r == options.sampleRate.value
    ensures options.sampleRate.Some? && options.sampleRate.value < 0.0 ==> r == 0.0
    ensures options.sampleRate.Some? && options.sampleRate.value > 1.0 ==> r == 1.0
  {
    var rate := if options.sampleRate.Some? then options.sampleRate.value else 1.0;
    var capped := if rate < 1.0 then rate else 1.0;
    if capped > 0.0 then capped else 0.0
  }

  /** The recorded time of a key; an absent key counts as 0. */
  function Last(dedupe: map<string, int>, key: string): (t: int)
    ensures key in dedupe ==> t == dedupe[key]
    ensures key !in dedupe ==> t == 0
  {
    if key in dedupe then dedupe[key] else 0
  }

  /** One captured event: its title, the thrown value and the optional extra info. */
  datatype Event = Event(title: string, err: ErrValue, info: Option<string>)

  /**
   * What the browser supplies while one event is handled: the clock read by
   * the dedupe check, the clock read when recording, the random draw in
   * [0, 1) and the page location.
   */
  datatype Env = Env(nowCheck: int, nowRecord: int, random: real, href: string)

  predicate ValidEnv(env: Env) {
    0.0 <= env.random < 1.0
  }

  datatype Outcome = Ignored | Deduplicated | SampledOut | Dispatched(payload: NotifyPayload)

  function Key(ev: Event): string {
    MsgKey(ev.title, Head(ev.err))
  }

  /** The payload handed to `notifier.error`. */
  function ErrorPayload(ev: Event, href: string): (p: NotifyPayload)
    ensures p.tags == Some(["AutoCapture"])
    ensures p.title == ev.title + ": " + Head(ev.err)
    ensures p.stack == Some(ToStack(ev.err))
    ensures p.url == Some(href) && p.description == ev.info
    ensures p.chatId.None? && p.threadId.None?
  {
    NotifyPayload(ev.title + ": " + Head(ev.err), ev.info, Some(["AutoCapture"]), Some(href),
                  Some(ToStack(ev.err)), None, None)
  }

  /** The outcome of one event and the dedupe map after it. */
  function Decide(dedupe: map<string, int>, options: CaptureOptions, apiUrl: string, engine: RegexEngine,
                  ev: Event, env: Env): (r: (Outcome, map<string, int>))
    ensures r.0.Ignored? <==> MatchesIgnore(engine, options.ignorePatterns, apiUrl, Key(ev))
    ensures r.0.Deduplicated? <==> !r.0.Ignored? && env.nowCheck - Last(dedupe, Key(ev)) < DedupeWindow(options)
    ensures r.0.Ignored? || r.0.Deduplicated? ==> r.1 == dedupe
    ensures !r.0.Ignored? && !r.0.Deduplicated? ==> r.1 == dedupe[Key(ev) := env.nowRecord]
    ensures r.0.Dispatched? ==> r.0.payload == ErrorPayload(ev, env.href)
  {
    var key := Key(ev);
    if MatchesIgnore(engine, options.ignorePatterns, apiUrl, key) then (Ignored, dedupe)
    else if env.nowCheck - Last(dedupe, key) < DedupeWindow(options) then (Deduplicated, dedupe)
    else
      var recorded := dedupe[key := env.nowRecord];
      if env.random > SampleRate(options) then (SampledOut, recorded)
      else (Dispatched(ErrorPayload(ev, env.href)), recorded)
  }

  /**
   * One event: an ignored or duplicate event leaves the map as it was; any
   * other is recorded under its key with the recording time, whether or not
   * sampling then drops it; it is dispatched exactly when the draw does not
   * exceed the clamped rate (so always at rate 1, and only on a zero draw at
   * rate 0).
   */
  lemma DecideProperties(dedupe: map<string, int>, options: CaptureOptions, apiUrl: string, engine: RegexEngine,
                         ev: Event, env: Env)
    requires ValidEnv(env)
    ensures var (o, m) := Decide(dedupe, options, apiUrl, engine, ev, env);
            var key := Key(ev);
      && (o.Ignored? <==> MatchesIgnore(engine, options.ignorePatterns, apiUrl, key))
      && (o.Ignored? || o.Deduplicated? <==> m == dedupe && (o.Ignored? || env.nowCheck - Last(dedupe, key) < DedupeWindow(options)))
      && (o.SampledOut? || o.Dispatched? ==> m == dedupe[key := env.nowRecord])
      && (o.Dispatched? <==> !o.Ignored? && !o.Deduplicated? && env.random <= SampleRate(options))
      && (SampleRate(options) == 1.0 ==> !o.SampledOut?)
  {
    var (o, m) := Decide(dedupe, options, apiUrl, engine, ev, env);
    var key := Key(ev);
    if o.SampledOut? || o.Dispatched? {
      assert key in m && m[key] == env.nowRecord;
      assert m != dedupe || (key in dedupe && dedupe[key] == env.nowRecord);
    }
  }

  /**
   * An event that was recorded (dispatched or dropped by sampling) suppresses
   * any event with the same key checked less than a window after the
   * recording time, whatever the sampling did.
   */
  lemma RecordedSuppressesRepeats(dedupe: map<string, int>, options: CaptureOptions, apiUrl: string,
                                  engine: RegexEngine, first: Event, env1: Env, second: Event, env2: Env)
    requires Key(first) == Key(second)
    requires Decide(dedupe, options, apiUrl, engine, first, env1).0.SampledOut? ||
             Decide(dedupe, options, apiUrl, engine, first, env1).0.Dispatched?
    requires env2.nowCheck - env1.nowRecord < DedupeWindow(options)
    ensures Decide(Decide(dedupe, options, apiUrl, engine, first, env1).1, options, apiUrl, engine, second, env2).0
            == Deduplicated
  {
    var m := Decide(dedupe, options, apiUrl, engine, first, env1).1;
    assert m == dedupe[Key(first) := env1.nowRecord];
    assert Last(m, Key(second)) == env1.nowRecord;
  }

  /**
   * A suppressed event does not refresh its key's time: once a window has
   * passed since the recorded time, the next event with that key gets past
   * the dedupe check, however recently a duplicate was suppressed.
   */
  lemma SuppressedDoesNotRefresh(dedupe: map<string, int>, options: CaptureOptions, apiUrl: string,
                                 engine: RegexEngine, ev: Event, env1: Env, later: Event, env2: Env)
    requires Key(ev) == Key(later) && Key(ev) in dedupe
    requires Decide(dedupe, options, apiUrl, engine, ev, env1).0.Deduplicated?
    requires env2.nowCheck - dedupe[Key(ev)] >= DedupeWindow(options)
    ensures Decide(dedupe, options, apiUrl, engine, ev, env1).1 == dedupe
    ensures !Decide(Decide(dedupe, options, apiUrl, engine, ev, env1).1, options, apiUrl, engine, later, env2).0.Deduplicated?
  {
    assert Last(dedupe, Key(later)) == dedupe[Key(ev)];
  }

  /**
   * With the default five-second window, the same error thrown twice two
   * seconds apart is dispatched at most once, and at the default rate the
   * first one is dispatched when its key is new and not ignored.
   */
  lemma RepeatTwoSecondsLaterSuppressed(options: CaptureOptions, apiUrl: string, engine: RegexEngine,
                                        ev: Event, t: int, r1: real, r2: real, href: string)
    requires options.dedupeWindowMs.None? && options.sampleRate.None?
    requires 0.0 <= r1 < 1.0 && 0.0 <= r2 < 1.0 && t >= 5000
    requires !MatchesIgnore(engine, options.ignorePatterns, apiUrl, Key(ev))
    ensures var (o1, m1) := Decide(map[], options, apiUrl, engine, ev, Env(t, t, r1, href));
            && o1 == Dispatched(ErrorPayload(ev, href))
            && Decide(m1, options, apiUrl, engine, ev, Env(t + 2000, t + 2000, r2, href)).0 == Deduplicated
  {
    var (o1, m1) := Decide(map[], options, apiUrl, engine, ev, Env(t, t, r1, href));
    assert Last(map[], Key(ev)) == 0;
    assert m1 == map[Key(ev) := t];
    assert Last(m1, Key(ev)) == t;
  }

  // -------------------------------------------------------------- the plugin

  /** The plugin instance: its options, the endpoint path, the host's regular expressions, and the dedupe map it keeps. */
  class CapturePlugin {
    const options: CaptureOptions
    const apiUrl: string
    const engine: RegexEngine
    var dedupe: map<string, int>

    constructor(options: CaptureOptions, apiUrl: string, engine: RegexEngine)
      ensures this.options == options && this.apiUrl == apiUrl && this.engine == engine
      ensures dedupe == map[]
    {
      this.options := options;
      this.apiUrl := apiUrl;
      this.engine := engine;
      dedupe := map[];
    }

    /** `send`: filter one event and hand a surviving one to the error notifier. */
    method Send(ev: Event, env: Env) returns (outcome: Outcome)
      requires ValidEnv(env)
      modifies this
      ensures (outcome, dedupe) == Decide(old(dedupe), options, apiUrl, engine, ev, env)
      ensures outcome.Ignored? || outcome.Deduplicated? ==> dedupe == old(dedupe)
      ensures outcome.SampledOut? || outcome.Dispatched? ==> dedupe == old(dedupe)[Key(ev) := env.nowRecord]
      ensures outcome.Dispatched? ==> outcome.payload == ErrorPayload(ev, env.href)
    {
      var stack := ToStack(ev.err);
      var head := Head(ev.err);
      var msgKey := MsgKey(ev.title, head);
      if MatchesIgnore(engine, options.ignorePatterns, apiUrl, msgKey) {
        return Ignored;
      }
      var last := if msgKey in dedupe then dedupe[msgKey] else 0;
      if env.nowCheck - last < DedupeWindow(options) {
        return Deduplicated;
      }
      dedupe := dedupe[msgKey := env.nowRecord];
      var sample := SampleRate(options);
      if env.random > sample {
        return SampledOut;
      }
      outcome := Dispatched(NotifyPayload(ev.title + ": " + head, ev.info, Some(["AutoCapture"]),
                                          Some(env.href), Some(stack), None, None));
    }

    /**
     * The window `error` listener: an error raised while loading the
     * endpoint's own script is skipped; otherwise the error object, or the
     * event's message when there is none, is sent as a "Window error".
     */
    method OnWindowError(filename: string, error: ErrValue, message: string, env: Env)
      returns (outcome: Option<Outcome>)
      requires ValidEnv(env)
      modifies this
      ensures filename != "" && Contains(filename, apiUrl) ==> outcome.None? && dedupe == old(dedupe)
      ensures !(filename != "" && Contains(filename, apiUrl)) ==>
        var ev := Event("Window error", if IsTruthy(error) then error else Text(message), None);
        (outcome, dedupe) == (Some(Decide(old(dedupe), options, apiUrl, engine, ev, env).0),
                              Decide(old(dedupe), options, apiUrl, engine, ev, env).1)
    {
      if filename != "" && Contains(filename, apiUrl) {
        return None;
      }
      var o := Send(Event("Window error", if IsTruthy(error) then error else Text(message), None), env);
      outcome := Some(o);
    }

    /** The `vue:error` hook: the error with Vue's info text as the description. */
    method OnVueError(err: ErrValue, info: string, env: Env) returns (outcome: Outcome)
      requires ValidEnv(env)
      modifies this
      ensures (outcome, dedupe) == Decide(old(dedupe), options, apiUrl, engine, Event("Vue error", err, Some(info)), env)
    {
      outcome := Send(Event("Vue error", err, Some(info)), env);
    }

    /** The `app:error` hook. */
    method OnAppError(err: ErrValue, env: Env) returns (outcome: Outcome)
      requires ValidEnv(env)
      modifies this
      ensures (outcome, dedupe) == Decide(old(dedupe), options, apiUrl, engine, Event("App error", err, None), env)
    {
      outcome := Send(Event("App error", err, None), env);
    }

    /** The window `unhandledrejection` listener: the rejection reason, whatever it is. */
    method OnUnhandledRejection(reason: ErrValue, env: Env) returns (outcome: Outcome)
      requires ValidEnv(env)
      modifies this
      ensures (outcome, dedupe) == Decide(old(dedupe), options, apiUrl, engine, Event("Unhandled rejection", reason, None), env)
    {
      outcome := Send(Event("Unhandled rejection", reason, None), env);
    }
  }

  /**
   * Every dispatched event passes the endpoint's validation: sent as an
   * error notification it has a known type and a non-empty title, so the
   * endpoint answers with Telegram's reply whenever it has a chat id.
   */
  lemma DispatchedPassesValidation(ev: Event, href: string, cfg: NotifyHandler.ServerConfig,
                                   api: NotifyHandler.ApiReply)
    ensures var body := Encode(Error, ErrorPayload(ev, href));
            var (result, sent) := NotifyHandler.Deliver(cfg, body, api);
      && result != NotifyHandler.Failed(NotifyHandler.InvalidType)
      && result != NotifyHandler.Failed(NotifyHandler.MissingTitle)
      && (sent.Some? <==> cfg.chatId != "")
  {
    var p := ErrorPayload(ev, href);
    assert |p.title| >= 2;
  }
}
