// What the event handlers share: the per-channel send decision, counting the
// results of the send tasks, the Content-Type check and the order in which an
// HTTP handler checks, validates, schedules and acknowledges.
module Delivery {
  import opened Text
  import opened Values
  import opened Validation

  // ---------------------------------------------------------------------
  // Sending to one channel

  /** The bot's permissions in a channel it can see. */
  datatype Permissions = Permissions(sendMessages: bool, attachFiles: bool)

  /** What one send call does: nothing (channel not found or no permission
      to post), post text, or post text with an attached file. */
  datatype Send = NoChannel | NoPermission | PostText(text: string) | PostFile(text: string, path: string)

  /** Whether a send call posted anything. */
  predicate Posted(s: Send) {
    s.PostText? || s.PostFile?
  }

  /** `send_discord_message_with_image`: the channel must be visible and
      allow posting; the file is attached only when a non-empty path names an
      existing file and attaching is allowed, else the text goes alone. */
  function SendWithImage(channels: map<int, Permissions>, channel: int, text: string,
                         image: Option<string>, fileExists: string -> bool): (r: Send)
    ensures Posted(r) <==> channel in channels && channels[channel].sendMessages
    ensures Posted(r) ==> r.text == text
    ensures r.PostFile? <==> (Posted(r) && channels[channel].attachFiles
      && image.Some? && image.value != [] && fileExists(image.value))
    ensures r.PostFile? ==> r.path == image.value
  {
    if channel !in channels then NoChannel
    else if !channels[channel].sendMessages then NoPermission
    else
      var path := if image.Some? && image.value != [] && fileExists(image.value) then image.value else "";
      if path != [] && channels[channel].attachFiles then PostFile(text, path) else PostText(text)
  }

  /** `send_discord_message` of the scalp-update and holding-report handlers:
      text only. */
  function SendText(channels: map<int, Permissions>, channel: int, text: string): (r: Send)
    ensures !r.PostFile?
    ensures Posted(r) <==> channel in channels && channels[channel].sendMessages
    ensures Posted(r) ==> r.text == text
  {
    if channel !in channels then NoChannel
    else if !channels[channel].sendMessages then NoPermission
    else PostText(text)
  }

  /** Without an image, the image sender posts exactly what the text sender
      posts. */
  lemma {:induction false} NoImageIsText(channels: map<int, Permissions>, channel: int, text: string, fileExists: string -> bool)
    ensures SendWithImage(channels, channel, text, None, fileExists) == SendText(channels, channel, text)
  {
  }

  // ---------------------------------------------------------------------
  // Counting the results of the send tasks

  /** The result of one task under `asyncio.gather(..., return_exceptions=True)`:
      the value it returned, or the exception it raised. */
  datatype TaskResult = Returned(value: Value) | Raised

  /** The number of results that are not exceptions. */
  function ReturnedCount(results: seq<TaskResult>): nat
    decreases |results|
  {
    if results == [] then 0
    else ReturnedCount(results[..|results| - 1]) + (if results[|results| - 1].Returned? then 1 else 0)
  }

  /** The success-counting loop of the copy-signal, trade-summary and
      scalp-update handlers: one more success per result that is not an
      exception. */
  method CountSuccesses(results: seq<TaskResult>) returns (successCount: nat)
    ensures successCount == ReturnedCount(results)
  {
    successCount := 0;
    var i := 0;
    while i < |results|
      invariant 0 <= i <= |results|
      invariant successCount == ReturnedCount(results[..i])
    {
      assert results[..i + 1][..i] == results[..i];
      if !results[i].Raised? {
        successCount := successCount + 1;
      }
      i := i + 1;
    }
    assert results[..i] == results;
  }

  /** The count is at most the number of tasks, and reaches it exactly when
      no task raised. */
  lemma {:induction false} ReturnedCountBound(results: seq<TaskResult>)
    ensures ReturnedCount(results) <= |results|
    ensures ReturnedCount(results) == |results| <==> forall i :: 0 <= i < |results| ==> results[i].Returned?
    decreases |results|
  {
    if results != [] {
      var init := results[..|results| - 1];
      ReturnedCountBound(init);
      forall i | 0 <= i < |init| ensures init[i] == results[i] {
      }
    }
  }

  /** `sum(1 for result in results if result is True)`. */
  function TrueCount(results: seq<TaskResult>): nat
    decreases |results|
  {
    if results == [] then 0
    else TrueCount(results[..|results| - 1]) + (if results[|results| - 1] == Returned(VBool(true)) then 1 else 0)
  }

  /** Only results that are exactly True count: never more than the results
      that are not exceptions. */
  lemma {:induction false} TrueCountBound(results: seq<TaskResult>)
    ensures TrueCount(results) <= ReturnedCount(results)
    ensures TrueCount(results) == |results| <==> forall i :: 0 <= i < |results| ==> results[i] == Returned(VBool(true))
    decreases |results|
  {
    ReturnedCountBound(results);
    if results != [] {
      var init := results[..|results| - 1];
      TrueCountBound(init);
      ReturnedCountBound(init);
      forall i | 0 <= i < |init| ensures init[i] == results[i] {
      }
    }
  }

  /** The results of the guarded send tasks of the copy-signal,
      trade-summary, scalp-update and holding-report handlers: their send
      functions catch every exception and return None, whatever
      `channel.send` did, so no result is an exception. */
  function GuardedResults(sends: seq<Send>): (r: seq<TaskResult>)
    ensures |r| == |sends|
    ensures forall i :: 0 <= i < |r| ==> r[i] == Returned(VNone)
  {
    seq(|sends|, i requires 0 <= i < |sends| => Returned(VNone))
  }

  /** So the success count of a guarded fan-out is always the number of
      tasks, whether or not anything reached a channel. */
  lemma {:induction false} GuardedAllSucceed(sends: seq<Send>)
    ensures ReturnedCount(GuardedResults(sends)) == |sends|
  {
    ReturnedCountBound(GuardedResults(sends));
  }

  // ---------------------------------------------------------------------
  // Wording shared by the message builders

  /** `pair_side_map.get(str(v), str(v))`: the map's integer keys never
      match the string key, so only "1" and "2" are translated. */
  function SideLabel(v: Value): string {
    var code := Str(v);
    if code == "1" then "Long" else if code == "2" then "Short" else code
  }

  /** `margin_type_map.get(str(v), str(v))`. */
  function MarginLabel(v: Value): string {
    var code := Str(v);
    if code == "1" then "Cross" else if code == "2" then "Isolated" else code
  }

  /** A message with its detail link after a blank line, where the link is
      included. */
  function WithLink(text: string, link: string, includeLink: bool): string {
    if includeLink then text + "\n\n" + link else text
  }

  /** The trader detail link: `[About {name}, more actions>>]({url})`. */
  function AboutLink(name: string, url: string): string {
    "[About " + name + ", more actions>>](" + url + ")"
  }

  // ---------------------------------------------------------------------
  // The Content-Type check

  const JsonMediaType: string := "application/json"

  /** `request.headers.get("content-type", "").split(";")[0].lower()`. */
  function MediaType(header: Option<string>): string {
    var value := if header.Some? then header.value else "";
    Lower(Split(value, ';')[0])
  }

  /** The check the handlers apply. */
  predicate AcceptsJson(header: Option<string>) {
    MediaType(header) == JsonMediaType
  }

  /** Optional whitespace (space or horizontal tab) of RFC 9110. */
  predicate IsOws(c: char) {
    c == ' ' || c == '\t'
  }

  predicate AllOws(s: string) {
    forall i :: 0 <= i < |s| ==> IsOws(s[i])
  }

  /** The text with its trailing optional whitespace removed. */
  function DropTrailingOws(s: string): (r: string)
    ensures |r| <= |s| && r == s[..|r|]
    ensures r == [] || !IsOws(r[|r| - 1])
    ensures AllOws(s[|r|..])
    decreases |s|
  {
    if s != [] && IsOws(s[|s| - 1]) then DropTrailingOws(s[..|s| - 1]) else s
  }

  /** The media type as section 8.3 of RFC 9110 reads it: type and subtype
      end at the optional whitespace before the first ";". */
  function MediaTypeOws(header: Option<string>): string {
    var value := if header.Some? then header.value else "";
    Lower(DropTrailingOws(Split(value, ';')[0]))
  }

  predicate AcceptsJsonOws(header: Option<string>) {
    MediaTypeOws(header) == JsonMediaType
  }

  lemma {:induction false} JsonMediaTypeLower()
    ensures Lower(JsonMediaType) == JsonMediaType
  {
    LowerSpec(JsonMediaType);
  }

  /** The part before the first separator of `a + [sep] + b`, when `a` has no
      separator, is `a`. */
  lemma {:induction false} SplitFirst(a: string, sep: char, b: string)
    requires sep !in a
    ensures Split(a + [sep] + b, sep)[0] == a
  {
    var parts := Split(b, sep);
    SplitNoSep(a, sep);
    JoinSplit(b, sep);
    SplitJoin([a] + parts, sep);
    assert Join([sep], [a] + parts) == a + [sep] + Join([sep], parts);
  }

  /** As written, "application/json ;charset=utf-8" (whitespace before the
      parameter, which RFC 9110 allows) is refused. */
  lemma {:induction false} OwsRefused(ows: string, params: string)
    requires ows != [] && AllOws(ows)
    ensures !AcceptsJson(Some(JsonMediaType + ows + ";" + params))
  {
    var first := JsonMediaType + ows;
    assert ';' !in first by {
      forall i | 0 <= i < |first| ensures first[i] != ';' {
        if i >= |JsonMediaType| {
          assert first[i] == ows[i - |JsonMediaType|];
        }
      }
    }
    SplitFirst(first, ';', params);
    assert JsonMediaType + ows + ";" + params == first + [';'] + params;
    LowerSpec(first);
  }

  /** Read as RFC 9110 reads it, the same header is accepted. */
  lemma {:induction false} OwsAccepted(ows: string, params: string)
    requires AllOws(ows)
    ensures AcceptsJsonOws(Some(JsonMediaType + ows + ";" + params))
  {
    var first := JsonMediaType + ows;
    assert ';' !in first by {
      forall i | 0 <= i < |first| ensures first[i] != ';' {
        if i >= |JsonMediaType| {
          assert first[i] == ows[i - |JsonMediaType|];
        }
      }
    }
    SplitFirst(first, ';', params);
    assert JsonMediaType + ows + ";" + params == first + [';'] + params;
    DropOwsSuffix(JsonMediaType, ows);
    JsonMediaTypeLower();
  }

  /** Dropping trailing whitespace from a text that ends in a non-blank. */
  lemma {:induction false} DropOwsSuffix(s: string, ows: string)
    requires s != [] && !IsOws(s[|s| - 1]) && AllOws(ows)
    ensures DropTrailingOws(s + ows) == s
    decreases |ows|
  {
    if ows == [] {
      assert s + ows == s;
    } else {
      assert (s + ows)[..|s + ows| - 1] == s + ows[..|ows| - 1];
      DropOwsSuffix(s, ows[..|ows| - 1]);
    }
  }

  /** The two readings agree whenever no whitespace precedes the ";". */
  lemma {:induction false} OwsAgrees(header: Option<string>)
    requires var value := if header.Some? then header.value else "";
      var first := Split(value, ';')[0];
      first == [] || !IsOws(first[|first| - 1])
    ensures AcceptsJsonOws(header) == AcceptsJson(header)
  {
  }

  // ---------------------------------------------------------------------
  // The HTTP handler skeleton

  /** The reply of a handler: the acknowledgement, one of the 400 replies,
      the 500 reply when scheduling fails, or none at all when the validator
      raised something other than ValueError. */
  datatype Reply = Ack | WrongContentType | InvalidJson | Rejected(rejection: Rejection) | ScheduleFailed | Unhandled

  /** The "status" field of a reply (Unhandled has none of its own). */
  function Status(r: Reply): string {
    match r
    case Ack => "200"
    case WrongContentType => "400"
    case InvalidJson => "400"
    case Rejected(_) => "400"
    case ScheduleFailed => "500"
    case Unhandled => ""
  }

  /** A handler run: its reply and whether the background job was scheduled. */
  datatype Run = Run(reply: Reply, scheduled: bool)

  /** `handle_send_copy_signal` and its siblings: the Content-Type check, then
      the JSON body (None when it does not decode; `keysLogged` when the log
      line calls `data.keys()`, which raises for a body that is not a dict),
      then the validator, then scheduling, then the acknowledgement. */
  function Handle(header: Option<string>, body: Option<Value>, keysLogged: bool,
                  validate: Value -> Check, schedulerUp: bool): (r: Run)
    ensures !AcceptsJson(header) ==> r == Run(WrongContentType, false)
    ensures AcceptsJson(header) && (body.None? || (keysLogged && !body.value.VDict?)) ==> r == Run(InvalidJson, false)
    ensures r.scheduled <==> (AcceptsJson(header) && body.Some? && (!keysLogged || body.value.VDict?)
      && validate(body.value) == Pass && schedulerUp)
    ensures r.reply == Ack <==> r.scheduled
    ensures r.reply.Rejected? ==> body.Some? && validate(body.value) == Fail(r.reply.rejection)
  {
    if !AcceptsJson(header) then Run(WrongContentType, false)
    else if body.None? || (keysLogged && !body.value.VDict?) then Run(InvalidJson, false)
    else
      match validate(body.value)
      case Crash => Run(Unhandled, false)
      case Fail(rej) => Run(Rejected(rej), false)
      case Pass => if schedulerUp then Run(Ack, true) else Run(ScheduleFailed, false)
  }
}
