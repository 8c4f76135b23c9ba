// The trade-summary event: a trader closed a position. The validator decides
// whether the payload is accepted; the background job posts one summary per
// push target with the rendered summary image attached.
module TradeSummary {
  import opened Text
  import opened Values
  import opened Validation
  import opened Delivery
  import opened PushTargets
  import opened Timestamp
  import opened NumberFormat

  const SummaryRequired: set<string> := {
    "trader_uid", "trader_name", "trader_detail_url", "pair", "pair_side",
    "pair_margin_type", "pair_leverage", "entry_price", "exit_price",
    "realized_pnl", "realized_pnl_percentage", "close_time"
  }

  const MissingLead: string := "缺少欄位: "
  const SideMsg: string := "pair_side 只能是 '1'(Long) 或 '2'(Short)"
  const MarginMsg: string := "pair_margin_type 只能是 '1'(Cross) 或 '2'(Isolated)"
  const NumbersMsg: string := "數值欄位必須為正確的數字格式"
  const CloseTimeNotNumberMsg: string := "close_time 必須為毫秒級時間戳 (數字格式)"
  const CloseTimeTooShortMsg: string := "close_time 必須為毫秒級時間戳 (13 位)"

  /** The five fields that must parse as numbers. */
  predicate NumbersOk(num: NumberSyntax, d: map<string, Value>) {
    && FloatOf(num, Get(d, "entry_price")).Some?
    && FloatOf(num, Get(d, "exit_price")).Some?
    && FloatOf(num, Get(d, "realized_pnl")).Some?
    && FloatOf(num, Get(d, "realized_pnl_percentage")).Some?
    && FloatOf(num, Get(d, "pair_leverage")).Some?
  }

  /** The checks before the timestamp; None when all of them pass. */
  function FieldChecks(num: NumberSyntax, d: map<string, Value>): Option<Rejection> {
    var missing := MissingFields(d, SummaryRequired);
    if missing != {} then Some(Missing(MissingLead, missing))
    else if !CodeOk(Get(d, "pair_side")) then Some(Invalid(SideMsg))
    else if !CodeOk(Get(d, "pair_margin_type")) then Some(Invalid(MarginMsg))
    else if !NumbersOk(num, d) then Some(Invalid(NumbersMsg))
    else None
  }

  /** A check outcome from an optional rejection. */
  function Verdict(rej: Option<Rejection>): Check {
    if rej.None? then Pass else Fail(rej.value)
  }

  /** `validate_trade_summary` as written: a close time below 10**12 is
      reported with the "not a number" message. */
  function ValidateTradeSummary(num: NumberSyntax, data: Value): (r: Check)
    ensures data.VDict? ==> (r.Fail? && r.rejection.Missing? <==> MissingFields(data.fields, SummaryRequired) != {})
    ensures data.VDict? && MissingFields(data.fields, SummaryRequired) != {} ==>
      r == Fail(Missing(MissingLead, MissingFields(data.fields, SummaryRequired)))
  {
    if !data.VDict? then Crash
    else
      var d := data.fields;
      var fields := FieldChecks(num, d);
      if fields.Some? then Fail(fields.value)
      else Verdict(MillisCheckRewrapped(num, Get(d, "close_time"), CloseTimeNotNumberMsg, CloseTimeTooShortMsg))
  }

  /** The validator with the close-time check the messages describe. */
  function ValidateTradeSummaryIntended(num: NumberSyntax, data: Value): (r: Check)
    ensures data.VDict? ==> (r.Fail? && r.rejection.Missing? <==> MissingFields(data.fields, SummaryRequired) != {})
    ensures data.VDict? && MissingFields(data.fields, SummaryRequired) != {} ==>
      r == Fail(Missing(MissingLead, MissingFields(data.fields, SummaryRequired)))
  {
    if !data.VDict? then Crash
    else
      var d := data.fields;
      var fields := FieldChecks(num, d);
      if fields.Some? then Fail(fields.value)
      else Verdict(MillisCheck(num, Get(d, "close_time"), CloseTimeNotNumberMsg, CloseTimeTooShortMsg))
  }

  /** Everything the validator demands of an accepted payload. */
  predicate TradeSummaryWellFormed(num: NumberSyntax, d: map<string, Value>) {
    && (forall f :: f in SummaryRequired ==> f in d && Truthy(d[f]))
    && CodeOk(d["pair_side"])
    && CodeOk(d["pair_margin_type"])
    && NumbersOk(num, d)
    && IntOfFloat(num, d["close_time"]).Some? && IntOfFloat(num, d["close_time"]).value >= MinMillis
  }

  /** A payload is accepted exactly when it is a dict meeting every rule,
      and the as-written and the intended validators accept the same
      payloads. */
  lemma {:induction false} TradeSummaryAccepted(num: NumberSyntax, data: Value)
    ensures ValidateTradeSummary(num, data) == Pass <==> data.VDict? && TradeSummaryWellFormed(num, data.fields)
    ensures ValidateTradeSummaryIntended(num, data) == Pass <==> ValidateTradeSummary(num, data) == Pass
  {
    if data.VDict? {
      var time := Get(data.fields, "close_time");
      NoneMissingIffAllTruthy(data.fields, SummaryRequired);
      MillisCheckReasons(num, time, CloseTimeNotNumberMsg, CloseTimeTooShortMsg);
      RewrapSameVerdict(num, time, CloseTimeNotNumberMsg, CloseTimeTooShortMsg);
    }
  }

  /** The two validators differ only in the message for a close time that
      is a number below 10**12, a seconds timestamp say: as written it is
      called "not a number", as intended "not 13 digits". */
  lemma {:induction false} SecondsCloseTimeMessage(num: NumberSyntax, d: map<string, Value>, secs: int)
    requires FieldChecks(num, d) == None
    requires "close_time" in d && d["close_time"] == VInt(secs) && secs < MinMillis
    ensures ValidateTradeSummary(num, VDict(d)) == Fail(Invalid(CloseTimeNotNumberMsg))
    ensures ValidateTradeSummaryIntended(num, VDict(d)) == Fail(Invalid(CloseTimeTooShortMsg))
  {
  }

  // ---------------------------------------------------------------------
  // The summary text

  /** The formatted numbers and time of a summary. They depend on the
      payload only, so the model formats them once per event. */
  datatype Figures = Figures(leverage: string, roi: string, entry: string, exit: string, time: string)

  /** `format_float` of the leverage, ROI and prices (0 where absent) and
      `format_timestamp_ms_to_utc(data.get('close_time'))`. */
  function FiguresOf(num: NumberSyntax, d: map<string, Value>): Figures {
    Figures(
      FormatFloat(num, GetOr(d, "pair_leverage", VInt(0))),
      FormatFloat(num, GetOr(d, "realized_pnl_percentage", VInt(0))),
      FormatFloat(num, GetOr(d, "entry_price", VInt(0))),
      FormatFloat(num, GetOr(d, "exit_price", VInt(0))),
      FormatTimestampMs(num, Get(d, "close_time")))
  }

  /** `format_trade_summary_text(data, include_link=False)`: every field is
      read with `.get` and a default, so building the text never raises. */
  function SummaryBody(d: map<string, Value>, f: Figures): string {
    "\U{1F4CA} **Trade Summary**\n\n"
    + "\U{26A1}\U{FE0F}**" + Str(GetOr(d, "trader_name", VStr("Trader"))) + "** Position Closed\n\n"
    + "**" + Str(GetOr(d, "pair", VStr(""))) + "** " + MarginLabel(GetOr(d, "pair_margin_type", VStr("")))
    + " **" + f.leverage + "X**\n\n"
    + "Time: " + f.time + " (UTC+0)\n"
    + "Direction: " + SideLabel(GetOr(d, "pair_side", VStr(""))) + "\n"
    + "ROI: " + f.roi + "%\n"
    + "Entry Price: $" + f.entry + "\n"
    + "Exit Price: $" + f.exit
  }

  /** The detail link the summary closes with, with the same defaults. */
  function SummaryLink(d: map<string, Value>): string {
    AboutLink(Str(GetOr(d, "trader_name", VStr("Trader"))), Str(GetOr(d, "trader_detail_url", VStr(""))))
  }

  /** `format_trade_summary_text(data, include_link)`. */
  function SummaryText(d: map<string, Value>, f: Figures, includeLink: bool): string {
    WithLink(SummaryBody(d, f), SummaryLink(d), includeLink)
  }

  /** The text with the link is the text without it, a blank line and the
      link. */
  lemma {:induction false} SummaryLinkAppended(d: map<string, Value>, f: Figures)
    ensures SummaryText(d, f, true) == SummaryText(d, f, false) + "\n\n" + SummaryLink(d)
  {
  }

  // ---------------------------------------------------------------------
  // The background job

  /** The sends of the targets, in target order; each carries the image. */
  function SummarySends(targets: seq<Target>, body: string, link: string, image: string,
                        channels: map<int, Permissions>, fileExists: string -> bool): seq<Send>
  {
    seq(|targets|, i requires 0 <= i < |targets| =>
      SendWithImage(channels, targets[i].channel, WithLink(body, link, targets[i].jump == "1"), Some(image), fileExists))
  }

  lemma {:induction false} SummarySendsStep(targets: seq<Target>, i: int, body: string, link: string, image: string,
                         channels: map<int, Permissions>, fileExists: string -> bool)
    requires 0 <= i < |targets|
    ensures SummarySends(targets[..i + 1], body, link, image, channels, fileExists)
      == SummarySends(targets[..i], body, link, image, channels, fileExists)
         + [SendWithImage(channels, targets[i].channel, WithLink(body, link, targets[i].jump == "1"), Some(image), fileExists)]
  {
  }

  /** What `process_trade_summary_discord` posts: nothing without a trader
      uid, push targets or an image (`image` is the path the renderer
      returned, None where it failed), else one send per target. */
  function TradeSummarySends(num: NumberSyntax, d: map<string, Value>, resp: Option<Response>, image: Option<string>,
                             channels: map<int, Permissions>, fileExists: string -> bool): seq<Send>
  {
    if "trader_uid" !in d then []
    else
      var targets := Targets(num, Str(d["trader_uid"]), resp);
      if targets == [] || image.None? || image.value == [] then []
      else SummarySends(targets, SummaryBody(d, FiguresOf(num, d)), SummaryLink(d), image.value, channels, fileExists)
  }

  /** The loop that builds one send task per target, each with its own
      summary text. */
  method BuildSummarySends(d: map<string, Value>, figures: Figures, targets: seq<Target>, path: string,
                           channels: map<int, Permissions>, fileExists: string -> bool)
    returns (tasks: seq<Send>)
    ensures tasks == SummarySends(targets, SummaryBody(d, figures), SummaryLink(d), path, channels, fileExists)
  {
    var body, link := SummaryBody(d, figures), SummaryLink(d);
    tasks := [];
    var i := 0;
    while i < |targets|
      invariant 0 <= i <= |targets|
      invariant tasks == SummarySends(targets[..i], body, link, path, channels, fileExists)
    {
      var text := WithLink(body, link, targets[i].jump == "1");
      SummarySendsStep(targets, i, body, link, path, channels, fileExists);
      tasks := tasks + [SendWithImage(channels, targets[i].channel, text, Some(path), fileExists)];
      i := i + 1;
    }
    assert targets[..i] == targets;
  }

  /** The job: targets, then the image, then one send task per target, then
      the count of results that are not exceptions. */
  method ProcessTradeSummary(num: NumberSyntax, d: map<string, Value>, resp: Option<Response>, image: Option<string>,
                             channels: map<int, Permissions>, fileExists: string -> bool)
    returns (sends: seq<Send>, successCount: nat)
    ensures sends == TradeSummarySends(num, d, resp, image, channels, fileExists)
    ensures successCount == |sends|
  {
    if "trader_uid" !in d {
      return [], 0;
    }
    var targets := GetPushTargets(num, Str(d["trader_uid"]), resp);
    if targets == [] || image.None? || image.value == [] {
      return [], 0;
    }
    var figures := FiguresOf(num, d);
    sends := BuildSummarySends(d, figures, targets, image.value, channels, fileExists);
    var results := GuardedResults(sends);
    successCount := CountSuccesses(results);
    GuardedAllSucceed(sends);
  }

  /** One send per push target; the image is attached where the file
      exists and the bot may attach files, and the text carries the link
      exactly for the targets whose jump is "1". */
  lemma {:induction false} TradeSummaryFanOut(num: NumberSyntax, d: map<string, Value>, resp: Option<Response>, path: string,
                           channels: map<int, Permissions>, fileExists: string -> bool, i: int)
    requires "trader_uid" in d && path != []
    requires 0 <= i < |Targets(num, Str(d["trader_uid"]), resp)|
    ensures var sends := TradeSummarySends(num, d, resp, Some(path), channels, fileExists);
      var t := Targets(num, Str(d["trader_uid"]), resp)[i];
      && |sends| == |Targets(num, Str(d["trader_uid"]), resp)|
      && (Posted(sends[i]) <==> t.channel in channels && channels[t.channel].sendMessages)
      && (sends[i].PostFile? <==> Posted(sends[i]) && channels[t.channel].attachFiles && fileExists(path))
      && (Posted(sends[i]) && t.jump == "1" ==> sends[i].text == SummaryText(d, FiguresOf(num, d), true))
      && (Posted(sends[i]) && t.jump != "1" ==> sends[i].text == SummaryText(d, FiguresOf(num, d), false))
  {
    var targets := Targets(num, Str(d["trader_uid"]), resp);
    var f := FiguresOf(num, d);
    var sends := SummarySends(targets, SummaryBody(d, f), SummaryLink(d), path, channels, fileExists);
    assert TradeSummarySends(num, d, resp, Some(path), channels, fileExists) == sends;
    SummarySendAt(targets, SummaryBody(d, f), SummaryLink(d), path, channels, fileExists, i);
    assert SummaryText(d, f, targets[i].jump == "1") == WithLink(SummaryBody(d, f), SummaryLink(d), targets[i].jump == "1");
  }

  /** The send of target i: posted where the bot may post, with the file
      where it exists and may be attached, and with the link where the
      target's jump is "1". */
  lemma {:induction false} SummarySendAt(targets: seq<Target>, body: string, link: string, image: string,
                                         channels: map<int, Permissions>, fileExists: string -> bool, i: int)
    requires image != [] && 0 <= i < |targets|
    ensures var sends := SummarySends(targets, body, link, image, channels, fileExists);
      var t := targets[i];
      && |sends| == |targets|
      && (Posted(sends[i]) <==> t.channel in channels && channels[t.channel].sendMessages)
      && (sends[i].PostFile? <==> Posted(sends[i]) && channels[t.channel].attachFiles && fileExists(image))
      && (Posted(sends[i]) ==> sends[i].text == WithLink(body, link, t.jump == "1"))
  {
  }

  /** `handle_send_trade_summary`, with the validator as written. */
  function HandleTradeSummary(num: NumberSyntax, header: Option<string>, body: Option<Value>, schedulerUp: bool): (r: Run)
    ensures r.scheduled <==> (AcceptsJson(header) && body.Some? && body.value.VDict?
      && TradeSummaryWellFormed(num, body.value.fields) && schedulerUp)
    ensures r.reply.Rejected? ==> body.Some? && ValidateTradeSummary(num, body.value) == Fail(r.reply.rejection)
  {
    var validate := v => ValidateTradeSummary(num, v);
    if body.Some? then
      TradeSummaryAccepted(num, body.value);
      Handle(header, body, true, validate, schedulerUp)
    else Handle(header, body, true, validate, schedulerUp)
  }
}
