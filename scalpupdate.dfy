// The scalp-update event: a trader set or moved the take-profit and
// stop-loss of a position. The validator decides whether the payload is
// accepted; the background job posts a localised text message per push
// target.
module ScalpUpdate {
  import opened Text
  import opened Values
  import opened Validation
  import opened Delivery
  import opened PushTargets
  import opened Timestamp
  import opened Locale
  import opened I18nLoader

  const ScalpRequired: set<string> := {
    "trader_uid", "trader_name", "trader_detail_url", "pair", "pair_side", "time"
  }

  const MissingLead: string := "缺少欄位: "
  const SideMsg: string := "pair_side 只能是 '1'(Long) 或 '2'(Short)"
  const NoPriceMsg: string := "至少需要提供 tp_price 或 sl_price 其中之一"
  const PriceMsg: string := "價格欄位必須為數字格式"
  const TimeNotNumberMsg: string := "time 必須為毫秒級時間戳 (數字格式)"
  const TimeTooShortMsg: string := "time 必須為毫秒級時間戳 (13 位)"

  /** `data.get(key) is not None`: an empty string or a zero counts as
      given. */
  predicate Given(d: map<string, Value>, key: string) {
    Get(d, key) != VNone
  }

  /** The price checks: the new prices where given, the previous ones where
      truthy, must pass `float()`. */
  predicate PricesOk(num: NumberSyntax, d: map<string, Value>) {
    && (Given(d, "tp_price") ==> FloatOf(num, d["tp_price"]).Some?)
    && (Given(d, "sl_price") ==> FloatOf(num, d["sl_price"]).Some?)
    && (Truthy(Get(d, "previous_tp_price")) ==> FloatOf(num, d["previous_tp_price"]).Some?)
    && (Truthy(Get(d, "previous_sl_price")) ==> FloatOf(num, d["previous_sl_price"]).Some?)
  }

  /** The checks before the timestamp; None when all of them pass. */
  function FieldChecks(num: NumberSyntax, d: map<string, Value>): Option<Rejection> {
    var missing := MissingFields(d, ScalpRequired);
    if missing != {} then Some(Missing(MissingLead, missing))
    else if !CodeOk(Get(d, "pair_side")) then Some(Invalid(SideMsg))
    else if !Given(d, "tp_price") && !Given(d, "sl_price") then Some(Invalid(NoPriceMsg))
    else if !PricesOk(num, d) then Some(Invalid(PriceMsg))
    else None
  }

  /** `validate_scalp_update` as written: a time below 10**12 is reported
      with the "not a number" message. A body that is not a dict fails at
      `.get` with AttributeError. */
  function ValidateScalpUpdate(num: NumberSyntax, data: Value): (r: Check)
    ensures data.VDict? ==> (r.Fail? && r.rejection.Missing? <==> MissingFields(data.fields, ScalpRequired) != {})
    ensures data.VDict? && MissingFields(data.fields, ScalpRequired) != {} ==>
      r == Fail(Missing(MissingLead, MissingFields(data.fields, ScalpRequired)))
  {
    if !data.VDict? then Crash
    else
      var d := data.fields;
      var fields := FieldChecks(num, d);
      if fields.Some? then Fail(fields.value)
      else Verdict(MillisCheckRewrapped(num, Get(d, "time"), TimeNotNumberMsg, TimeTooShortMsg))
  }

  /** The validator with the time check its messages describe. */
  function ValidateScalpUpdateIntended(num: NumberSyntax, data: Value): (r: Check)
    ensures data.VDict? ==> (r.Fail? && r.rejection.Missing? <==> MissingFields(data.fields, ScalpRequired) != {})
    ensures data.VDict? && MissingFields(data.fields, ScalpRequired) != {} ==>
      r == Fail(Missing(MissingLead, MissingFields(data.fields, ScalpRequired)))
  {
    if !data.VDict? then Crash
    else
      var d := data.fields;
      var fields := FieldChecks(num, d);
      if fields.Some? then Fail(fields.value)
      else Verdict(MillisCheck(num, Get(d, "time"), TimeNotNumberMsg, TimeTooShortMsg))
  }

  /** A check outcome from an optional rejection. */
  function Verdict(rej: Option<Rejection>): Check {
    if rej.None? then Pass else Fail(rej.value)
  }

  /** Everything the validator demands of an accepted payload. */
  predicate ScalpUpdateWellFormed(num: NumberSyntax, d: map<string, Value>) {
    && (forall f :: f in ScalpRequired ==> f in d && Truthy(d[f]))
    && CodeOk(d["pair_side"])
    && (Given(d, "tp_price") || Given(d, "sl_price"))
    && PricesOk(num, d)
    && IntOfFloat(num, d["time"]).Some? && IntOfFloat(num, d["time"]).value >= MinMillis
  }

  /** A payload is accepted exactly when it is a dict meeting every rule,
      and the as-written and the intended validators accept the same
      payloads. */
  lemma {:induction false} ScalpUpdateAccepted(num: NumberSyntax, data: Value)
    ensures ValidateScalpUpdate(num, data) == Pass <==> data.VDict? && ScalpUpdateWellFormed(num, data.fields)
    ensures ValidateScalpUpdateIntended(num, data) == Pass <==> ValidateScalpUpdate(num, data) == Pass
  {
    if data.VDict? {
      var time := Get(data.fields, "time");
      NoneMissingIffAllTruthy(data.fields, ScalpRequired);
      MillisCheckReasons(num, time, TimeNotNumberMsg, TimeTooShortMsg);
      RewrapSameVerdict(num, time, TimeNotNumberMsg, TimeTooShortMsg);
    }
  }

  /** A time in seconds is called "not a number" as written, and "not 13
      digits" by the intended check. */
  lemma {:induction false} SecondsTimeMessage(num: NumberSyntax, d: map<string, Value>, secs: int)
    requires FieldChecks(num, d) == None
    requires "time" in d && d["time"] == VInt(secs) && secs < MinMillis
    ensures ValidateScalpUpdate(num, VDict(d)) == Fail(Invalid(TimeNotNumberMsg))
    ensures ValidateScalpUpdateIntended(num, VDict(d)) == Fail(Invalid(TimeTooShortMsg))
  {
  }

  /** An empty take-profit string counts as given, so it passes the
      "at least one price" check and is then refused by the numeric check
      (when `float("")` fails, as it does in Python). */
  lemma {:induction false} EmptyPriceIsNotNumber(num: NumberSyntax, d: map<string, Value>)
    requires forall f :: f in ScalpRequired ==> f in d && Truthy(d[f])
    requires CodeOk(d["pair_side"])
    requires "tp_price" in d && d["tp_price"] == VStr("") && num.floatText("") == None
    ensures ValidateScalpUpdate(num, VDict(d)) == Fail(Invalid(PriceMsg))
  {
    NoneMissingIffAllTruthy(d, ScalpRequired);
  }

  // ---------------------------------------------------------------------
  // The message text

  /** `str(data.get(key, ""))` where the value is truthy, else "". */
  function PriceText(d: map<string, Value>, key: string): (r: string)
    ensures r != [] ==> Truthy(Get(d, key))
  {
    var v := Get(d, key);
    if Truthy(v) then Str(v) else ""
  }

  /** Update mode: a previous price is given. */
  predicate IsUpdate(d: map<string, Value>) {
    Truthy(Get(d, "previous_tp_price")) || Truthy(Get(d, "previous_sl_price"))
  }

  /** One rendered line: the catalog key and its variables. */
  datatype Line = Line(key: string, vars: map<string, Value>)

  function PriceLine(key: string, price: string): Line {
    Line(key, map["price" := VStr(price)])
  }

  function MoveLine(key: string, previous: string, price: string): Line {
    Line(key, map["old" := VStr(previous), "new" := VStr(price)])
  }

  /** The price lines after the header, as `format_scalp_update_text`
      chooses them: in update mode a moved price where both the new and
      the previous one are set, else the new price alone; in setting mode
      the new prices alone. Take-profit first, then stop-loss. */
  function PriceLines(d: map<string, Value>): seq<Line> {
    var tp, sl := PriceText(d, "tp_price"), PriceText(d, "sl_price");
    var prevTp, prevSl := PriceText(d, "previous_tp_price"), PriceText(d, "previous_sl_price");
    if IsUpdate(d) then
      (if tp != "" && prevTp != "" then [MoveLine("scalp.tp_update", prevTp, tp)]
       else if tp != "" then [PriceLine("scalp.tp", tp)] else [])
      + (if sl != "" && prevSl != "" then [MoveLine("scalp.sl_update", prevSl, sl)]
         else if sl != "" then [PriceLine("scalp.sl", sl)] else [])
    else
      (if tp != "" then [PriceLine("scalp.tp", tp)] else [])
      + (if sl != "" then [PriceLine("scalp.sl", sl)] else [])
  }

  /** The line for one price, whichever the mode: moved where the previous
      price is set, plain where only the new one is. */
  function PriceLineOf(d: map<string, Value>, key: string, prevKey: string, plain: string, moved: string): seq<Line> {
    var price, prev := PriceText(d, key), PriceText(d, prevKey);
    if price == "" then []
    else if prev != "" then [MoveLine(moved, prev, price)]
    else [PriceLine(plain, price)]
  }

  /** The mode makes no difference to the lines: a set previous price is
      what puts the payload in update mode, so each price gets its moved
      line exactly when its own previous price is set. There is one line
      per set new price, take-profit first. */
  lemma {:induction false} PriceLinesByPrice(d: map<string, Value>)
    ensures PriceLines(d) == PriceLineOf(d, "tp_price", "previous_tp_price", "scalp.tp", "scalp.tp_update")
                             + PriceLineOf(d, "sl_price", "previous_sl_price", "scalp.sl", "scalp.sl_update")
    ensures |PriceLines(d)| == (if PriceText(d, "tp_price") != "" then 1 else 0)
                               + (if PriceText(d, "sl_price") != "" then 1 else 0)
  {
    if !IsUpdate(d) {
      assert PriceText(d, "previous_tp_price") == "" && PriceText(d, "previous_sl_price") == "";
    }
  }

  /** The title key: update mode or setting mode. */
  function TitleKey(d: map<string, Value>): string {
    if IsUpdate(d) then "scalp.title_update" else "scalp.title_setting"
  }

  /** The message without its detail line. */
  function ScalpBody(i18n: I18n, d: map<string, Value>, time: string, locale: string): string {
    var side := i18n.T("common.sides." + Str(GetOr(d, "pair_side", VStr(""))), locale);
    var header :=
      i18n.Render(TitleKey(d), locale, map["trader_name" := GetOr(d, "trader_name", VStr("Trader"))]) + "\n\n"
      + i18n.Render("scalp.line_pair", locale, map["pair" := GetOr(d, "pair", VStr("")), "pair_side" := side]) + "\n"
      + i18n.Render("scalp.line_time", locale, map["time" := VStr(time)]);
    var lines := PriceLines(d);
    var rendered := seq(|lines|, i requires 0 <= i < |lines| => i18n.Render(lines[i].key, locale, lines[i].vars));
    if rendered == [] then header else header + "\n" + Join("\n", rendered)
  }

  /** The detail line, `common.detail_line` rendered with the trader name
      and detail link. */
  function ScalpDetail(i18n: I18n, d: map<string, Value>, locale: string): string {
    i18n.Render("common.detail_line", locale,
      map["trader_name" := GetOr(d, "trader_name", VStr("Trader")), "url" := GetOr(d, "trader_detail_url", VStr(""))])
  }

  /** `format_scalp_update_text(data, formatted_time, include_link, lang)`. */
  function ScalpText(i18n: I18n, d: map<string, Value>, time: string, includeLink: bool, lang: Value): string {
    var locale := NormalizeLocale(lang);
    WithLink(ScalpBody(i18n, d, time, locale), ScalpDetail(i18n, d, locale), includeLink)
  }

  /** With the link, the message is the one without it, a blank line and
      the detail line. */
  lemma {:induction false} ScalpLinkAppended(i18n: I18n, d: map<string, Value>, time: string, lang: Value)
    ensures ScalpText(i18n, d, time, true, lang)
      == ScalpText(i18n, d, time, false, lang) + "\n\n" + ScalpDetail(i18n, d, NormalizeLocale(lang))
  {
  }

  /** Only the normalised locale matters: passing the normalised tag gives
      the same message as passing the raw one. */
  lemma {:induction false} ScalpTextLocale(i18n: I18n, d: map<string, Value>, time: string, includeLink: bool, lang: Value)
    ensures ScalpText(i18n, d, time, includeLink, VStr(NormalizeLocale(lang))) == ScalpText(i18n, d, time, includeLink, lang)
  {
    NormalizeIdempotent(lang);
  }

  // ---------------------------------------------------------------------
  // The background job

  /** The row `get_push_targets` yields for a target:
      `(channel_id, topic_id, jump)`. */
  function TargetRow(t: Target): seq<Value> {
    [VInt(t.channel), VStr(t.topic), VStr(t.jump)]
  }

  /** The four names the loop unpacks a row into. */
  datatype Unpacked = Unpacked(channel: Value, topic: Value, jump: Value, lang: Value)

  /** `channel_id, topic_id, jump, channel_lang = row`; None where Python
      raises ValueError because the row does not hold four values. */
  function UnpackFour(row: seq<Value>): (r: Option<Unpacked>)
    ensures r.Some? <==> |row| == 4
  {
    if |row| == 4 then Some(Unpacked(row[0], row[1], row[2], row[3])) else None
  }

  /** The send of one unpacked row; `get_channel` finds no channel for an id
      that is not an integer. */
  function RowSend(i18n: I18n, d: map<string, Value>, time: string, u: Unpacked,
                   channels: map<int, Permissions>): Send
  {
    match u.channel
    case VInt(c) => SendText(channels, c, ScalpText(i18n, d, time, u.jump == VStr("1"), u.lang))
    case _ => NoChannel
  }

  /** The loop as written over the rows: None as soon as a row does not
      unpack, since the ValueError leaves the loop before the tasks are
      awaited. */
  function RowSends(i18n: I18n, d: map<string, Value>, time: string, rows: seq<seq<Value>>,
                    channels: map<int, Permissions>): Option<seq<Send>>
    decreases |rows|
  {
    if rows == [] then Some([])
    else
      match UnpackFour(rows[0])
      case None => None
      case Some(u) =>
        match RowSends(i18n, d, time, rows[1..], channels)
        case None => None
        case Some(rest) => Some([RowSend(i18n, d, time, u, channels)] + rest)
  }

  /** The job as written: the loop unpacks four values from each target row
      and uses the fourth as the channel's language; an unpacking error ends
      the job in its catch-all handler with nothing sent. */
  function ScalpUpdateSendsAsWritten(num: NumberSyntax, i18n: I18n, d: map<string, Value>, resp: Option<Response>,
                                     channels: map<int, Permissions>): seq<Send>
  {
    if "trader_uid" !in d then []
    else
      var targets := Targets(num, Str(d["trader_uid"]), resp);
      var rows := seq(|targets|, i requires 0 <= i < |targets| => TargetRow(targets[i]));
      match RowSends(i18n, d, FormatTimestampMs(num, Get(d, "time")), rows, channels)
      case None => []
      case Some(sends) => sends
  }

  /** The sends of the targets, in target order: each target's text is the
      shared body, with the detail line where its jump is "1". */
  function ScalpSends(targets: seq<Target>, body: string, detail: string, channels: map<int, Permissions>): seq<Send>
  {
    seq(|targets|, i requires 0 <= i < |targets| =>
      SendText(channels, targets[i].channel, WithLink(body, detail, targets[i].jump == "1")))
  }

  /** The job with the loop unpacking the three values the rows hold. The
      targets carry no language, so every message uses the locale that
      `normalize_locale(None)` gives. */
  function ScalpUpdateSends(num: NumberSyntax, i18n: I18n, d: map<string, Value>, resp: Option<Response>,
                            channels: map<int, Permissions>): seq<Send>
  {
    if "trader_uid" !in d then []
    else
      var locale := NormalizeLocale(VNone);
      var time := FormatTimestampMs(num, Get(d, "time"));
      ScalpSends(Targets(num, Str(d["trader_uid"]), resp), ScalpBody(i18n, d, time, locale),
                 ScalpDetail(i18n, d, locale), channels)
  }

  /** As written, the job posts nothing for any input: without a trader uid
      or targets there is nothing to send, and every target row holds three
      values, so the first unpacking raises. */
  lemma {:induction false} ScalpAsWrittenNeverPosts(num: NumberSyntax, i18n: I18n, d: map<string, Value>, resp: Option<Response>,
                                 channels: map<int, Permissions>)
    ensures ScalpUpdateSendsAsWritten(num, i18n, d, resp, channels) == []
  {
    if "trader_uid" in d {
      var targets := Targets(num, Str(d["trader_uid"]), resp);
      var rows := seq(|targets|, i requires 0 <= i < |targets| => TargetRow(targets[i]));
      if rows != [] {
        assert |rows[0]| == 3;
      }
    }
  }

  /** With the three-value unpacking, every target whose channel the bot
      sees and may post in gets its message, where as written it gets
      none. */
  lemma {:induction false} ScalpUnpackDiscrepancy(num: NumberSyntax, i18n: I18n, d: map<string, Value>, resp: Option<Response>,
                               channels: map<int, Permissions>, i: int)
    requires "trader_uid" in d
    requires 0 <= i < |Targets(num, Str(d["trader_uid"]), resp)|
    requires var t := Targets(num, Str(d["trader_uid"]), resp)[i];
      t.channel in channels && channels[t.channel].sendMessages
    ensures ScalpUpdateSendsAsWritten(num, i18n, d, resp, channels) == []
    ensures Posted(ScalpUpdateSends(num, i18n, d, resp, channels)[i])
  {
    ScalpAsWrittenNeverPosts(num, i18n, d, resp, channels);
  }

  lemma {:induction false} ScalpSendsStep(targets: seq<Target>, i: int, body: string, detail: string, channels: map<int, Permissions>)
    requires 0 <= i < |targets|
    ensures ScalpSends(targets[..i + 1], body, detail, channels)
      == ScalpSends(targets[..i], body, detail, channels)
         + [SendText(channels, targets[i].channel, WithLink(body, detail, targets[i].jump == "1"))]
  {
  }

  /** The loop that builds one send task per target. The text differs
      between targets only by the detail line, so the body and the detail
      line are rendered once. */
  method BuildScalpSends(targets: seq<Target>, body: string, detail: string, channels: map<int, Permissions>)
    returns (tasks: seq<Send>)
    ensures tasks == ScalpSends(targets, body, detail, channels)
  {
    tasks := [];
    var i := 0;
    while i < |targets|
      invariant 0 <= i <= |targets|
      invariant tasks == ScalpSends(targets[..i], body, detail, channels)
    {
      var text := WithLink(body, detail, targets[i].jump == "1");
      ScalpSendsStep(targets, i, body, detail, channels);
      tasks := tasks + [SendText(channels, targets[i].channel, text)];
      i := i + 1;
    }
    assert targets[..i] == targets;
  }

  /** `process_scalp_update_discord` with the three-value unpacking: the
      targets, the formatted time, one send task per target, then the count
      of results that are not exceptions. */
  method ProcessScalpUpdate(num: NumberSyntax, i18n: I18n, d: map<string, Value>, resp: Option<Response>,
                            channels: map<int, Permissions>)
    returns (sends: seq<Send>, successCount: nat)
    ensures sends == ScalpUpdateSends(num, i18n, d, resp, channels)
    ensures successCount == |sends|
  {
    if "trader_uid" !in d {
      return [], 0;
    }
    var targets := GetPushTargets(num, Str(d["trader_uid"]), resp);
    if targets == [] {
      return [], 0;
    }
    var time := FormatTimestampMs(num, Get(d, "time"));
    var locale := NormalizeLocale(VNone);
    var body, detail := ScalpBody(i18n, d, time, locale), ScalpDetail(i18n, d, locale);
    sends := BuildScalpSends(targets, body, detail, channels);
    var results := GuardedResults(sends);
    successCount := CountSuccesses(results);
    GuardedAllSucceed(sends);
  }

  /** One text message per push target: posted exactly where the bot sees
      the channel and may post, and the text is the one
      `format_scalp_update_text` gives for the target's jump flag. */
  lemma {:induction false} ScalpUpdateFanOut(num: NumberSyntax, i18n: I18n, d: map<string, Value>, resp: Option<Response>,
                          channels: map<int, Permissions>, i: int)
    requires "trader_uid" in d
    requires 0 <= i < |Targets(num, Str(d["trader_uid"]), resp)|
    ensures var sends := ScalpUpdateSends(num, i18n, d, resp, channels);
      var t := Targets(num, Str(d["trader_uid"]), resp)[i];
      var time := FormatTimestampMs(num, Get(d, "time"));
      && |sends| == |Targets(num, Str(d["trader_uid"]), resp)|
      && !sends[i].PostFile?
      && (Posted(sends[i]) <==> t.channel in channels && channels[t.channel].sendMessages)
      && (Posted(sends[i]) ==> sends[i].text == ScalpText(i18n, d, time, t.jump == "1", VNone))
  {
  }

  /** `handle_send_scalp_update`, with the validator as written; the body is
      logged by its keys, so a body that is not a dict is refused as
      invalid JSON. */
  function HandleScalpUpdate(num: NumberSyntax, header: Option<string>, body: Option<Value>, schedulerUp: bool): (r: Run)
    ensures r.scheduled <==> (AcceptsJson(header) && body.Some? && body.value.VDict?
      && ScalpUpdateWellFormed(num, body.value.fields) && schedulerUp)
    ensures r.reply.Rejected? ==> body.Some? && ValidateScalpUpdate(num, body.value) == Fail(r.reply.rejection)
  {
    var validate := v => ValidateScalpUpdate(num, v);
    if body.Some? then
      ScalpUpdateAccepted(num, body.value);
      Handle(header, body, true, validate, schedulerUp)
    else Handle(header, body, true, validate, schedulerUp)
  }
}
